/** `buildCategoryUrl` and `scrapeAtbCategory` (src/scrapers/atbScraper.ts). */
module AtbScraper {
  import opened Records
  import opened JsText
  import opened CardFields
  import opened Web
  import Extraction
  import opened Session

  const AtbBaseUrl: string := "https://www.atbmarket.com"
  const AtbStoreName: string := "ATB"

  /** `buildCategoryUrl`: ATB category URLs are always absolute, and an absolute path
      is kept as it is. */
  function BuildCategoryUrl(categoryUrl: string): (r: string)
    ensures StartsWith(r, "http")
    ensures StartsWith(categoryUrl, "http") ==> r == categoryUrl
    ensures !StartsWith(categoryUrl, "http") ==> r == AtbBaseUrl + categoryUrl
  {
    ResolvedIsAbsolute(AtbBaseUrl, categoryUrl);
    ResolveUrl(AtbBaseUrl, categoryUrl)
  }

  /** `categoryPath ? categoryPath : categoryUrl`, the category URL handed to the page. */
  function PageCategoryUrl(categoryUrl: string, categoryPath: Option<string>): (r: string)
    ensures categoryPath.Some? && categoryPath.value != [] ==> r == categoryPath.value
    ensures categoryPath.None? || categoryPath.value == [] ==> r == categoryUrl
  {
    if categoryPath.Some? && categoryPath.value != [] then categoryPath.value else categoryUrl
  }

  /** ATB's per-card `try` block: no old price, `productUrl` is `''` without a link
      element, the category URL argument is stamped, and `lastUpdated` is an ISO string. */
  function AtbCard(card: Card, categoryName: string, categoryUrl: string, now: Instant): (r: CardOutcome)
    ensures r.Threw? <==> card.throws
    ensures r.Emit? <==> !card.throws && PassesGate(NameOf(card.nameText), PriceOf(card.priceText))
    ensures r.Emit? ==>
              && r.product.name == NameOf(card.nameText)
              && r.product.price == PriceOf(card.priceText)
              && r.product.oldPrice.None?
              && r.product.imageUrl == card.imageSrc
              && r.product.store == AtbStoreName
              && r.product.category == categoryName
              && r.product.lastUpdated == IsoStamp(now)
              && r.product.categoryUrl == Some(categoryUrl)
              && r.product.productUrl == (if card.linkHref.Some? then card.linkHref.value else [])
  {
    if card.throws then Threw
    else
      var name := NameOf(card.nameText);
      var price := PriceOf(card.priceText);
      var productUrl := if card.linkHref.Some? then card.linkHref.value else [];
      if !PassesGate(name, price) then Drop
      else Emit(ScrapedProduct(name, price, None, card.imageSrc, AtbStoreName, categoryName,
                               IsoStamp(now), productUrl, Some(categoryUrl)))
  }

  function AtbRule(categoryName: string, categoryUrl: string, now: Instant): Card -> CardOutcome
  {
    c => AtbCard(c, categoryName, categoryUrl, now)
  }

  /** The post-map on one record: a string `lastUpdated` is kept, a `Date` becomes its
      ISO string. */
  function IsoLastUpdated(p: ScrapedProduct): (q: ScrapedProduct)
    ensures q.lastUpdated.IsoStamp? && q.lastUpdated.at == p.lastUpdated.at
    ensures q.(lastUpdated := p.lastUpdated) == p
  {
    match p.lastUpdated
    case IsoStamp(_) => p
    case DateStamp(at) => p.(lastUpdated := IsoStamp(at))
  }

  /** `extractedData.map(product => ({...product, lastUpdated: ...}))`: same length, same
      order, only `lastUpdated` changes, and only from a `Date` to its ISO string. */
  function NormalizeLastUpdated(products: seq<ScrapedProduct>): (r: seq<ScrapedProduct>)
    ensures |r| == |products|
    ensures forall i :: 0 <= i < |r| ==> r[i] == IsoLastUpdated(products[i])
  {
    seq(|products|, i requires 0 <= i < |products| => IsoLastUpdated(products[i]))
  }

  predicate AllIso(products: seq<ScrapedProduct>)
  {
    forall i :: 0 <= i < |products| ==> products[i].lastUpdated.IsoStamp?
  }

  /** The post-map leaves records with string timestamps alone, so it is idempotent. */
  lemma NormalizeLastUpdatedIdempotent(products: seq<ScrapedProduct>)
    ensures AllIso(products) ==> NormalizeLastUpdated(products) == products
    ensures NormalizeLastUpdated(NormalizeLastUpdated(products)) == NormalizeLastUpdated(products)
  {
    var once := NormalizeLastUpdated(products);
    assert AllIso(once);
    assert forall i :: 0 <= i < |once| ==> IsoLastUpdated(once[i]) == once[i];
    if AllIso(products) {
      assert forall i :: 0 <= i < |products| ==> IsoLastUpdated(products[i]) == products[i];
    }
  }

  /** Every record the page emits already carries an ISO string, so on ATB the post-map
      changes nothing. */
  lemma AtbPostMapIsIdentity(cards: seq<Card>, categoryName: string, categoryUrl: string, now: Instant)
    ensures NormalizeLastUpdated(Extraction.Collect(cards, AtbRule(categoryName, categoryUrl, now)))
            == Extraction.Collect(cards, AtbRule(categoryName, categoryUrl, now))
  {
    var batch := Extraction.Collect(cards, AtbRule(categoryName, categoryUrl, now));
    Extraction.CollectKeeps(cards, AtbRule(categoryName, categoryUrl, now), (p: ScrapedProduct) => p.lastUpdated.IsoStamp?);
    assert forall i :: 0 <= i < |batch| ==> batch[i] in batch;
    NormalizeLastUpdatedIdempotent(batch);
  }

  /** Every record ATB emits passes the gate, is stamped "ATB" with the category and
      its category URL, and carries no old price. */
  predicate AtbRecord(p: ScrapedProduct, categoryName: string, categoryUrl: string)
  {
    && PassesGate(p.name, p.price) && p.name != []
    && p.store == AtbStoreName && p.category == categoryName
    && p.categoryUrl == Some(categoryUrl) && p.oldPrice.None?
  }

  /** What `scrapeAtbCategory(categoryUrl, categoryName, categoryPath)` settles to. */
  function AtbOutcome(categoryUrl: string, categoryName: string, categoryPath: Option<string>,
                      page: Page, now: Instant): (r: ScrapeResult)
    ensures r.Rejected? <==> page.launch.Fails? || page.setup.Fails?
    ensures r.Resolved? && (page.navigation.Fails? || page.readiness.Fails? || page.evaluation.EvaluateFails?) ==>
              r.products == []
    ensures r.Resolved? && page.navigation.Ok? && page.readiness.Ok? && page.evaluation.Cards? ==>
              r.products == Extraction.Collect(page.evaluation.cards,
                                               AtbRule(categoryName, PageCategoryUrl(categoryUrl, categoryPath), now))
  {
    if page.evaluation.Cards? then
      AtbPostMapIsIdentity(page.evaluation.cards, categoryName, PageCategoryUrl(categoryUrl, categoryPath), now);
      SessionOutcome(page, AtbRule(categoryName, PageCategoryUrl(categoryUrl, categoryPath), now), NormalizeLastUpdated)
    else
      SessionOutcome(page, AtbRule(categoryName, PageCategoryUrl(categoryUrl, categoryPath), now), NormalizeLastUpdated)
  }

  /** `scrapeAtbCategory` */
  method ScrapeAtbCategory(pup: Puppeteer, categoryUrl: string, categoryName: string,
                           categoryPath: Option<string>, page: Page, now: Instant)
      returns (result: ScrapeResult)
    requires pup.Valid()
    modifies pup
    ensures pup.Valid()
    ensures result == AtbOutcome(categoryUrl, categoryName, categoryPath, page, now)
    ensures result.Resolved? ==> forall p :: p in result.products ==>
              AtbRecord(p, categoryName, PageCategoryUrl(categoryUrl, categoryPath))
    ensures pup.launches == old(pup.launches) + (if page.launch.Ok? then 1 else 0)
    ensures pup.closes == old(pup.closes) + (if page.launch.Ok? && page.setup.Ok? then 1 else 0)
    ensures pup.visited == old(pup.visited) +
              (if page.launch.Ok? && page.setup.Ok? then [BuildCategoryUrl(categoryUrl)] else [])
  {
    var fullCategoryUrl := BuildCategoryUrl(categoryUrl);
    var stamped := PageCategoryUrl(categoryUrl, categoryPath);
    result := ScrapeWithSession(pup, fullCategoryUrl, page, AtbRule(categoryName, stamped, now), NormalizeLastUpdated);
    AtbOutcomeValid(categoryUrl, categoryName, categoryPath, page, now);
  }

  /** The promise rejects only when launch or setup fails; a navigation or readiness
      failure resolves to `[]`; every resolved record is a valid ATB record, and there are
      no more records than cards. */
  lemma AtbOutcomeValid(categoryUrl: string, categoryName: string, categoryPath: Option<string>,
                        page: Page, now: Instant)
    ensures var r := AtbOutcome(categoryUrl, categoryName, categoryPath, page, now);
      && (r.Rejected? <==> page.launch.Fails? || page.setup.Fails?)
      && (r.Resolved? && (page.navigation.Fails? || page.readiness.Fails?) ==> r.products == [])
      && (r.Resolved? ==> forall p :: p in r.products ==> AtbRecord(p, categoryName, PageCategoryUrl(categoryUrl, categoryPath)))
      && (r.Resolved? && page.evaluation.Cards? ==> |r.products| <= |page.evaluation.cards|)
  {
    var stamped := PageCategoryUrl(categoryUrl, categoryPath);
    var rule := AtbRule(categoryName, stamped, now);
    if page.evaluation.Cards? {
      var cards := page.evaluation.cards;
      Extraction.CollectKeeps(cards, rule, (p: ScrapedProduct) => AtbRecord(p, categoryName, stamped));
      AtbPostMapIsIdentity(cards, categoryName, stamped, now);
    }
  }
}
