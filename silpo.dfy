/** `scrapeSilpoCategory` (src/scrapers/silpoScraper.ts). */
module SilpoScraper {
  import opened Records
  import opened JsText
  import opened PriceText
  import opened CardFields
  import opened Web
  import Extraction
  import opened Session

  /** The parts of the Silpo site configuration the scraper reads (`config.name`,
      `config.baseUrl`); the selectors only locate card elements and are folded into `Card`. */
  datatype SiteConfig = SiteConfig(name: string, baseUrl: string)

  /** A card whose link is present and non-empty (`productUrl` is truthy). */
  predicate Linked(card: Card)
  {
    card.linkHref.Some? && card.linkHref.value != []
  }

  /** A card that reaches the `productUrl || categoryUrl` fallback: it does not throw
      earlier, passes the gate and has no usable link. */
  predicate LinklessPass(card: Card)
  {
    !card.throws && PassesGate(NameOf(card.nameText), PriceOf(card.priceText)) && !Linked(card)
  }

  /** The per-card `try` block exactly as written. The record's `productUrl` is
      `productUrl || categoryUrl`, but that code runs inside the page, where the scraper's
      `categoryUrl` parameter is not in scope: `categoryUrlInPage` is what the identifier
      denotes there (`None`: not defined, so reading it throws a ReferenceError). */
  function SilpoCardAsWritten(card: Card, storeName: string, categoryName: string, now: Instant,
                              categoryUrlInPage: Option<string>): (r: CardOutcome)
    ensures r.Threw? <==> card.throws || (LinklessPass(card) && categoryUrlInPage.None?)
    ensures r.Emit? <==>
              !card.throws && PassesGate(NameOf(card.nameText), PriceOf(card.priceText))
              && (Linked(card) || categoryUrlInPage.Some?)
    ensures r.Emit? ==>
              && r.product.name == NameOf(card.nameText)
              && r.product.price == PriceOf(card.priceText)
              && r.product.oldPrice == OldPriceOf(card.oldPriceText)
              && r.product.imageUrl == card.imageSrc
              && r.product.store == storeName
              && r.product.category == categoryName
              && r.product.lastUpdated == DateStamp(now)
              && r.product.categoryUrl.None?
              && r.product.productUrl ==
                   (if Linked(card) then card.linkHref.value else categoryUrlInPage.value)
  {
    if card.throws then Threw
    else
      var name := NameOf(card.nameText);
      var price := PriceOf(card.priceText);
      if !PassesGate(name, price) then Drop
      else
        var linked := card.linkHref.Some? && card.linkHref.value != [];
        if !linked && categoryUrlInPage.None? then Threw
        else
          var productUrl := if linked then card.linkHref.value else categoryUrlInPage.value;
          Emit(ScrapedProduct(name, price, OldPriceOf(card.oldPriceText), card.imageSrc,
                              storeName, categoryName, DateStamp(now), productUrl, None))
  }

  /** The per-card rule with the fallback the code evidently intends: the category URL
      handed to the scraper is in scope where the record is built. */
  function SilpoCard(card: Card, storeName: string, categoryName: string, categoryUrl: string,
                     now: Instant): (r: CardOutcome)
    ensures r.Threw? <==> card.throws
    ensures r.Emit? <==> !card.throws && PassesGate(NameOf(card.nameText), PriceOf(card.priceText))
    ensures r.Emit? ==>
              && r.product.name == NameOf(card.nameText)
              && r.product.price == PriceOf(card.priceText)
              && r.product.oldPrice == OldPriceOf(card.oldPriceText)
              && r.product.imageUrl == card.imageSrc
              && r.product.store == storeName
              && r.product.category == categoryName
              && r.product.lastUpdated == DateStamp(now)
              && r.product.categoryUrl.None?
              && r.product.productUrl == (if Linked(card) then card.linkHref.value else categoryUrl)
  {
    SilpoCardAsWritten(card, storeName, categoryName, now, Some(categoryUrl))
  }

  /** Every record Silpo emits passes the gate and is stamped with the store and category. */
  predicate SilpoRecord(p: ScrapedProduct, storeName: string, categoryName: string)
  {
    PassesGate(p.name, p.price) && p.name != [] && p.store == storeName && p.category == categoryName
  }

  /** The rule `page.evaluate` runs on each card, with `categoryUrlInPage` the value the
      identifier `categoryUrl` has inside the page. */
  function SilpoRule(storeName: string, categoryName: string, now: Instant,
                     categoryUrlInPage: Option<string>): Card -> CardOutcome
  {
    c => SilpoCardAsWritten(c, storeName, categoryName, now, categoryUrlInPage)
  }

  /** Silpo pushes the evaluated records unchanged. */
  function Unchanged(products: seq<ScrapedProduct>): seq<ScrapedProduct> { products }

  /** What `scrapeSilpoCategory(categoryUrl, categoryName)` settles to; the category URL
      reaches the cards only through `categoryUrlInPage`. */
  function SilpoOutcome(config: SiteConfig, categoryName: string, page: Page, now: Instant,
                        categoryUrlInPage: Option<string>): (r: ScrapeResult)
    ensures r.Rejected? <==> page.launch.Fails? || page.setup.Fails?
    ensures r.Resolved? && page.evaluation.Cards? ==> |r.products| <= |page.evaluation.cards|
    ensures r.Resolved? && (page.navigation.Fails? || page.readiness.Fails? || page.evaluation.EvaluateFails?) ==>
              r.products == []
  {
    SessionOutcome(page, SilpoRule(config.name, categoryName, now, categoryUrlInPage), Unchanged)
  }

  /** `scrapeSilpoCategory`: resolves the URL, then runs the session with Silpo's card rule. */
  method ScrapeSilpoCategory(pup: Puppeteer, config: SiteConfig, categoryUrl: string,
                             categoryName: string, page: Page, now: Instant,
                             categoryUrlInPage: Option<string>)
      returns (result: ScrapeResult)
    requires pup.Valid()
    modifies pup
    ensures pup.Valid()
    ensures result == SilpoOutcome(config, categoryName, page, now, categoryUrlInPage)
    ensures result.Resolved? ==> forall p :: p in result.products ==> SilpoRecord(p, config.name, categoryName)
    ensures pup.launches == old(pup.launches) + (if page.launch.Ok? then 1 else 0)
    ensures pup.closes == old(pup.closes) + (if page.launch.Ok? && page.setup.Ok? then 1 else 0)
    ensures pup.visited == old(pup.visited) +
              (if page.launch.Ok? && page.setup.Ok? then [ResolveUrl(config.baseUrl, categoryUrl)] else [])
  {
    var fullCategoryUrl := ResolveUrl(config.baseUrl, categoryUrl);
    result := ScrapeWithSession(pup, fullCategoryUrl, page, SilpoRule(config.name, categoryName, now, categoryUrlInPage), Unchanged);
    SilpoOutcomeValid(config, categoryName, page, now, categoryUrlInPage);
  }

  /** The promise rejects only when launch or setup fails; a navigation or readiness
      failure resolves to `[]`; every resolved record passes the gate, carries the
      configured store and the given category, and there are no more records than cards.
      When the page defines no `categoryUrl`, every record also has a non-empty product URL. */
  lemma SilpoOutcomeValid(config: SiteConfig, categoryName: string, page: Page, now: Instant,
                          categoryUrlInPage: Option<string>)
    ensures var r := SilpoOutcome(config, categoryName, page, now, categoryUrlInPage);
      && (r.Rejected? <==> page.launch.Fails? || page.setup.Fails?)
      && (r.Resolved? && (page.navigation.Fails? || page.readiness.Fails?) ==> r.products == [])
      && (r.Resolved? ==> forall p :: p in r.products ==> SilpoRecord(p, config.name, categoryName))
      && (r.Resolved? && categoryUrlInPage.None? ==> forall p :: p in r.products ==> p.productUrl != [])
      && (r.Resolved? && page.evaluation.Cards? ==> |r.products| <= |page.evaluation.cards|)
  {
    var rule := SilpoRule(config.name, categoryName, now, categoryUrlInPage);
    if page.evaluation.Cards? {
      Extraction.CollectKeeps(page.evaluation.cards, rule, p => SilpoRecord(p, config.name, categoryName));
      if categoryUrlInPage.None? {
        Extraction.CollectKeeps(page.evaluation.cards, rule, (p: ScrapedProduct) => p.productUrl != []);
      }
    }
  }

  /** As written and as intended, a card's outcome differs exactly when it reaches the
      fallback and the page defines no `categoryUrl`. */
  lemma AsWrittenDiffersOnlyOnLinkless(card: Card, storeName: string, categoryName: string,
                                       categoryUrl: string, now: Instant)
    ensures SilpoCardAsWritten(card, storeName, categoryName, now, None)
              != SilpoCard(card, storeName, categoryName, categoryUrl, now)
            <==> LinklessPass(card)
  {
  }

  /** On a page without a card that reaches the fallback, the scrape settles to the same
      value as written and as intended. */
  lemma AsWrittenOutcomeAgrees(config: SiteConfig, categoryName: string, categoryUrl: string,
                               page: Page, now: Instant)
    requires page.evaluation.Cards? ==> forall c :: c in page.evaluation.cards ==> !LinklessPass(c)
    ensures SilpoOutcome(config, categoryName, page, now, None)
              == SilpoOutcome(config, categoryName, page, now, Some(categoryUrl))
  {
    if page.evaluation.Cards? {
      var written := SilpoRule(config.name, categoryName, now, None);
      var intended := SilpoRule(config.name, categoryName, now, Some(categoryUrl));
      forall c | c in page.evaluation.cards ensures written(c) == intended(c) {
        AsWrittenDiffersOnlyOnLinkless(c, config.name, categoryName, categoryUrl, now);
      }
      Extraction.CollectCongruent(page.evaluation.cards, written, intended);
    }
  }

  /** A card that passes the gate but has no link loses its record as written (the
      identifier `categoryUrl` is unbound in the page, and the ReferenceError is caught by
      the per-card `catch`), while the intended rule keeps it with the category URL. */
  lemma LinklessCardLostAsWritten(storeName: string, categoryName: string, categoryUrl: string, now: Instant)
    ensures var card := Card(None, Some(SamplePriceText), None, None, None, false);
      && SilpoCardAsWritten(card, storeName, categoryName, now, None) == Threw
      && SilpoCard(card, storeName, categoryName, categoryUrl, now).Emit?
      && SilpoCard(card, storeName, categoryName, categoryUrl, now).product.productUrl == categoryUrl
  {
    SamplePrice();
  }

  /** For every card that passes the gate without a usable link: as written its record is
      lost whenever the page defines no `categoryUrl`, and the intended rule emits it with
      the category URL. */
  lemma LinklessCardFallback(card: Card, storeName: string, categoryName: string, categoryUrl: string, now: Instant)
    requires LinklessPass(card)
    ensures SilpoCardAsWritten(card, storeName, categoryName, now, None) == Threw
    ensures SilpoCard(card, storeName, categoryName, categoryUrl, now).Emit?
    ensures SilpoCard(card, storeName, categoryName, categoryUrl, now).product.productUrl == categoryUrl
  {
  }

  /** With the intended rule every emitted record has a product URL: the link, or the
      category URL, which is never empty for a scraped category. */
  lemma SilpoProductUrlNonEmpty(card: Card, storeName: string, categoryName: string, categoryUrl: string, now: Instant)
    requires categoryUrl != []
    requires SilpoCard(card, storeName, categoryName, categoryUrl, now).Emit?
    ensures SilpoCard(card, storeName, categoryName, categoryUrl, now).product.productUrl != []
  {
  }

  /** A missing or blank name becomes "Unknown Product", which passes the gate; an old
      price is never validated, so a record can carry a NaN old price. This holds for the
      rule the scraper runs, and equally for the intended one. */
  lemma UnknownNameAndNaNOldPrice(storeName: string, categoryName: string, categoryUrl: string, now: Instant)
    ensures var card := Card(None, Some(SamplePriceText), Some("-"), None, Some("https://silpo.ua/product/1"), false);
      var r := SilpoCardAsWritten(card, storeName, categoryName, now, None);
      && r.Emit? && r.product.name == UnknownName && r.product.oldPrice == Some(NaN)
    ensures var card := Card(None, Some(SamplePriceText), Some("-"), None, Some("https://silpo.ua/product/1"), false);
      var r := SilpoCard(card, storeName, categoryName, categoryUrl, now);
      && r.Emit? && r.product.name == UnknownName && r.product.oldPrice == Some(NaN)
  {
    var card := Card(None, Some(SamplePriceText), Some("-"), None, Some("https://silpo.ua/product/1"), false);
    SamplePrice();
    DashOldPrice();
    assert NameOf(card.nameText) == UnknownName;
    assert Linked(card);
  }
}
