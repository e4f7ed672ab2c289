/** One category scrape's browser session, shared by both scrapers: launch, page setup
    (outside the `try`), then `try { goto; waitForSelector; evaluate; push } catch { log }
    finally { browser.close() }`. The browser itself is abstract: each awaited call is
    given as the outcome it had. */
module Session {
  import opened Records
  import Extraction

  /** What `page.evaluate` gave back: the page's product cards, or a rejection. */
  datatype Evaluation = Cards(cards: seq<Card>) | EvaluateFails

  /** Outcomes of the awaited browser calls of one scrape, in the order they are made.
      `setup` covers `newPage`, `setUserAgent`, `setViewport` and `setRequestInterception`. */
  datatype Page = Page(launch: Step, setup: Step, navigation: Step, readiness: Step, evaluation: Evaluation)

  /** The promise a scraper returns: resolved with its products, or rejected. */
  datatype ScrapeResult = Resolved(products: seq<ScrapedProduct>) | Rejected

  /** How control leaves the outer `try` block. */
  datatype TryExit = Completed | EarlyReturn | Caught

  /** The browser launcher. `open` counts browsers launched and not closed; the ghost
      counters record every launch and close, and `visited` every navigation. */
  class Puppeteer {
    var open: nat
    ghost var launches: nat
    ghost var closes: nat
    ghost var visited: seq<string>

    ghost predicate Valid()
      reads this
    {
      closes <= launches && open == launches - closes
    }

    constructor ()
      ensures Valid() && open == 0 && launches == 0 && closes == 0 && visited == []
    {
      open, launches, closes, visited := 0, 0, 0, [];
    }

    /** `puppeteer.launch(...)` when it succeeds. */
    method Launch()
      requires Valid()
      modifies this
      ensures Valid()
      ensures launches == old(launches) + 1 && closes == old(closes) && visited == old(visited)
    {
      open, launches := open + 1, launches + 1;
    }

    /** `page.goto(url, ...)`: the navigation is attempted whatever its outcome. */
    method Goto(url: string)
      modifies this
      ensures visited == old(visited) + [url]
      ensures open == old(open) && launches == old(launches) && closes == old(closes)
    {
      visited := visited + [url];
    }

    /** `browser.close()` */
    method Close()
      requires Valid() && open > 0
      modifies this
      ensures Valid()
      ensures closes == old(closes) + 1 && launches == old(launches) && visited == old(visited)
    {
      open, closes := open - 1, closes + 1;
    }
  }

  /** The value a scrape's promise settles to. */
  function SessionOutcome(page: Page, rule: Card -> CardOutcome,
                          post: seq<ScrapedProduct> -> seq<ScrapedProduct>): (r: ScrapeResult)
    ensures r.Rejected? <==> page.launch.Fails? || page.setup.Fails?
    ensures r.Resolved? && r.products != [] ==>
              page.navigation.Ok? && page.readiness.Ok? && page.evaluation.Cards?
  {
    if page.launch.Fails? || page.setup.Fails? then Rejected
    else if page.navigation.Fails? || page.readiness.Fails? then Resolved([])
    else match page.evaluation
      case EvaluateFails => Resolved([])
      case Cards(cards) => Resolved(post(Extraction.Collect(cards, rule)))
  }

  /** A session whose setup succeeded is closed exactly once, on every way out of the
      `try` (completion, the early `return []` after a readiness timeout, a caught error);
      a setup failure rejects before the `try` and leaves the browser open. */
  method ScrapeWithSession(pup: Puppeteer, url: string, page: Page, rule: Card -> CardOutcome,
                           post: seq<ScrapedProduct> -> seq<ScrapedProduct>)
      returns (result: ScrapeResult)
    requires pup.Valid()
    modifies pup
    ensures pup.Valid()
    ensures result == SessionOutcome(page, rule, post)
    ensures pup.launches == old(pup.launches) + (if page.launch.Ok? then 1 else 0)
    ensures pup.closes == old(pup.closes) + (if page.launch.Ok? && page.setup.Ok? then 1 else 0)
    ensures pup.visited == old(pup.visited) + (if page.launch.Ok? && page.setup.Ok? then [url] else [])
  {
    if page.launch.Fails? {
      return Rejected;
    }
    pup.Launch();
    if page.setup.Fails? {
      return Rejected;
    }
    var products: seq<ScrapedProduct> := [];
    var exit: TryExit;
    // try
    pup.Goto(url);
    if page.navigation.Fails? {
      exit := Caught;
    } else if page.readiness.Fails? {
      exit := EarlyReturn;
    } else {
      match page.evaluation {
        case EvaluateFails =>
          exit := Caught;
        case Cards(cards) =>
          var extracted := Extraction.CollectCards(cards, rule);
          products := products + post(extracted);
          exit := Completed;
      }
    }
    // finally
    pup.Close();
    if exit == EarlyReturn {
      return Resolved([]);
    }
    return Resolved(products);
  }
}
