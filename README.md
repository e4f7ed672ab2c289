# ScanSave scraper core in Dafny

This project models the scraping pipeline of the ScanSave scraper (kuwkuw/scansave-scraper).
It covers:

- `scrapeSilpoCategory` (src/scrapers/silpoScraper.ts);
- `buildCategoryUrl` and `scrapeAtbCategory` (src/scrapers/atbScraper.ts);
- the orchestrating `runAllScrapers` loop (src/index.ts);
- the database sink `saveProductsToDatabase` (src/db/products.ts).

The browser, the DOM and the database are abstract. Each awaited call into them is given
as the outcome it had: a `Step` that is `Ok` or `Fails`. A product card is given as the
optional texts its sub-elements hold.

Files and modules:

- `records.dfy` (`Records`): the `ScrapedProduct` record and the card payload. Also
  `Num`, which models a JavaScript number from `parseFloat` as NaN or the exact decimal
  `mantissa / 10^scale`.
- `js_text.dfy` (`JsText`): `String.prototype.trim` over the ECMA-262 white space set,
  and `startsWith`.
- `web.dfy` (`Web`): the `"http"`-prefix URL rule and the request-interception predicate.
- `price_text.dfy` (`PriceText`): the price-cleaning chain `replace(/[^\d.,]/g, '')`, then
  `replace(',', '.')`, then `parseFloat`. `parseFloat` reads the longest decimal-literal
  prefix (section 19.2.4 of ECMA-262).
- `card_fields.dfy` (`CardFields`): the name default, the price and old-price readings,
  and the validation gate.
- `extraction.dfy` (`Extraction`): the in-page `forEach` with its per-card `try`/`catch`.
  It has a specification function and a loop proved against it.
- `session.dfy` (`Session`): the browser lifecycle. This is launch and page setup outside
  the `try`, then `goto`, the readiness wait with its early `return []`, `evaluate`, and
  `close` in `finally`. A `Puppeteer` class counts launches, closes and open browsers.
- `silpo.dfy` and `atb.dfy`: the two site scrapers and their field rules.
- `products.dfy` (`ProductsDb`): the record-to-entity mapping and a `Database` class whose
  rows and connection state the save updates in place.
- `orchestrator.dfy` (`Orchestrator`): the sequential category loop. It resolves each
  category URL, calls the scraper, and saves a batch only when it is non-empty. Errors
  are caught per category, plus an outer `catch` around the whole loop.

Where the code differs from what a reader might expect, the model follows the code:

- A missing or blank name becomes `"Unknown Product"` and passes the gate. The gate only
  rejects the placeholder `"N/A"`, not an empty name.
- `oldPrice` goes through the same parse as `price` but is never validated, so a record
  can carry a NaN old price.
- No skipped-card count exists anywhere in the code, so none is modelled.
- Page setup (`newPage` … `setRequestInterception`) runs before the `try`. A failure
  there rejects the scrape without closing the browser. So `close` runs on every way out
  of the `try`, not on every way out of the scrape.
- The sink is one `productRepo.save` call on the whole batch. A failed save is caught
  and writes no rows. There is no per-record outcome.
- A category key without a configured path is not skipped. `categoryPath.startsWith`
  throws outside the per-category `try`, and the outer `catch` ends the whole loop.
- Silpo stamps `lastUpdated` with a `Date`, although the record type declares an ISO
  string. ATB stamps an ISO string.
- Silpo's fallback `productUrl || categoryUrl` runs inside the page, where the scraper's
  `categoryUrl` argument is not in scope. The scraper and the orchestrator use this rule
  as written: a card that passes the gate without a usable link throws a ReferenceError,
  the per-card `catch` swallows it, and the card yields no record (see "## Findings").

## Model

| member | source | states |
|---|---|---|
| JsText.Trim | src/scrapers/silpoScraper.ts:83 | the trimmed text neither starts nor ends with ECMA-262 white space |
| JsText.TrimSplits | src/scrapers/silpoScraper.ts:87 | `trim` cuts a string into white space, the result, and white space; the result is the contiguous middle piece |
| JsText.TrimIdempotent | src/scrapers/atbScraper.ts:71 | trimming a trimmed text changes nothing |
| Web.ResolveUrl | src/scrapers/silpoScraper.ts:17 | a path starting with "http" is returned unchanged; otherwise the result is the base URL followed by the path; the path always ends the result |
| Web.ResolvedIsAbsolute | src/scrapers/silpoScraper.ts:17 | with an absolute base URL every resolved URL starts with "http" |
| Web.ResolveUrlIdempotent | src/index.ts:31-32 | resolving the orchestrator's already resolved URL again in the scraper gives the same URL |
| Web.FilterRequest | src/scrapers/silpoScraper.ts:36-43 | a request is aborted exactly when its resource type is one of the blocked types |
| Web.FilterBlocksExactlyFour | src/scrapers/atbScraper.ts:38-45 | the aborted types are exactly image, stylesheet, font and media; document, script, xhr, fetch, websocket and other requests continue |
| PriceText.StripNonPrice | src/scrapers/silpoScraper.ts:89 | the cleaned text holds only digits, `.` and `,` and is no longer than the input |
| PriceText.StripAppend | src/scrapers/silpoScraper.ts:89 | cleaning works character by character, so the kept characters stay in their original order |
| PriceText.StripCleaned | src/scrapers/silpoScraper.ts:89 | clean text is left unchanged |
| PriceText.StripIdempotent | src/scrapers/silpoScraper.ts:89 | cleaning twice is cleaning once |
| PriceText.StripIgnoresTrim | src/scrapers/silpoScraper.ts:87-89 | cleaning the trimmed text equals cleaning the raw text |
| PriceText.ReplaceFirstComma | src/scrapers/silpoScraper.ts:89 | same length; the first comma becomes `.`, and every other character, later commas included, is unchanged |
| PriceText.NoCommaUnchanged | src/scrapers/silpoScraper.ts:89 | text without a comma is unchanged by the replacement |
| PriceText.ReplaceCommaAfter | src/scrapers/silpoScraper.ts:89 | in `a,b` with no comma in `a`, that comma is the one replaced and `b` is untouched |
| PriceText.ReplaceKeepsClean | src/scrapers/silpoScraper.ts:89 | replacing the first comma keeps text clean |
| PriceText.LiteralPrefix | src/scrapers/silpoScraper.ts:89 | the text `parseFloat` reads is a prefix of its input |
| PriceText.LiteralPrefixLongest | src/scrapers/silpoScraper.ts:89 | the text `parseFloat` reads is digits with at most one point, and no longer prefix of the input has that shape |
| PriceText.ParseFloat | src/scrapers/silpoScraper.ts:89 | the scale of a parsed number is the number of fraction digits read |
| PriceText.ParseFloatInt | src/scrapers/silpoScraper.ts:89 | digits followed by neither a digit nor a point parse as that integer, with scale 0 |
| PriceText.ParseFloatLeadingPoint | src/scrapers/silpoScraper.ts:89 | `.fp` followed by a non-digit parses as the fraction digits over 10 to the power of their count |
| PriceText.IntegerPrice | src/scrapers/silpoScraper.ts:89 | a whole-unit price followed by dropped characters (`199 грн`) parses as its digits with scale 0 |
| PriceText.ParseFloatOf | src/scrapers/silpoScraper.ts:89 | `ip.fp` followed by a non-digit parses as the decimal with the digits of `ip` and `fp` and the length of `fp` as scale |
| PriceText.DecimalCommaPrice | src/scrapers/silpoScraper.ts:89 | a price `ip,fp` followed by dropped characters (spaces, a currency sign) parses as `ip.fp` |
| PriceText.DroppedCharIgnored | src/scrapers/silpoScraper.ts:89 | taking out a character that the cleaning drops never changes the parsed price |
| PriceText.SpaceGroupedPrice | src/scrapers/silpoScraper.ts:89 | a space-grouped price `g ip,fp` parses with all its digits as mantissa and the length of `fp` as scale |
| PriceText.CommaThenPoint | src/scrapers/silpoScraper.ts:89 | in `a,b.c` the comma is read as the decimal point and the real point ends the number |
| PriceText.ParsePrice | src/scrapers/silpoScraper.ts:89 | text without any digit parses as NaN, whatever points and commas it holds |
| PriceText.DigitsValuePositive | src/scrapers/silpoScraper.ts:89 | a digit string has a positive value exactly when one of its digits is not 0 |
| PriceText.LiteralDigits | src/scrapers/silpoScraper.ts:89 | by position, the literal prefix is the integer digits, then, when there is a point, the point and the fraction digits; so its digit characters are exactly those of the two parts |
| PriceText.ParseFloatNaN | src/scrapers/silpoScraper.ts:89 | `parseFloat` of cleaned text is NaN exactly when its literal prefix holds no digit |
| PriceText.ParseFloatPositive | src/scrapers/silpoScraper.ts:102 | `parseFloat` of cleaned text is positive exactly when its literal prefix holds a digit other than 0 |
| PriceText.ParsePriceIgnoresTrim | src/scrapers/atbScraper.ts:74-75 | the trim before the cleaning never changes the parsed price |
| CardFields.NameOf | src/scrapers/silpoScraper.ts:83 | the name is never empty: the trimmed text, or "Unknown Product" when the element is absent or its trimmed text is empty |
| CardFields.PriceOf | src/scrapers/silpoScraper.ts:85-90 | without a price element the price is 0, which is not positive; with one it is the parse of the element's raw text, the trim making no difference |
| CardFields.OldPriceOf | src/scrapers/silpoScraper.ts:92-96 | there is an old price exactly when there is an old-price element, and it is the parse of that element's raw text |
| CardFields.GateMeansPositiveValue | src/scrapers/silpoScraper.ts:102 | `PassesGate`: a record passes exactly when its name is not "N/A" and its price is a number whose value is above zero |
| CardFields.MissingPriceFails | src/scrapers/silpoScraper.ts:85-90 | without a price element the price stays 0 and the card fails the gate |
| CardFields.GateOnPriceText | src/scrapers/silpoScraper.ts:102 | a card with a price passes the gate exactly when its name is not "N/A" and its cleaned literal prefix holds a nonzero digit |
| CardFields.SamplePrice | src/scrapers/silpoScraper.ts:85-90 | the price text "199,00 ₴" reads as 199 and passes the gate under the default name |
| CardFields.DashOldPrice | src/scrapers/silpoScraper.ts:92-96 | an old-price element reading "-" gives a NaN old price |
| CardFields.PriceExampleDecimalComma | src/scrapers/silpoScraper.ts:89 | "199,00 ₴" parses as exactly 199.0 |
| CardFields.PriceExampleNoDigits | src/scrapers/silpoScraper.ts:89 | "", "-" and ".." parse as NaN |
| CardFields.ThousandsCommaReadAsDecimal | src/scrapers/silpoScraper.ts:89 | "1,299.50" parses as 1.299: a thousands comma is read as the decimal point |
| Extraction.Collect | src/scrapers/silpoScraper.ts:73-118 | the loop pushes at most one record per card |
| Extraction.CollectCards | src/scrapers/silpoScraper.ts:68-119 | the `forEach` pushing into `scrapedItems` computes exactly `Collect` |
| Extraction.CollectAppend | src/scrapers/silpoScraper.ts:73-118 | the loop is a left-to-right fold: cards split anywhere contribute their records independently and in order |
| Extraction.ThrowingCardIsolated | src/scrapers/silpoScraper.ts:114-117 | a card whose `try` throws contributes nothing, and the cards before and after it are still processed |
| Extraction.EmittingIndices | src/scrapers/silpoScraper.ts:73-118 | the positions of the emitting cards, strictly increasing, each one giving the record at the same output position, and every emitting card listed |
| Extraction.CollectIsEmittingSubsequence | src/scrapers/silpoScraper.ts:71-73 | the output is an order-preserving subsequence of the cards: exactly the records of the emitting cards, no longer than the card list |
| Extraction.CollectFrom | src/scrapers/silpoScraper.ts:103-112 | every record in the batch was emitted by some card of the page |
| Extraction.CollectCongruent | src/scrapers/silpoScraper.ts:73-118 | two per-card rules that agree on every card of a page collect the same records |
| Extraction.CollectKeeps | src/scrapers/silpoScraper.ts:102-112 | a property of every record the rule can emit holds of every record in the batch |
| Session.Puppeteer.Launch | src/scrapers/silpoScraper.ts:20-30 | a launch opens one browser and records it |
| Session.Puppeteer.Goto | src/scrapers/silpoScraper.ts:50 | a navigation is recorded whatever its outcome |
| Session.Puppeteer.Close | src/scrapers/silpoScraper.ts:151 | a close closes one open browser and records it |
| Session.SessionOutcome | src/scrapers/silpoScraper.ts:47-61 | the scrape rejects exactly when launch or page setup fails; a non-empty batch needs navigation, readiness and evaluation all to succeed |
| Session.ScrapeWithSession | src/scrapers/silpoScraper.ts:147-154 | the result is `SessionOutcome`; a session whose setup succeeded navigates once and is closed exactly once on every way out of the `try`; a setup failure leaves the browser open |
| SilpoScraper.SilpoCardAsWritten | src/scrapers/silpoScraper.ts:74-117 | a card throws exactly when reading it throws or it passes the gate without a usable link while the page defines no `categoryUrl`; it emits exactly when it passes the gate and has a link or such a definition; the record holds the trimmed name, parsed price and old price, image, store, category, a `Date` stamp, and the link or else the page's `categoryUrl` |
| SilpoScraper.SilpoCard | src/scrapers/silpoScraper.ts:111 | the intended rule: a card throws exactly when reading it throws and emits exactly when it passes the gate; the product URL is the link or else the scraper's category URL |
| SilpoScraper.SilpoOutcome | src/scrapers/silpoScraper.ts:47-122 | the scrape rejects exactly when launch or page setup fails; a navigation, readiness or evaluation failure resolves to []; no more records than cards |
| SilpoScraper.ScrapeSilpoCategory | src/scrapers/silpoScraper.ts:15-155 | settles to `SilpoOutcome` with the card rule as written; every resolved record is a valid Silpo record; launches, closes and navigations as the session rule states, the navigation to the resolved URL |
| SilpoScraper.SilpoOutcomeValid | src/scrapers/silpoScraper.ts:102-112 | rejects exactly when launch or setup fails; a navigation or readiness failure resolves to []; every record passes the gate with the configured store and the given category; when the page defines no `categoryUrl` every record has a non-empty product URL; no more records than cards |
| SilpoScraper.AsWrittenDiffersOnlyOnLinkless | src/scrapers/silpoScraper.ts:111 | a card's outcome as written (no `categoryUrl` in the page) differs from the intended one exactly when the card passes the gate without a usable link |
| SilpoScraper.AsWrittenOutcomeAgrees | src/scrapers/silpoScraper.ts:67-122 | on a page without such a card the scrape settles to the same value as written and as intended |
| SilpoScraper.LinklessCardLostAsWritten | src/scrapers/silpoScraper.ts:111 | a gate-passing card without a link is lost as written and kept with the category URL by the intended rule |
| SilpoScraper.LinklessCardFallback | src/scrapers/silpoScraper.ts:99-111 | for every gate-passing card without a usable link: lost as written, emitted with the category URL by the intended rule |
| SilpoScraper.SilpoProductUrlNonEmpty | src/scrapers/silpoScraper.ts:111 | with the intended rule and a non-empty category URL every emitted record has a product URL |
| SilpoScraper.UnknownNameAndNaNOldPrice | src/scrapers/silpoScraper.ts:92-96 | under the rule the scraper runs (and the intended one), a linked nameless card with a valid price is emitted as "Unknown Product", and its "-" old price is kept as NaN |
| AtbScraper.BuildCategoryUrl | src/scrapers/atbScraper.ts:5-10 | an "http" path is returned unchanged, any other path is prefixed with https://www.atbmarket.com; the result always starts with "http" |
| AtbScraper.PageCategoryUrl | src/scrapers/atbScraper.ts:98 | the category URL stamped in the page is `categoryPath` when it is non-empty, else the `categoryUrl` argument |
| AtbScraper.AtbCard | src/scrapers/atbScraper.ts:65-95 | throws exactly when reading throws, emits exactly when the gate passes; no old price, store "ATB", an ISO stamp, the stamped category URL, and the link or else "" as product URL |
| AtbScraper.IsoLastUpdated | src/scrapers/atbScraper.ts:102 | the post-map on one record yields an ISO stamp at the same instant and changes nothing else |
| AtbScraper.NormalizeLastUpdated | src/scrapers/atbScraper.ts:100-103 | the post-map keeps length and order and maps each record on its own |
| AtbScraper.NormalizeLastUpdatedIdempotent | src/scrapers/atbScraper.ts:100-103 | records that already carry ISO strings are unchanged, so the post-map is idempotent |
| AtbScraper.AtbPostMapIsIdentity | src/scrapers/atbScraper.ts:86 | every record the page emits already has an ISO string, so on ATB the post-map changes nothing |
| AtbScraper.AtbOutcome | src/scrapers/atbScraper.ts:61-113 | the scrape rejects exactly when launch or page setup fails; a navigation, readiness or evaluation failure resolves to []; otherwise the batch is the records the cards emit, the post-map changing nothing |
| AtbScraper.ScrapeAtbCategory | src/scrapers/atbScraper.ts:19-114 | settles to `AtbOutcome`; every resolved record is a valid ATB record; launches, closes and the navigation to `buildCategoryUrl(categoryUrl)` as the session rule states |
| AtbScraper.AtbOutcomeValid | src/scrapers/atbScraper.ts:107-113 | rejects exactly when launch or setup fails; a navigation or readiness failure resolves to []; every record passes the gate, is stamped "ATB" with the category and its category URL and has no old price; no more records than cards |
| ProductsDb.ToEntity | src/db/products.ts:18-27 | the entity carries no category URL and the record's capture instant |
| ProductsDb.ToEntities | src/db/products.ts:18-27 | one entity per product, in input order |
| ProductsDb.ToEntityKernel | src/db/products.ts:19-26 | two records give the same entity exactly when they agree on everything but the category URL and the kind of timestamp |
| ProductsDb.EntityRoundTrip | src/db/products.ts:25 | every entity without a category URL is recovered from its record; a record comes back from its entity up to the category URL and the kind of timestamp |
| ProductsDb.Connects | src/db/products.ts:15 | an existing connection is reused; without one, a connection is had exactly when creating it succeeds |
| ProductsDb.SaveOutcome | src/db/products.ts:15 | the call rejects exactly when the batch is non-empty, no connection exists and creating one fails |
| ProductsDb.StoredRows | src/db/products.ts:28-36 | a call adds all of the batch's entities or none; it adds rows exactly when the batch is non-empty, a connection is had and the save succeeds |
| ProductsDb.SaveProductsToDatabase | src/db/products.ts:7-37 | settles to `SaveOutcome`; the rows grow by `StoredRows`; a connection exists afterwards when one was made; at most one save call, none for an empty batch |
| ProductsDb.EmptyBatchIsNoOp | src/db/products.ts:10-13 | an empty batch resolves without writing anything |
| ProductsDb.ConnectedSaveStoresBatch | src/db/products.ts:15-29 | once connected, a successful save resolves and stores one row per product, in order, with its name and capture instant |
| Orchestrator.CategoryUrl | src/index.ts:31-32 | the category URL ends with the configured path, and it is absolute whenever the base URL is |
| Orchestrator.CategoryStep | src/index.ts:31-32 | an iteration aborts the loop exactly when the category key has no configured path |
| Orchestrator.CategoryStepSink | src/index.ts:39-57 | the sink is called exactly when the scrape resolved with a non-empty batch, with that batch and the connection state earlier iterations left; a rejected scrape is caught and leaks a browser exactly when launch succeeded and setup failed |
| Orchestrator.RunOutcomes | src/index.ts:30 | the loop yields at most one outcome per category |
| Orchestrator.RunStopsOnlyAtMissingKey | src/index.ts:59-61 | the run continues past every configured category and stops early only at the first missing key, where it aborts |
| Orchestrator.RunCategory | src/index.ts:31-57 | one iteration yields `CategoryStep`'s outcome (the Silpo rule as written, no `categoryUrl` in the page) and stores that outcome's rows; it calls `save` exactly when the batch found a connection, is connected afterwards exactly when it was before or that save was reached, launches a browser exactly when the key is configured and the launch succeeds, closes it and navigates to the resolved category URL exactly when setup succeeds too, and leaks a browser only as the outcome says |
| Orchestrator.RunAllScrapers | src/index.ts:13-64 | the loop yields `RunOutcomes` in category order; over the categories it processed, the database gains exactly the rows of the saved batches in order, one `save` call per batch that found a connection, and ends connected exactly when it started connected or some save was reached; the browser counts one launch per configured category whose launch succeeded, one close and one navigation (in order) per category past setup, and the open count grows by the leaks (`Accounted`) |
| Orchestrator.NoLeaksWhenSetupSucceeds | src/index.ts:39-57 | when every launch and page setup succeeds, the run leaves no browser open |
| Orchestrator.StoredOnlyFromBatches | src/index.ts:48-54 | every stored row comes from a batch handed to the sink; a run without a sink call stores nothing |
| Orchestrator.DefaultRunProcessesOneCategory | src/index.ts:24-30 | the default category list yields exactly one outcome, which aborts exactly when "dairy_eggs" has no configured path |

## Findings

| source | as written | input that shows it | evidently intended | confidence | as-written member | corrected member |
|---|---|---|---|---|---|---|
| src/scrapers/silpoScraper.ts:111 | `productUrl \|\| categoryUrl` runs inside `page.evaluate`, whose function receives only `selectors`, `storeName` and `currentCategoryName` (line 120); `categoryUrl` is unbound in the page, so a card without a link throws a ReferenceError, the per-card `catch` swallows it, and the card is lost | a card with no name, price text "199,00 ₴" and no link element | the record is emitted with the category URL as product URL | not executed | SilpoScraper.LinklessCardLostAsWritten | SilpoScraper.LinklessCardFallback |

`SilpoScraper.SilpoCardAsWritten` models the line as written. Its `categoryUrlInPage`
parameter says what the identifier denotes in the page. The scraper and the orchestrator
use this rule, with no `categoryUrl` defined in the page. `SilpoScraper.SilpoCard` is the
corrected rule: it binds the identifier to the scraper's argument.
`SilpoScraper.AsWrittenDiffersOnlyOnLinkless` and `SilpoScraper.AsWrittenOutcomeAgrees`
state where the two disagree.

## Left out

- The browser (launch options, `newPage`, `setUserAgent`, `setViewport`, `goto`, `waitForSelector`, `evaluate`) is external. Each call's outcome is a parameter (`Session.Page`).
- DOM querying (`querySelectorAll`, `querySelector`, `textContent`, `.src`, `.href`) is external. A card is the texts it yields (`Records.Card`). A card whose reading throws is a flag. A `null` `textContent` is folded into the empty text.
- The request handler is modelled as a decision on the resource type. Registering it with `page.on` is not modelled.
- PriceText.ParseFloat: IEEE-754 rounding, overflow to `Infinity`, and signs and exponents are not modelled. The value is the exact decimal of the digits read. It is only applied to cleaned text (digits, `.`, `,`), which is all the call sites pass.
- Clocks: `new Date()` is one `Instant` per scrape. The per-card clock reads inside `evaluate` collapse into it. `toISOString` is modelled as a change of kind at the same instant, and its string format is not.
- The value `page.evaluate` returns is taken to be the in-page value itself. Puppeteer's serialization of that value (a `Date`, a NaN or an `undefined` field crossing to Node) is not modelled.
- Logging (`console.log`, `warn`, `error`, the banners, the sample-record dump) is not modelled.
- The commented-out pagination in silpoScraper.ts is not modelled. Only the first page is scraped.
- `SUPERMARKET_CONFIGS` is commented out in config.ts although both the Silpo scraper and index.ts import it. The site name, base URL and category paths are therefore parameters (`SilpoScraper.SiteConfig`, `Orchestrator.RunConfig`). The selectors only locate card elements and are folded into the card payload.
- A failure of `browser.close()` itself is not modelled. `close` always succeeds.
- The ATB scraper is not called from index.ts, so it is modelled on its own. It imports `saveProductsToDatabase` but never calls it.
- src/db/connection.ts is reduced to whether a connection exists and whether creating one succeeds. The connection options, environment defaults and the TypeORM library are not modelled.
- `getRepository` and `productRepo.create` are taken as always succeeding. The generated `id` column is not modelled.
- A failed `productRepo.save` of an array is modelled as writing no rows, since TypeORM saves an array in one transaction.
- The mock sink in src/api/products.ts and the entity in src/api/product.entity.ts are not part of this model.
- `runAllScrapers().catch(...)` with `process.exit(1)` is not modelled. Every error inside `runAllScrapers` is caught by its outer `try`, so the returned promise never rejects and the exit is unreachable.
- The value the identifier `categoryUrl` has inside the Silpo page is a parameter of the scraper (`categoryUrlInPage`). The orchestrator passes `None`: the page is not known to define a global of that name.
- Orchestrator.RunOutcomes: the environment of each category (page outcomes, database outcomes, clock) is given as a sequence as long as the category list.
- Orchestrator.CategoryStep: its own contract states only when an iteration aborts the loop. Orchestrator.CategoryStepSink states the rest of its behaviour.
