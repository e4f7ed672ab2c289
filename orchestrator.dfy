/** `runAllScrapers` (src/index.ts): for each category to scrape, look up its path in the
    Silpo configuration, resolve it, scrape it, and hand a non-empty batch to the database. */
module Orchestrator {
  import opened Records
  import opened JsText
  import opened Web
  import opened Session
  import opened SilpoScraper
  import opened ProductsDb

  /** One entry of `categoriesToScrape`: its key in the configuration and its display name. */
  datatype Category = Category(key: string, displayName: string)

  /** The Silpo entry of the supermarket configuration: the site, and each category key's
      path (relative or absolute). */
  datatype RunConfig = RunConfig(site: SiteConfig, categories: map<string, string>)

  /** The entries of `categoriesToScrape`, in `Object.entries` order. */
  const CategoriesToScrape: seq<Category> := [Category("dairy_eggs", "Dairy & Eggs")]

  /** What the browser, the database and the clock do while one category is processed. */
  datatype CategoryEnv = CategoryEnv(page: Page, db: DbEnv, now: Instant)

  /** How one iteration of the category loop ends.
      `SinkCalled`: the scrape resolved with a non-empty batch, which was handed to
      `saveProductsToDatabase`; `result` is how that call settled and `stored` the rows
      it added. `NoProducts`: the scrape resolved with an empty batch. `ScrapeFailed`:
      the scrape rejected (caught by the per-category `catch`); `leaked` says whether a
      browser was left open. `Aborted`: the key has no configured path, so reading
      `startsWith` of `undefined` throws outside the per-category `try`; the outer
      `catch` ends the loop. */
  datatype CategoryOutcome =
    | SinkCalled(batch: seq<ScrapedProduct>, result: SaveResult, stored: seq<ProductEntity>)
    | NoProducts
    | ScrapeFailed(leaked: bool)
    | Aborted

  /** The category URL the loop computes (lines 31-32 of the loop body). */
  function CategoryUrl(config: RunConfig, key: string): (r: string)
    requires key in config.categories
    ensures var path := config.categories[key]; |path| <= |r| && r[|r| - |path|..] == path
    ensures StartsWith(config.site.baseUrl, "http") ==> StartsWith(r, "http")
  {
    var url := ResolveUrl(config.site.baseUrl, config.categories[key]);
    if StartsWith(config.site.baseUrl, "http") then
      ResolvedIsAbsolute(config.site.baseUrl, config.categories[key]);
      url
    else url
  }

  /** One iteration of the loop, given whether a database connection already exists. */
  function CategoryStep(config: RunConfig, cat: Category, env: CategoryEnv, connected: bool): (o: CategoryOutcome)
    ensures o.Aborted? <==> cat.key !in config.categories
  {
    if cat.key !in config.categories then Aborted
    else
      match SilpoOutcome(config.site, cat.displayName, env.page, env.now, None)
      case Rejected => ScrapeFailed(env.page.launch.Ok?)
      case Resolved(products) =>
        if |products| > 0 then
          SinkCalled(products, SaveOutcome(products, connected, env.db), StoredRows(products, connected, env.db))
        else NoProducts
  }

  /** An iteration hands the batch to the database exactly when the scrape resolved with
      at least one record, and the save sees the connection state the earlier iterations
      left; a rejected scrape is caught and leaks a browser exactly when it launched one. */
  lemma CategoryStepSink(config: RunConfig, cat: Category, env: CategoryEnv, connected: bool)
    requires cat.key in config.categories
    ensures var o := CategoryStep(config, cat, env, connected);
      var scraped := SilpoOutcome(config.site, cat.displayName, env.page, env.now, None);
      && (o.SinkCalled? <==> scraped.Resolved? && scraped.products != [])
      && (o.ScrapeFailed? <==> scraped.Rejected?)
      && (o.SinkCalled? ==> o.batch == scraped.products
                            && o.result == SaveOutcome(o.batch, connected, env.db)
                            && o.stored == StoredRows(o.batch, connected, env.db))
      && (o.ScrapeFailed? ==> (o.leaked <==> env.page.launch.Ok? && env.page.setup.Fails?))
  {
  }

  /** Whether a database connection exists after an iteration. */
  function ConnectedAfter(o: CategoryOutcome, connected: bool): bool
  {
    if o.SinkCalled? then o.result.Done? else connected
  }

  /** The outcomes of the whole loop: one per category, up to and including the first
      category whose key is missing. */
  function RunOutcomes(config: RunConfig, cats: seq<Category>, envs: seq<CategoryEnv>, connected: bool): (r: seq<CategoryOutcome>)
    requires |envs| == |cats|
    ensures |r| <= |cats|
    decreases |cats|
  {
    if cats == [] then []
    else
      var o := CategoryStep(config, cats[0], envs[0], connected);
      if o.Aborted? then [o]
      else [o] + RunOutcomes(config, cats[1..], envs[1..], ConnectedAfter(o, connected))
  }

  /** The run goes on past every category whose key is configured, and it stops early only
      at the first category whose key is missing. */
  predicate StopsOnlyAtMissingKey(config: RunConfig, cats: seq<Category>, r: seq<CategoryOutcome>)
    requires |r| <= |cats|
  {
    && (forall i :: 0 <= i < |r| - 1 ==> !r[i].Aborted?)
    && (|r| < |cats| ==> r != [] && r[|r| - 1].Aborted?)
    && (forall i :: 0 <= i < |r| ==> (r[i].Aborted? <==> cats[i].key !in config.categories))
  }

  lemma {:induction false} RunStopsOnlyAtMissingKey(config: RunConfig, cats: seq<Category>, envs: seq<CategoryEnv>, connected: bool)
    requires |envs| == |cats|
    ensures StopsOnlyAtMissingKey(config, cats, RunOutcomes(config, cats, envs, connected))
    decreases |cats|
  {
    if cats != [] {
      var o := CategoryStep(config, cats[0], envs[0], connected);
      RunOutcomesUnfold(config, cats, envs, connected);
      if !o.Aborted? {
        var c := ConnectedAfter(o, connected);
        RunStopsOnlyAtMissingKey(config, cats[1..], envs[1..], c);
        PrependStops(config, cats, o, RunOutcomes(config, cats[1..], envs[1..], c));
      }
    }
  }

  /** A category that goes through, in front of a run that stops only at a missing key. */
  lemma PrependStops(config: RunConfig, cats: seq<Category>, o: CategoryOutcome, rest: seq<CategoryOutcome>)
    requires cats != [] && |rest| <= |cats| - 1
    requires !o.Aborted? && cats[0].key in config.categories
    requires StopsOnlyAtMissingKey(config, cats[1..], rest)
    ensures StopsOnlyAtMissingKey(config, cats, [o] + rest)
  {
    var r := [o] + rest;
    assert forall i :: 1 <= i < |r| ==> r[i] == rest[i - 1] && cats[i] == cats[1..][i - 1];
  }

  /** Rows added over a run, in the order the categories were processed. */
  function Stored(outcomes: seq<CategoryOutcome>): seq<ProductEntity>
  {
    if outcomes == [] then []
    else
      var last := outcomes[|outcomes| - 1];
      Stored(outcomes[..|outcomes| - 1]) + (if last.SinkCalled? then last.stored else [])
  }

  /** Whether an iteration launches a browser: its key is configured and the launch succeeds. */
  predicate LaunchesBrowser(config: RunConfig, cat: Category, env: CategoryEnv)
  {
    cat.key in config.categories && env.page.launch.Ok?
  }

  /** Whether an iteration gets past page setup, so that it navigates and closes its browser. */
  predicate PassesSetup(config: RunConfig, cat: Category, env: CategoryEnv)
  {
    LaunchesBrowser(config, cat, env) && env.page.setup.Ok?
  }

  /** The navigation an iteration makes, if it gets that far: the category URL, which the
      scraper resolves once more against the base URL. */
  function Navigation(config: RunConfig, cat: Category, env: CategoryEnv): seq<string>
  {
    if PassesSetup(config, cat, env) then [ResolveUrl(config.site.baseUrl, CategoryUrl(config, cat.key))] else []
  }

  /** Whether an iteration reaches `repository.save`: a non-empty batch and a connection. */
  predicate CallsSave(o: CategoryOutcome)
  {
    o.SinkCalled? && o.result.Done?
  }

  /** Browsers launched while the given categories were processed. */
  function LaunchCount(config: RunConfig, cats: seq<Category>, envs: seq<CategoryEnv>): nat
    requires |envs| == |cats|
  {
    if cats == [] then 0
    else
      var n := |cats| - 1;
      LaunchCount(config, cats[..n], envs[..n]) + (if LaunchesBrowser(config, cats[n], envs[n]) then 1 else 0)
  }

  /** Browsers closed while the given categories were processed. */
  function CloseCount(config: RunConfig, cats: seq<Category>, envs: seq<CategoryEnv>): nat
    requires |envs| == |cats|
  {
    if cats == [] then 0
    else
      var n := |cats| - 1;
      CloseCount(config, cats[..n], envs[..n]) + (if PassesSetup(config, cats[n], envs[n]) then 1 else 0)
  }

  /** Navigations made while the given categories were processed, in order. */
  function Navigations(config: RunConfig, cats: seq<Category>, envs: seq<CategoryEnv>): seq<string>
    requires |envs| == |cats|
  {
    if cats == [] then []
    else
      var n := |cats| - 1;
      Navigations(config, cats[..n], envs[..n]) + Navigation(config, cats[n], envs[n])
  }

  /** Calls of `repository.save` over a run. */
  function SaveCount(outcomes: seq<CategoryOutcome>): nat
  {
    if outcomes == [] then 0
    else
      var last := outcomes[|outcomes| - 1];
      SaveCount(outcomes[..|outcomes| - 1]) + (if CallsSave(last) then 1 else 0)
  }

  /** Browsers left open over a run. */
  function Leaks(outcomes: seq<CategoryOutcome>): nat
  {
    if outcomes == [] then 0
    else
      var last := outcomes[|outcomes| - 1];
      Leaks(outcomes[..|outcomes| - 1]) + (if last.ScrapeFailed? && last.leaked then 1 else 0)
  }

  /** The body of one iteration of the `for` loop. */
  method RunCategory(pup: Puppeteer, db: Database, config: RunConfig, cat: Category, env: CategoryEnv)
      returns (o: CategoryOutcome)
    requires pup.Valid()
    modifies pup, db
    ensures pup.Valid()
    ensures o == CategoryStep(config, cat, env, old(db.connected))
    ensures db.rows == old(db.rows) + (if o.SinkCalled? then o.stored else [])
    ensures db.connected == ConnectedAfter(o, old(db.connected))
    ensures pup.open == old(pup.open) + (if o.ScrapeFailed? && o.leaked then 1 else 0)
    ensures pup.launches == old(pup.launches) + (if LaunchesBrowser(config, cat, env) then 1 else 0)
    ensures pup.closes == old(pup.closes) + (if PassesSetup(config, cat, env) then 1 else 0)
    ensures pup.visited == old(pup.visited) + Navigation(config, cat, env)
    ensures db.saveCalls == old(db.saveCalls) + (if CallsSave(o) then 1 else 0)
    ensures db.connected == (old(db.connected) || CallsSave(o))
  {
    if cat.key !in config.categories {
      return Aborted;
    }
    var categoryUrl := CategoryUrl(config, cat.key);
    var wasConnected := db.connected;
    // try
    var scraped := ScrapeSilpoCategory(pup, config.site, categoryUrl, cat.displayName, env.page, env.now, None);
    match scraped {
      case Rejected =>
        o := ScrapeFailed(env.page.launch.Ok?);
      case Resolved(products) =>
        if |products| > 0 {
          var result := SaveProductsToDatabase(db, products, env.db);
          o := SinkCalled(products, result, StoredRows(products, wasConnected, env.db));
        } else {
          o := NoProducts;
        }
    }
  }

  /** The state a run accounts for: the database's rows, calls and connection, and the
      browsers' counters. */
  datatype Tally = Tally(rows: seq<ProductEntity>, saveCalls: nat, connected: bool,
                         open: nat, launches: nat, closes: nat, visited: seq<string>)

  ghost function TallyOf(pup: Puppeteer, db: Database): Tally
    reads pup, db
  {
    Tally(db.rows, db.saveCalls, db.connected, pup.open, pup.launches, pup.closes, pup.visited)
  }

  /** What a run that produced `outcomes` from the first categories did, starting from
      `before`: what its outcomes account for, and what the browser did per category. */
  predicate Accounted(config: RunConfig, cats: seq<Category>, envs: seq<CategoryEnv>,
                      outcomes: seq<CategoryOutcome>, before: Tally, after: Tally)
    requires |envs| == |cats| && |outcomes| <= |cats|
  {
    OutcomesAccounted(outcomes, before, after) && BrowserAccounted(config, cats, envs, |outcomes|, before, after)
  }

  /** The run stored the rows of every batch in order, called `save` once per batch that
      found a connection, is connected exactly when it was before or some save was
      reached, and leaked one browser per rejected scrape that launched one. */
  predicate OutcomesAccounted(outcomes: seq<CategoryOutcome>, before: Tally, after: Tally)
  {
    && after.rows == before.rows + Stored(outcomes)
    && after.saveCalls == before.saveCalls + SaveCount(outcomes)
    && after.connected == (before.connected || SaveCount(outcomes) > 0)
    && after.open == before.open + Leaks(outcomes)
  }

  /** Over the first `n` categories the run launched one browser per configured category
      whose launch succeeded, closed one per category that got past page setup, and
      navigated to those categories' URLs in order. */
  predicate BrowserAccounted(config: RunConfig, cats: seq<Category>, envs: seq<CategoryEnv>, n: nat,
                             before: Tally, after: Tally)
    requires |envs| == |cats| && n <= |cats|
  {
    && after.launches == before.launches + LaunchCount(config, cats[..n], envs[..n])
    && after.closes == before.closes + CloseCount(config, cats[..n], envs[..n])
    && after.visited == before.visited + Navigations(config, cats[..n], envs[..n])
  }

  /** `runAllScrapers` */
  method RunAllScrapers(pup: Puppeteer, db: Database, config: RunConfig, cats: seq<Category>, envs: seq<CategoryEnv>)
      returns (outcomes: seq<CategoryOutcome>)
    requires |envs| == |cats|
    requires pup.Valid()
    modifies pup, db
    ensures pup.Valid()
    ensures outcomes == RunOutcomes(config, cats, envs, old(db.connected))
    ensures |outcomes| <= |cats|
    ensures Accounted(config, cats, envs, outcomes, old(TallyOf(pup, db)), TallyOf(pup, db))
  {
    outcomes := [];
    var i := 0;
    ghost var whole := RunOutcomes(config, cats, envs, old(db.connected));
    while i < |cats|
      invariant 0 <= i <= |cats| && |outcomes| == i
      invariant pup.Valid()
      invariant outcomes + RunOutcomes(config, cats[i..], envs[i..], db.connected) == whole
      invariant Accounted(config, cats, envs, outcomes, old(TallyOf(pup, db)), TallyOf(pup, db))
    {
      ghost var connected := db.connected;
      ghost var t := TallyOf(pup, db);
      var o := RunCategory(pup, db, config, cats[i], envs[i]);
      StepKeepsRun(config, cats, envs, i, outcomes, o, connected, whole);
      AccountStep(config, cats, envs, outcomes, o, old(TallyOf(pup, db)), t, TallyOf(pup, db));
      outcomes := outcomes + [o];
      i := i + 1;
      if o.Aborted? {
        break;
      }
    }
  }

  /** One iteration's effects, added to what the run accounted for so far. */
  lemma AccountStep(config: RunConfig, cats: seq<Category>, envs: seq<CategoryEnv>,
                    outcomes: seq<CategoryOutcome>, o: CategoryOutcome, before: Tally, t: Tally, t': Tally)
    requires |envs| == |cats| && |outcomes| < |cats|
    requires Accounted(config, cats, envs, outcomes, before, t)
    requires var cat, env := cats[|outcomes|], envs[|outcomes|];
      && t'.rows == t.rows + (if o.SinkCalled? then o.stored else [])
      && t'.saveCalls == t.saveCalls + (if CallsSave(o) then 1 else 0)
      && t'.connected == (t.connected || CallsSave(o))
      && t'.open == t.open + (if o.ScrapeFailed? && o.leaked then 1 else 0)
      && t'.launches == t.launches + (if LaunchesBrowser(config, cat, env) then 1 else 0)
      && t'.closes == t.closes + (if PassesSetup(config, cat, env) then 1 else 0)
      && t'.visited == t.visited + Navigation(config, cat, env)
    ensures Accounted(config, cats, envs, outcomes + [o], before, t')
  {
    OutcomeStep(outcomes, o, before, t, t');
    BrowserStep(config, cats, envs, |outcomes|, before, t, t');
  }

  lemma OutcomeStep(outcomes: seq<CategoryOutcome>, o: CategoryOutcome, before: Tally, t: Tally, t': Tally)
    requires OutcomesAccounted(outcomes, before, t)
    requires && t'.rows == t.rows + (if o.SinkCalled? then o.stored else [])
             && t'.saveCalls == t.saveCalls + (if CallsSave(o) then 1 else 0)
             && t'.connected == (t.connected || CallsSave(o))
             && t'.open == t.open + (if o.ScrapeFailed? && o.leaked then 1 else 0)
    ensures OutcomesAccounted(outcomes + [o], before, t')
  {
    assert (outcomes + [o])[..|outcomes|] == outcomes;
  }

  lemma BrowserStep(config: RunConfig, cats: seq<Category>, envs: seq<CategoryEnv>, n: nat,
                    before: Tally, t: Tally, t': Tally)
    requires |envs| == |cats| && n < |cats|
    requires BrowserAccounted(config, cats, envs, n, before, t)
    requires && t'.launches == t.launches + (if LaunchesBrowser(config, cats[n], envs[n]) then 1 else 0)
             && t'.closes == t.closes + (if PassesSetup(config, cats[n], envs[n]) then 1 else 0)
             && t'.visited == t.visited + Navigation(config, cats[n], envs[n])
    ensures BrowserAccounted(config, cats, envs, n + 1, before, t')
  {
    assert cats[..n + 1][..n] == cats[..n] && envs[..n + 1][..n] == envs[..n];
    assert cats[..n + 1][n] == cats[n] && envs[..n + 1][n] == envs[n];
  }

  /** One step of the run: the first category's outcome, then the rest of the run from the
      connection state it leaves. */
  lemma RunOutcomesUnfold(config: RunConfig, cats: seq<Category>, envs: seq<CategoryEnv>, connected: bool)
    requires |envs| == |cats| && cats != []
    ensures var o := CategoryStep(config, cats[0], envs[0], connected);
      RunOutcomes(config, cats, envs, connected)
      == [o] + (if o.Aborted? then [] else RunOutcomes(config, cats[1..], envs[1..], ConnectedAfter(o, connected)))
  {
  }

  /** The loop invariant is kept by one iteration. */
  lemma StepKeepsRun(config: RunConfig, cats: seq<Category>, envs: seq<CategoryEnv>, i: nat,
                     outcomes: seq<CategoryOutcome>, o: CategoryOutcome, connected: bool,
                     whole: seq<CategoryOutcome>)
    requires |envs| == |cats| && i < |cats|
    requires outcomes + RunOutcomes(config, cats[i..], envs[i..], connected) == whole
    requires o == CategoryStep(config, cats[i], envs[i], connected)
    ensures o.Aborted? ==> outcomes + [o] == whole
    ensures !o.Aborted? ==>
              (outcomes + [o]) + RunOutcomes(config, cats[i + 1..], envs[i + 1..], ConnectedAfter(o, connected)) == whole
  {
    var tail, envTail := cats[i..], envs[i..];
    assert tail[0] == cats[i] && envTail[0] == envs[i];
    assert tail[1..] == cats[i + 1..] && envTail[1..] == envs[i + 1..];
    RunOutcomesUnfold(config, tail, envTail, connected);
    if o.Aborted? {
      assert [o] + [] == [o];
    } else {
      ConcatAssoc(outcomes, [o], RunOutcomes(config, cats[i + 1..], envs[i + 1..], ConnectedAfter(o, connected)));
    }
  }

  lemma ConcatAssoc<T>(a: seq<T>, b: seq<T>, c: seq<T>)
    ensures (a + b) + c == a + (b + c)
  {
  }

  /** When every browser comes up (launch and page setup succeed), no browser is left
      open by the run. */
  lemma {:induction false} NoLeaksWhenSetupSucceeds(config: RunConfig, cats: seq<Category>, envs: seq<CategoryEnv>, connected: bool)
    requires |envs| == |cats|
    requires forall i :: 0 <= i < |envs| ==> envs[i].page.launch.Ok? && envs[i].page.setup.Ok?
    ensures Leaks(RunOutcomes(config, cats, envs, connected)) == 0
  {
    if cats != [] {
      var r := RunOutcomes(config, cats, envs, connected);
      var o := CategoryStep(config, cats[0], envs[0], connected);
      assert !o.ScrapeFailed?;
      if !o.Aborted? {
        var rest := RunOutcomes(config, cats[1..], envs[1..], ConnectedAfter(o, connected));
        NoLeaksWhenSetupSucceeds(config, cats[1..], envs[1..], ConnectedAfter(o, connected));
        LeaksPrepend(o, rest);
      } else {
        assert r == [o] && r[..0] == [];
      }
    }
  }

  /** A browser is leaked by an outcome at the front as it would be at the back. */
  lemma {:induction false} LeaksPrepend(o: CategoryOutcome, rest: seq<CategoryOutcome>)
    ensures Leaks([o] + rest) == (if o.ScrapeFailed? && o.leaked then 1 else 0) + Leaks(rest)
    decreases |rest|
  {
    if rest == [] {
      assert ([o] + rest)[..0] == [];
    } else {
      var init := rest[..|rest| - 1];
      assert ([o] + rest)[..|[o] + rest| - 1] == [o] + init;
      LeaksPrepend(o, init);
    }
  }

  /** Rows reach the database only through the sink: every stored row is the mapping of a
      scraped record of some batch, and a run whose scrapes all come back empty or rejected
      stores nothing. */
  lemma {:induction false} StoredOnlyFromBatches(outcomes: seq<CategoryOutcome>)
    ensures (forall o :: o in outcomes ==> !o.SinkCalled?) ==> Stored(outcomes) == []
    ensures forall e :: e in Stored(outcomes) ==>
              exists k :: 0 <= k < |outcomes| && outcomes[k].SinkCalled? && e in outcomes[k].stored
  {
    if outcomes != [] {
      var init := outcomes[..|outcomes| - 1];
      var last := outcomes[|outcomes| - 1];
      StoredOnlyFromBatches(init);
      assert forall o :: o in init ==> o in outcomes;
      forall e | e in Stored(outcomes)
        ensures exists k :: 0 <= k < |outcomes| && outcomes[k].SinkCalled? && e in outcomes[k].stored
      {
        if e in Stored(init) {
          var k :| 0 <= k < |init| && init[k].SinkCalled? && e in init[k].stored;
          assert outcomes[k] == init[k];
        } else {
          assert outcomes[|outcomes| - 1] == last;
        }
      }
    }
  }

  /** With the configured category present, the default run scrapes exactly one category
      and never aborts; without it, the run aborts before launching a browser. */
  lemma DefaultRunProcessesOneCategory(config: RunConfig, envs: seq<CategoryEnv>, connected: bool)
    requires |envs| == 1
    ensures var r := RunOutcomes(config, CategoriesToScrape, envs, connected);
      && |r| == 1
      && (r[0].Aborted? <==> "dairy_eggs" !in config.categories)
  {
    var o := CategoryStep(config, CategoriesToScrape[0], envs[0], connected);
    if !o.Aborted? {
      assert CategoriesToScrape[1..] == [];
    }
  }
}
