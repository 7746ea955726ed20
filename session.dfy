/** The session manager and the `scrape` driver of `PropertyDealsScraper`:
    the four browser resources are acquired in order by `init_browser`,
    released in the opposite order by `cleanup` inside a single `try`, and
    `scrape` runs navigation, the date form, the search click and the row
    loop with `cleanup` in its `finally`. The browser itself is replaced by
    oracles: which acquisition raises, which release raises, which date input
    cannot be found, whether navigation and the search click succeed, and
    the rows the result table shows. */
module Session {
  import opened Wrappers
  import opened Calendar
  import opened DateForm
  import opened Extraction
  import opened Numerals

  datatype Resource = Playwright | Browser | Context | Page

  /** Acquisition order in `init_browser`. */
  const AcquireOrder: seq<Resource> := [Playwright, Browser, Context, Page]

  /** Release order in `cleanup`. */
  const ReleaseOrder: seq<Resource> := [Page, Context, Browser, Playwright]

  /** The position of r in the acquisition order. */
  function AcquireIndex(r: Resource): (i: nat)
    ensures i < |AcquireOrder| && AcquireOrder[i] == r
  {
    match r
    case Playwright => 0
    case Browser => 1
    case Context => 2
    case Page => 3
  }

  /** How many acquisitions of `init_browser` succeed when `failAt` raises. */
  function Stage(failAt: Option<Resource>): (n: nat)
    ensures n <= 4
    ensures n == 4 <==> failAt.None?
  {
    match failAt
    case None => 4
    case Some(r) => AcquireIndex(r)
  }

  /** Whether `init_browser` got past the acquisition of r: every step before
      the one that raises has run. */
  predicate Acquired(r: Resource, failAt: Option<Resource>) {
    AcquireIndex(r) < Stage(failAt)
  }

  /** Release calls made one after the other inside one `try`: each is made
      in turn, and the first that raises ends the run (it was attempted, the
      rest are skipped). */
  function Attempts(plan: seq<Resource>, fails: set<Resource>): (made: seq<Resource>)
    ensures plan != [] ==> made != [] && made[0] == plan[0]
  {
    if plan == [] then []
    else if plan[0] in fails then [plan[0]]
    else [plan[0]] + Attempts(plan[1..], fails)
  }

  /** The call on r, when its field is set. */
  function Opt(isSet: bool, r: Resource): seq<Resource> {
    if isSet then [r] else []
  }

  /** The calls `cleanup` tries: page, context, browser, playwright, each when set. */
  function CleanupPlan(playwright: bool, browser: bool, context: bool, page: bool): (plan: seq<Resource>)
    ensures |plan| <= |ReleaseOrder|
    ensures plan == [] <==> !playwright && !browser && !context && !page
  {
    Opt(page, Page) + (Opt(context, Context) + (Opt(browser, Browser) + Opt(playwright, Playwright)))
  }

  /** The calls the `except` branch of `init_browser` tries: browser, then
      playwright, each when set (the context is not closed there). */
  function RollbackPlan(playwright: bool, browser: bool): (plan: seq<Resource>)
    ensures Context !in plan && Page !in plan
    ensures |plan| <= 2
  {
    Opt(browser, Browser) + Opt(playwright, Playwright)
  }

  /** One guarded call in front of the rest of a run. */
  lemma AttemptsOpt(isSet: bool, r: Resource, rest: seq<Resource>, fails: set<Resource>)
    ensures Attempts(Opt(isSet, r) + rest, fails)
            == if !isSet then Attempts(rest, fails)
               else if r in fails then [r]
               else [r] + Attempts(rest, fails)
  {
    if isSet {
      assert (Opt(isSet, r) + rest)[1..] == rest;
    } else {
      assert Opt(isSet, r) + rest == rest;
    }
  }

  /** One guarded call in front of the rest of a run, seen from the log of
      the calls made so far. */
  lemma AttemptsStep(done: seq<Resource>, isSet: bool, r: Resource, rest: seq<Resource>, fails: set<Resource>)
    ensures isSet && r in fails ==> done + Attempts(Opt(isSet, r) + rest, fails) == done + [r]
    ensures !(isSet && r in fails) ==> done + Attempts(Opt(isSet, r) + rest, fails) == (done + Opt(isSet, r)) + Attempts(rest, fails)
  {
    AttemptsOpt(isSet, r, rest, fails);
    if !isSet {
      assert done + Opt(isSet, r) == done;
    } else if r !in fails {
      assert done + ([r] + Attempts(rest, fails)) == (done + [r]) + Attempts(rest, fails);
    }
  }

  // ---- properties of the release discipline ----

  /** The calls made are a prefix of the plan; all but the last succeeded;
      the run stops short only at a call that raised. */
  lemma {:induction false} AttemptsPrefix(plan: seq<Resource>, fails: set<Resource>)
    ensures |Attempts(plan, fails)| <= |plan|
    ensures Attempts(plan, fails) == plan[..|Attempts(plan, fails)|]
    ensures forall i :: 0 <= i < |Attempts(plan, fails)| - 1 ==> Attempts(plan, fails)[i] !in fails
    ensures |Attempts(plan, fails)| < |plan| ==>
              |Attempts(plan, fails)| >= 1 && Attempts(plan, fails)[|Attempts(plan, fails)| - 1] in fails
  {
    if plan != [] && plan[0] !in fails {
      var rest := Attempts(plan[1..], fails);
      AttemptsPrefix(plan[1..], fails);
      assert Attempts(plan, fails) == [plan[0]] + rest;
      assert plan[..|rest| + 1] == [plan[0]] + plan[1..][..|rest|];
    }
  }

  /** When no release raises, every planned call is made. */
  lemma {:induction false} AttemptsAll(plan: seq<Resource>, fails: set<Resource>)
    requires forall i :: 0 <= i < |plan| ==> plan[i] !in fails
    ensures Attempts(plan, fails) == plan
  {
    if plan != [] {
      AttemptsAll(plan[1..], fails);
    }
  }

  /** A release that raises skips every later one. */
  lemma {:induction false} AttemptsStopAtFailure(plan: seq<Resource>, fails: set<Resource>, k: nat)
    requires k < |plan| && plan[k] in fails
    requires forall i :: 0 <= i < k ==> plan[i] !in fails
    ensures Attempts(plan, fails) == plan[..k + 1]
  {
    if k > 0 {
      AttemptsStopAtFailure(plan[1..], fails, k - 1);
      assert plan[..k + 1] == [plan[0]] + plan[1..][..k];
    }
  }

  /** Later in the run means acquired earlier. */
  predicate Descending(s: seq<Resource>) {
    forall i, j :: 0 <= i < j < |s| ==> AcquireIndex(s[i]) > AcquireIndex(s[j])
  }

  lemma DescendingOpt(isSet: bool, r: Resource, rest: seq<Resource>)
    requires Descending(rest)
    requires forall x :: x in rest ==> AcquireIndex(x) < AcquireIndex(r)
    ensures Descending(Opt(isSet, r) + rest)
  {
    if isSet {
      var s := [r] + rest;
      forall i, j | 0 <= i < j < |s|
        ensures AcquireIndex(s[i]) > AcquireIndex(s[j])
      {
        if i > 0 {
          assert s[i] == rest[i - 1] && s[j] == rest[j - 1];
        } else {
          assert s[j] in rest;
        }
      }
    } else {
      assert Opt(isSet, r) + rest == rest;
    }
  }

  /** `cleanup` tries exactly the set resources. */
  lemma CleanupPlanHeld(playwright: bool, browser: bool, context: bool, page: bool)
    ensures var plan := CleanupPlan(playwright, browser, context, page);
            && (Page in plan <==> page) && (Context in plan <==> context)
            && (Browser in plan <==> browser) && (Playwright in plan <==> playwright)
  {
    var tail2 := Opt(playwright, Playwright);
    var tail1 := Opt(browser, Browser) + tail2;
    var tail0 := Opt(context, Context) + tail1;
    assert forall x :: x in tail1 <==> (browser && x == Browser) || (playwright && x == Playwright);
    assert forall x :: x in tail0 <==> (context && x == Context) || x in tail1;
  }

  /** `cleanup` tries each resource at most once, in the reverse of the order
      `init_browser` acquired them in. */
  lemma CleanupPlanDescending(playwright: bool, browser: bool, context: bool, page: bool)
    ensures Descending(CleanupPlan(playwright, browser, context, page))
  {
    var tail2 := Opt(playwright, Playwright);
    var tail1 := Opt(browser, Browser) + tail2;
    var tail0 := Opt(context, Context) + tail1;
    DescendingOpt(browser, Browser, tail2);
    assert forall x :: x in tail1 ==> AcquireIndex(x) <= 1;
    DescendingOpt(context, Context, tail1);
    assert forall x :: x in tail0 ==> AcquireIndex(x) <= 2;
    DescendingOpt(page, Page, tail0);
  }

  /** With all four fields set, `cleanup` tries the whole release order. */
  lemma FullCleanupPlan()
    ensures CleanupPlan(true, true, true, true) == ReleaseOrder
  {
    assert Opt(true, Browser) + Opt(true, Playwright) == [Browser, Playwright];
    assert Opt(true, Context) + [Browser, Playwright] == [Context, Browser, Playwright];
  }

  /** When no set resource fails to close, `cleanup` releases every one of
      them. */
  lemma CleanupReleasesAll(playwright: bool, browser: bool, context: bool, page: bool, fails: set<Resource>)
    requires (playwright ==> Playwright !in fails) && (browser ==> Browser !in fails)
    requires (context ==> Context !in fails) && (page ==> Page !in fails)
    ensures Attempts(CleanupPlan(playwright, browser, context, page), fails)
            == CleanupPlan(playwright, browser, context, page)
  {
    var plan := CleanupPlan(playwright, browser, context, page);
    CleanupPlanHeld(playwright, browser, context, page);
    assert forall i :: 0 <= i < |plan| ==> plan[i] in plan;
    AttemptsAll(plan, fails);
  }

  datatype ScrapeError =
    | BrowserInitError
    | NavigationError
    | DateOutOfRange
    | FormFillError(field: Field)
    | SearchButtonError

  /** Everything the browser and the clock decide, as inputs. A close or
      stop call raises when its resource is in `rollbackFails` during the
      `except` branch of `init_browser`, and in `closeFails` during
      `cleanup`: the two runs decide independently. */
  datatype Environment = Environment(
    today: Date,
    initFailAt: Option<Resource>,
    rollbackFails: set<Resource>,
    closeFails: set<Resource>,
    navigationFails: bool,
    missingFields: set<Field>,
    searchButtonFound: bool,
    rows: seq<RowRead>)

  /** Whether the date form gets filled completely on day `today`. */
  predicate FillCompletes(today: Date, missing: set<Field>)
    requires ValidDate(today)
  {
    WindowOf(today).Some? && StopIndex(FillPlan(WindowOf(today).value), missing) == 7
  }

  /** Whether `scrape` reaches its return statement. */
  predicate Succeeds(env: Environment)
    requires ValidDate(env.today)
  {
    && env.initFailAt.None?
    && !env.navigationFails
    && FillCompletes(env.today, env.missingFields)
    && env.searchButtonFound
  }

  /** The exception `scrape` re-raises: the first step that fails, in the
      order the steps run. */
  function FirstError(env: Environment): (e: Option<ScrapeError>)
    requires ValidDate(env.today)
    ensures e.None? <==> Succeeds(env)
    ensures env.initFailAt.Some? ==> e == Some(BrowserInitError)
  {
    if env.initFailAt.Some? then Some(BrowserInitError)
    else if env.navigationFails then Some(NavigationError)
    else if WindowOf(env.today).None? then Some(DateOutOfRange)
    else
      var plan := FillPlan(WindowOf(env.today).value);
      var k := StopIndex(plan, env.missingFields);
      if k < |plan| then Some(FormFillError(plan[k].field))
      else if !env.searchButtonFound then Some(SearchButtonError)
      else None
  }

  /** The clicks and keystrokes `scrape` sends to the page: nothing when the
      browser does not start, the page does not load or there is no date
      window; otherwise the blocks of the fill up to the first whose input
      cannot be found, then the search click when the fill completed and the
      button was found. */
  function PageScript(env: Environment): (acts: seq<Action>)
    requires ValidDate(env.today)
    ensures Succeeds(env) ==> acts == FullScript(env.today) + [ClickSearchButton]
    ensures FirstError(env) == Some(SearchButtonError) ==> acts == FullScript(env.today)
    ensures FirstError(env) in {Some(BrowserInitError), Some(NavigationError), Some(DateOutOfRange)} ==> acts == []
  {
    if env.initFailAt.Some? || env.navigationFails || WindowOf(env.today).None? then []
    else
      var plan := FillPlan(WindowOf(env.today).value);
      var k := StopIndex(plan, env.missingFields);
      assert plan[..|plan|] == plan;
      Script(plan[..k]) + (if k == |plan| && env.searchButtonFound then [ClickSearchButton] else [])
  }

  /** What a fill that started with the log `start` has done: the blocks
      before the first failing one are in the log, and the error names the
      field of that block. */
  predicate FillOutcome(start: seq<Action>, plan: seq<Step>, missing: set<Field>,
                        actions: seq<Action>, err: Option<ScrapeError>)
  {
    var k := StopIndex(plan, missing);
    && actions == start + Script(plan[..k])
    && (err.None? <==> k == |plan|)
    && (k < |plan| ==> err == Some(FormFillError(plan[k].field)))
  }

  class PropertyDealsScraper {
    const url: string
    /** Whether `self.playwright`, `self.browser`, `self.context` and
        `self.page` hold a handle. `cleanup` closes them but does not reset
        the fields. */
    var playwright: bool
    var browser: bool
    var context: bool
    var page: bool
    /** The close/stop calls made so far, in order. */
    var releases: seq<Resource>
    /** The clicks and keystrokes sent to the page so far. */
    var actions: seq<Action>
    /** How many times `cleanup` has run. */
    var cleanups: nat

    constructor (url: string)
      ensures this.url == url
      ensures !playwright && !browser && !context && !page
      ensures releases == [] && actions == [] && cleanups == 0
    {
      this.url := url;
      playwright, browser, context, page := false, false, false, false;
      releases, actions, cleanups := [], [], 0;
    }

    /** `init_browser`: start playwright, launch the browser, open a context
        and a page; the step named by `failAt` raises, and the `except` branch
        closes the browser and stops playwright (in one run of calls, so a
        raising close skips the stop) and reports failure. */
    method InitBrowser(failAt: Option<Resource>, rollbackFails: set<Resource>) returns (ok: bool)
      modifies this`playwright, this`browser, this`context, this`page, this`releases
      ensures ok <==> failAt.None?
      ensures playwright == (Acquired(Playwright, failAt) || old(playwright))
      ensures browser == (Acquired(Browser, failAt) || old(browser))
      ensures context == (Acquired(Context, failAt) || old(context))
      ensures page == (Acquired(Page, failAt) || old(page))
      ensures releases == old(releases) + (if ok then [] else Attempts(RollbackPlan(playwright, browser), rollbackFails))
    {
      var stage := Stage(failAt);
      ok := false;
      if stage > 0 {
        playwright := true;
        if stage > 1 {
          browser := true;
          if stage > 2 {
            context := true;
            if stage > 3 {
              page := true;
              ok := true;
            }
          }
        }
      }
      if !ok {
        var raised := Release(browser, Browser, rollbackFails, Opt(playwright, Playwright));
        if !raised {
          assert Opt(playwright, Playwright) + [] == Opt(playwright, Playwright);
          raised := Release(playwright, Playwright, rollbackFails, []);
        }
      }
    }

    /** `cleanup`: close the page, the context and the browser and stop
        playwright, each when set, all inside one `try`: the first call that
        raises is logged and the remaining calls are skipped. The fields keep
        their handles. */
    method Cleanup(closeFails: set<Resource>)
      modifies this`releases, this`cleanups
      ensures cleanups == old(cleanups) + 1
      ensures releases == old(releases) + Attempts(CleanupPlan(playwright, browser, context, page), closeFails)
    {
      cleanups := cleanups + 1;
      ghost var tail2 := Opt(playwright, Playwright);
      ghost var tail1 := Opt(browser, Browser) + tail2;
      ghost var tail0 := Opt(context, Context) + tail1;
      var raised := Release(page, Page, closeFails, tail0);
      if raised { return; }
      raised := Release(context, Context, closeFails, tail1);
      if raised { return; }
      raised := Release(browser, Browser, closeFails, tail2);
      if raised { return; }
      assert tail2 + [] == tail2;
      raised := Release(playwright, Playwright, closeFails, []);
    }

    /** `if self.<field>: self.<field>.close()`: the call is made when the
        field is set, and raises when r is in `fails`; the calls `rest`
        that would follow it in the same `try` are then skipped. */
    method Release(isSet: bool, r: Resource, fails: set<Resource>, ghost rest: seq<Resource>) returns (raised: bool)
      modifies this`releases
      ensures raised == (isSet && r in fails)
      ensures releases == old(releases) + Opt(isSet, r)
      ensures raised ==> old(releases) + Attempts(Opt(isSet, r) + rest, fails) == releases
      ensures !raised ==> old(releases) + Attempts(Opt(isSet, r) + rest, fails) == releases + Attempts(rest, fails)
    {
      AttemptsStep(releases, isSet, r, rest, fails);
      raised := false;
      if isSet {
        releases := releases + [r];
        raised := r in fails;
      }
    }

    /** Block k of the date form, the blocks before it done: a sub-field
        whose input cannot be found raises at the click and sends nothing,
        ending the fill; otherwise its keystrokes are sent in turn. */
    method FillBlock(ghost start: seq<Action>, steps: seq<Step>, k: nat, missing: set<Field>)
      returns (err: Option<ScrapeError>)
      requires k < |steps| && k <= StopIndex(steps, missing)
      requires actions == start + Script(steps[..k])
      modifies this`actions
      ensures err.Some? ==> StopIndex(steps, missing) == k && err == Some(FormFillError(steps[k].field))
      ensures err.Some? ==> actions == old(actions)
      ensures err.Some? ==> FillOutcome(start, steps, missing, actions, err)
      ensures err.None? ==> k < StopIndex(steps, missing) && actions == start + Script(steps[..k + 1])
    {
      StopIndexStep(steps, missing, k);
      if Blocked(steps[k], missing) {
        return Some(FormFillError(steps[k].field));
      }
      RunStep(steps[k]);
      ScriptSnoc(steps, k);
      err := None;
    }

    /** The keystrokes of one block that was found. */
    method RunStep(step: Step)
      modifies this`actions
      ensures actions == old(actions) + StepActions(step)
    {
      match step {
        case FillField(f, n) => FillInput(f, n);
        case ChooseCity => SelectCity();
      }
    }

    /** One date input: click it, select all, delete, type the number. */
    method FillInput(f: Field, n: nat)
      modifies this`actions
      ensures actions == old(actions) + StepActions(FillField(f, n))
    {
      actions := actions + [Click(f)];
      actions := actions + [Press(SelectAll)];
      actions := actions + [Press(Delete)];
      actions := actions + [Type(Numeral(n))];
    }

    /** The city box: Tab into it, type the city, confirm with Enter. */
    method SelectCity()
      modifies this`actions
      ensures actions == old(actions) + StepActions(ChooseCity)
    {
      actions := actions + [Press(Tab)];
      actions := actions + [Type(City)];
      actions := actions + [Press(Enter)];
    }

    /** `fill_date_fields` on the day `today`: the window is computed first
        (outside the `try`), then the blocks run in their fixed order; the
        first input that cannot be found aborts the fill, leaving the blocks
        before it done. */
    method FillDateFields(today: Date, missing: set<Field>) returns (err: Option<ScrapeError>)
      requires ValidDate(today)
      modifies this`actions
      ensures WindowOf(today).None? ==> err == Some(DateOutOfRange) && actions == old(actions)
      ensures WindowOf(today).Some? ==> FillOutcome(old(actions), FillPlan(WindowOf(today).value), missing, actions, err)
      ensures err.None? <==> FillCompletes(today, missing)
      ensures err.None? ==> actions == old(actions) + FullScript(today)
    {
      var window := WindowOf(today);
      if window.None? {
        return Some(DateOutOfRange);
      }
      err := FillBlocks(FillPlan(window.value), missing);
    }

    /** The seven blocks of the fill, one after the other, inside one `try`:
        the first that raises ends the fill. */
    method FillBlocks(plan: seq<Step>, missing: set<Field>) returns (err: Option<ScrapeError>)
      requires |plan| == 7
      modifies this`actions
      ensures FillOutcome(old(actions), plan, missing, actions, err)
      ensures err.None? ==> actions == old(actions) + Script(plan)
    {
      ghost var start := actions;
      assert plan[..0] == [];
      err := FillFromDate(start, plan, missing);
      if err.Some? { return; }
      err := FillToDate(start, plan, missing);
      assert plan[..7] == plan;
    }

    /** Blocks 0 to 2 of the plan: the three "from" inputs. */
    method FillFromDate(ghost start: seq<Action>, plan: seq<Step>, missing: set<Field>)
      returns (err: Option<ScrapeError>)
      requires |plan| == 7 && actions == start + Script(plan[..0])
      modifies this`actions
      ensures err.Some? ==> FillOutcome(start, plan, missing, actions, err)
      ensures err.None? ==> 3 <= StopIndex(plan, missing) && actions == start + Script(plan[..3])
    {
      err := FillBlock(start, plan, 0, missing);
      if err.Some? { return; }
      err := FillBlock(start, plan, 1, missing);
      if err.Some? { return; }
      err := FillBlock(start, plan, 2, missing);
    }

    /** Blocks 3 to 6 of the plan: the "to" year, the city, the "to" month
        and day. */
    method FillToDate(ghost start: seq<Action>, plan: seq<Step>, missing: set<Field>)
      returns (err: Option<ScrapeError>)
      requires |plan| == 7 && 3 <= StopIndex(plan, missing) && actions == start + Script(plan[..3])
      modifies this`actions
      ensures FillOutcome(start, plan, missing, actions, err)
    {
      err := FillBlock(start, plan, 3, missing);
      if err.Some? { return; }
      err := FillBlock(start, plan, 4, missing);
      if err.Some? { return; }
      err := FillBlock(start, plan, 5, missing);
      if err.Some? { return; }
      err := FillBlock(start, plan, 6, missing);
    }

    /** The `try` block of `scrape`: initialise the browser, navigate, fill
        the date form, click the search button (a missing button raises here)
        and run the row loop. The first step that raises ends the block. */
    method SearchAndExtract(env: Environment) returns (err: Option<ScrapeError>,
                                                      plain: seq<PropertyRecord>, categorized: seq<CategorizedRecord>)
      requires ValidDate(env.today)
      modifies this`playwright, this`browser, this`context, this`page, this`releases, this`actions
      ensures err == FirstError(env)
      ensures err.None? ==> plain == PlainRecords(env.rows) && categorized == CategorizedRecords(plain)
      ensures err.None? ==> actions == old(actions) + FullScript(env.today) + [ClickSearchButton]
      ensures env.initFailAt.Some? || env.navigationFails ==> actions == old(actions)
      ensures actions == old(actions) + PageScript(env)
      ensures playwright == (Acquired(Playwright, env.initFailAt) || old(playwright))
      ensures browser == (Acquired(Browser, env.initFailAt) || old(browser))
      ensures context == (Acquired(Context, env.initFailAt) || old(context))
      ensures page == (Acquired(Page, env.initFailAt) || old(page))
      ensures releases == old(releases)
                          + (if env.initFailAt.Some? then Attempts(RollbackPlan(playwright, browser), env.rollbackFails) else [])
    {
      plain, categorized := [], [];
      var ok := InitBrowser(env.initFailAt, env.rollbackFails);
      if !ok {
        return Some(BrowserInitError), plain, categorized;
      }
      if env.navigationFails {
        return Some(NavigationError), plain, categorized;
      }
      err := FillDateFields(env.today, env.missingFields);
      if err.Some? {
        return;
      }
      if !env.searchButtonFound {
        return Some(SearchButtonError), plain, categorized;
      }
      actions := actions + [ClickSearchButton];
      plain, categorized := ExtractRows(env.rows);
    }

    /** `scrape`: the `try` block, then `cleanup` exactly once in the
        `finally`, whatever happened; an exception is re-raised. */
    method Scrape(env: Environment) returns (r: Result<(seq<PropertyRecord>, seq<CategorizedRecord>), ScrapeError>)
      requires ValidDate(env.today)
      modifies this`playwright, this`browser, this`context, this`page, this`releases, this`actions, this`cleanups
      ensures cleanups == old(cleanups) + 1
      ensures r.Success? <==> Succeeds(env)
      ensures r.Failure? ==> Some(r.error) == FirstError(env)
      ensures r.Success? ==> r.value.0 == PlainRecords(env.rows)
      ensures r.Success? ==> r.value.1 == CategorizedRecords(r.value.0)
      ensures r.Success? ==> actions == old(actions) + FullScript(env.today) + [ClickSearchButton]
      ensures actions == old(actions) + PageScript(env)
      ensures r.Success? ==> releases == old(releases) + Attempts(ReleaseOrder, env.closeFails)
      ensures env.initFailAt.Some? || env.navigationFails ==> actions == old(actions)
      ensures playwright == (Acquired(Playwright, env.initFailAt) || old(playwright))
      ensures browser == (Acquired(Browser, env.initFailAt) || old(browser))
      ensures context == (Acquired(Context, env.initFailAt) || old(context))
      ensures page == (Acquired(Page, env.initFailAt) || old(page))
      ensures releases == old(releases)
                          + (if env.initFailAt.Some? then Attempts(RollbackPlan(playwright, browser), env.rollbackFails) else [])
                          + Attempts(CleanupPlan(playwright, browser, context, page), env.closeFails)
    {
      var err, plain, categorized := SearchAndExtract(env);
      Cleanup(env.closeFails);
      if err.None? {
        FullCleanupPlan();
        r := Success((plain, categorized));
      } else {
        r := Failure(err.value);
      }
    }
  }

  /** The keystrokes of a complete fill on day `today`. */
  function FullScript(today: Date): seq<Action>
    requires ValidDate(today) && WindowOf(today).Some?
  {
    Script(FillPlan(WindowOf(today).value))
  }

  /** With the browser up and the page loaded, a missing to-year input is
      the error the scrape reports. */
  lemma ToYearMissing(env: Environment)
    requires ValidDate(env.today) && WindowOf(env.today).Some?
    requires env.initFailAt.None? && !env.navigationFails && env.missingFields == {ToYear}
    ensures FirstError(env) == Some(FormFillError(ToYear))
  {
    StopAtToYear(WindowOf(env.today).value, {ToYear});
  }

  /** A fill failure after the three from-date sub-fields: the scrape fails
      with the to-year field named, the page got the keystrokes of the
      from-date blocks and nothing after them, `cleanup` has run once, and
      every resource has been released, page first. */
  method FillFailureExample(today: Date) returns (r: Result<(seq<PropertyRecord>, seq<CategorizedRecord>), ScrapeError>,
                                                 typed: seq<Action>, released: seq<Resource>, cleanupRuns: nat)
    requires ValidDate(today) && WindowOf(today).Some?
    ensures r == Failure(FormFillError(ToYear))
    ensures var from := WindowOf(today).value.from;
            typed == StepActions(FillField(FromYear, from.year))
                   + StepActions(FillField(FromMonth, from.month))
                   + StepActions(FillField(FromDay, from.day))
    ensures cleanupRuns == 1
    ensures released == ReleaseOrder
  {
    var s := new PropertyDealsScraper("https://srem.moj.gov.sa/transactions-info");
    var env := Environment(today, None, {}, {}, false, {ToYear}, true, []);
    ToYearMissing(env);
    StopAtToYear(WindowOf(today).value, {ToYear});
    r := s.Scrape(env);
    assert s.playwright && s.browser && s.context && s.page;
    typed, released, cleanupRuns := s.actions, s.releases, s.cleanups;
    FullCleanupPlan();
    AttemptsAll(ReleaseOrder, {});
  }

  /** A browser that cannot be launched: playwright is stopped by the
      `except` branch of `init_browser`, and stopped again by `cleanup`. */
  method LaunchFailureExample(today: Date) returns (r: Result<(seq<PropertyRecord>, seq<CategorizedRecord>), ScrapeError>,
                                                   released: seq<Resource>, cleanupRuns: nat)
    requires ValidDate(today)
    ensures r == Failure(BrowserInitError)
    ensures cleanupRuns == 1
    ensures released == [Playwright, Playwright]
  {
    var s := new PropertyDealsScraper("https://srem.moj.gov.sa/transactions-info");
    var env := Environment(today, Some(Browser), {}, {}, false, {}, true, []);
    r := s.Scrape(env);
    released, cleanupRuns := s.releases, s.cleanups;
    AttemptsAll(RollbackPlan(true, false), {});
    CleanupReleasesAll(true, false, false, false, {});
  }

  /** A context that cannot be opened, and a browser whose close raises in
      the `except` branch: the rollback stops there without stopping
      playwright, and `cleanup`, whose calls succeed, closes the browser
      again and then stops playwright. */
  method RollbackFailureExample(today: Date) returns (r: Result<(seq<PropertyRecord>, seq<CategorizedRecord>), ScrapeError>,
                                                     released: seq<Resource>)
    requires ValidDate(today)
    ensures r == Failure(BrowserInitError)
    ensures released == [Browser, Browser, Playwright]
  {
    var s := new PropertyDealsScraper("https://srem.moj.gov.sa/transactions-info");
    var env := Environment(today, Some(Context), {Browser}, {}, false, {}, true, []);
    r := s.Scrape(env);
    released := s.releases;
    CleanupReleasesAll(true, true, false, false, {});
  }
}
