/** `HandleFiltering`: the search filters are set one after the other, each read
    back and set again until the page shows the wanted value, then the zip code
    is typed and the search is started. The retry has no ceiling in the source;
    here each filter gets at most `fuel` attempts. */
module Filtering {
  import opened Text
  import opened Numbers
  import opened Browser
  import opened Randomness

  /** One `SelectFilterOptions` call: the `data-activitykey` of the select
      element, the option value it must show, and the name shown on the console. */
  datatype Filter = Filter(key: string, target: string, name: string)

  /** The filters `SelectFiltersAndClickSearchButton` sets, in the order it sets them. */
  const Filters: seq<Filter> := [
    Filter("stock-type", "used", "New/Used"),
    Filter("model", "", "Model"),
    Filter("make", "tesla", "Make"),
    Filter("price", "100000", "Price"),
    Filter("distance", "all", "Distance")
  ]

  // ---------------------------------------------------------------------------
  // Scripts

  // The fixed pieces of the scripts, as the source writes them out.
  const KeyOpen: string := "[data-activitykey=\""
  const AttrClose: string := "\"]"
  const OptionOpen: string := "option[value=\""
  const OptionDecl: string := "const option_"
  const QueryOpen: string := "=document.querySelector('"
  const QueryClose: string := "')"
  const ElementDecl: string := "const element_"
  const OptionRef: string := "= option_"
  const SubQueryOpen: string := ".querySelector('"
  const ElementRef: string := "element_"
  const Focus: string := ".focus();"
  const Selected: string := ".selected=true;"
  const Dispatch: string := ".dispatchEvent(new Event('change', { bubbles: true }))"
  const ReadOpen: string := "document.querySelector('"
  const ReadClose: string := "').value;"

  /** The selector of the select element of a filter. */
  function KeySelector(key: string): string {
    KeyOpen + key + AttrClose
  }

  /** The selector of the option with the wanted value. */
  function OptionSelector(target: string): string {
    OptionOpen + target + AttrClose
  }

  /** The indentation the verbatim script keeps at the start of its later lines. */
  const Indent: string := "\n             "

  /** The first line of the set script: the select element, in a constant named
      after the draw `id`. */
  function OptionLine(key: string, id: string): string {
    OptionDecl + id + QueryOpen + KeySelector(key) + QueryClose
  }

  /** The second line: the wanted option inside it. */
  function ElementLine(target: string, id: string): string {
    Indent + ElementDecl + id + OptionRef + id + SubQueryOpen + OptionSelector(target) + QueryClose
  }

  /** The last lines: focus the option, select it, and fire a bubbling `change` event. */
  function ActionLines(id: string): string {
    Indent + ElementRef + id + Focus
    + Indent + ElementRef + id + Selected
    + Indent + ElementRef + id + Dispatch
  }

  /** The script one attempt of `SelectFilterOptions` runs, for the draw `nonce`. */
  function SelectScript(key: string, target: string, nonce: nat): string {
    var id := NatToString(nonce);
    OptionLine(key, id) + ElementLine(target, id) + ActionLines(id)
  }

  /** The selector `SelectFilterOptions` waits for. */
  function WaitSelector(key: string): string {
    KeySelector(key)
  }

  /** The script `EnsureDataIsSelected` reads the select element's value with. */
  function ReadBackScript(key: string): string {
    ReadOpen + KeySelector(key) + ReadClose
  }

  /** Each attempt's script picks the select element of the given key and the
      option with the given value, whatever the draw. */
  lemma SelectScriptTargets(key: string, target: string, nonce: nat)
    ensures Contains(SelectScript(key, target, nonce), KeySelector(key))
    ensures Contains(SelectScript(key, target, nonce), OptionSelector(target))
    ensures Contains(ReadBackScript(key), KeySelector(key))
  {
    var id := NatToString(nonce);
    var o := OptionLine(key, id);
    var e := ElementLine(target, id);
    var a := ActionLines(id);
    ContainsMiddle(OptionDecl + id + QueryOpen, KeySelector(key), QueryClose);
    ContainsBeforeSuffix(o, e, KeySelector(key));
    ContainsBeforeSuffix(o + e, a, KeySelector(key));
    ContainsMiddle(Indent + ElementDecl + id + OptionRef + id + SubQueryOpen, OptionSelector(target), QueryClose);
    ContainsAfterPrefix(o, e, OptionSelector(target));
    ContainsBeforeSuffix(o + e, a, OptionSelector(target));
    ContainsMiddle(ReadOpen, KeySelector(key), ReadClose);
  }

  /** `Success && Result as string == mustSelect`: a null or non-string value is
      never equal to the target, not even to the empty one. */
  function Confirms(r: Response, target: string): (b: bool)
    ensures b <==> r.success && r.result == JsString(target)
  {
    r.success && r.result.JsString? && r.result.text == target
  }

  /** Only a string read-back can confirm a filter: the empty target is confirmed
      by an empty string and by nothing else. */
  lemma OnlyTheTargetConfirms(r: Response, target: string)
    requires Confirms(r, target)
    ensures r.result.JsString? && r.result.text == target
    ensures target == "" ==> r.result != JsNull
  {
  }

  // ---------------------------------------------------------------------------
  // The verify-and-retry loop of one filter

  /** The two actions of one attempt at the filter `f` with the draw `nonce`: the
      set script, then the wait for the select element. */
  function Step(f: Filter, nonce: nat): seq<Action> {
    [Eval(SelectScript(f.key, f.target, nonce)), WaitForSelector(WaitSelector(f.key))]
  }

  /** What the page shown after `trail` answers the read-back of `f`. */
  function ReadBack(world: seq<Action> -> Page, trail: seq<Action>, f: Filter): Response {
    Evaluate(world(trail), ReadBackScript(f.key))
  }

  /** How the retry loop of one filter ends: confirmed or out of fuel, after
      `attempts` attempts, with the trail `end`. */
  datatype FilterRun = FilterRun(confirmed: bool, attempts: nat, end: seq<Action>)

  /** The retry loop at `f` from attempt `i` on, the page having seen `trail` and
      the generator `drawn` draws: an attempt, then the read-back; it stops at
      the first read-back that confirms, or when the fuel is spent. */
  function Retry(world: seq<Action> -> Page, trail: seq<Action>, sample: nat -> nat, drawn: nat,
                 f: Filter, i: nat, fuel: nat): (r: FilterRun)
    requires i <= fuel
    ensures i <= r.attempts <= fuel
    ensures !r.confirmed ==> r.attempts == fuel
    ensures |r.end| == |trail| + 2 * (r.attempts - i)
    decreases fuel - i
  {
    if i == fuel then FilterRun(false, fuel, trail)
    else
      var t := trail + Step(f, sample(drawn) % Int32Max);
      if Confirms(ReadBack(world, t, f), f.target) then FilterRun(true, i + 1, t)
      else Retry(world, t, sample, drawn + 1, f, i + 1, fuel)
  }

  /** One more attempt of the retry loop, as the loop body sees it. */
  lemma RetryAdvance(world: seq<Action> -> Page, trail: seq<Action>, sample: nat -> nat, drawn: nat,
                     f: Filter, i: nat, fuel: nat, next: seq<Action>, ok: bool)
    requires i < fuel
    requires next == trail + Step(f, sample(drawn) % Int32Max)
    requires ok == Confirms(ReadBack(world, next, f), f.target)
    ensures Retry(world, trail, sample, drawn, f, i, fuel)
            == if ok then FilterRun(true, i + 1, next) else Retry(world, next, sample, drawn + 1, f, i + 1, fuel)
  {
  }

  /** The retry loop only adds to the trail, and a confirmed run ends on a
      read-back that confirms. */
  lemma {:induction false} RetryEndsConfirmed(world: seq<Action> -> Page, trail: seq<Action>, sample: nat -> nat,
                                              drawn: nat, f: Filter, i: nat, fuel: nat)
    requires i <= fuel
    ensures var r := Retry(world, trail, sample, drawn, f, i, fuel);
      && trail <= r.end
      && (r.confirmed ==> Confirms(ReadBack(world, r.end, f), f.target))
    decreases fuel - i
  {
    if i < fuel {
      var t := trail + Step(f, sample(drawn) % Int32Max);
      if !Confirms(ReadBack(world, t, f), f.target) {
        RetryEndsConfirmed(world, t, sample, drawn + 1, f, i + 1, fuel);
      }
    }
  }

  /** The read-back after attempt `k` (counted from 1) did not confirm, when `k`
      comes before the last attempt, or is the last one of a run that ran out of fuel. */
  lemma {:induction false} RetryNoEarlierConfirm(world: seq<Action> -> Page, trail: seq<Action>, sample: nat -> nat,
                                                 drawn: nat, f: Filter, i: nat, fuel: nat, k: nat)
    requires i <= fuel
    requires var r := Retry(world, trail, sample, drawn, f, i, fuel);
      0 < k <= r.attempts - i && (k < r.attempts - i || !r.confirmed)
    ensures var r := Retry(world, trail, sample, drawn, f, i, fuel);
      |trail| + 2 * k <= |r.end| && !Confirms(ReadBack(world, r.end[..|trail| + 2 * k], f), f.target)
    decreases k
  {
    var t := trail + Step(f, sample(drawn) % Int32Max);
    assert !Confirms(ReadBack(world, t, f), f.target);
    RetryAdvance(world, trail, sample, drawn, f, i, fuel, t, false);
    RetryEndsConfirmed(world, t, sample, drawn + 1, f, i + 1, fuel);
    var r := Retry(world, t, sample, drawn + 1, f, i + 1, fuel);
    if k == 1 {
      assert r.end[..|trail| + 2] == t;
    } else {
      RetryNoEarlierConfirm(world, t, sample, drawn + 1, f, i + 1, fuel, k - 1);
      assert r.end[..|trail| + 2 * k] == r.end[..|t| + 2 * (k - 1)];
    }
  }

  /** The retry loop stops exactly at the first read-back that confirms: attempt
      `k` (counted from 1) ends at `|trail| + 2 * k`, and no read-back before the
      last one confirmed, nor the last one either when the fuel ran out. */
  lemma RetryStopsAtFirst(world: seq<Action> -> Page, trail: seq<Action>, sample: nat -> nat,
                          drawn: nat, f: Filter, i: nat, fuel: nat)
    requires i <= fuel
    ensures var r := Retry(world, trail, sample, drawn, f, i, fuel);
      && (forall k :: 0 < k < r.attempts - i ==> !Confirms(ReadBack(world, r.end[..|trail| + 2 * k], f), f.target))
      && (!r.confirmed ==> forall k :: 0 < k <= r.attempts - i ==> !Confirms(ReadBack(world, r.end[..|trail| + 2 * k], f), f.target))
  {
    var r := Retry(world, trail, sample, drawn, f, i, fuel);
    forall k | 0 < k <= r.attempts - i && (k < r.attempts - i || !r.confirmed)
      ensures !Confirms(ReadBack(world, r.end[..|trail| + 2 * k], f), f.target)
    {
      RetryNoEarlierConfirm(world, trail, sample, drawn, f, i, fuel, k);
    }
  }

  /** The empty target is set like any other: a run at `model` = "" stops only
      on an empty string read back. */
  lemma EmptyTargetNeedsEmptyString(world: seq<Action> -> Page, trail: seq<Action>, sample: nat -> nat,
                                    drawn: nat, f: Filter, fuel: nat)
    requires f.target == ""
    ensures var r := Retry(world, trail, sample, drawn, f, 0, fuel);
      r.confirmed ==> ReadBack(world, r.end, f).success && ReadBack(world, r.end, f).result == JsString("")
  {
    RetryEndsConfirmed(world, trail, sample, drawn, f, 0, fuel);
  }

  // ---------------------------------------------------------------------------
  // All filters

  /** How the retry loop of one filter runs from a given trail and draw count. */
  type FilterRunner = (seq<Action>, nat, Filter) -> FilterRun

  /** The retry loop of `SelectFilterOptions` on the page `world`, with the
      generator `sample` and `fuel` attempts at most. */
  function Runner(world: seq<Action> -> Page, sample: nat -> nat, fuel: nat): FilterRunner {
    (t: seq<Action>, d: nat, f: Filter) => Retry(world, t, sample, d, f, 0, fuel)
  }

  /** How setting a list of filters ends: `tries[n]` is the number of attempts at
      the n-th filter, `done` when every filter was confirmed; the trail and the
      count of draws at the end. */
  datatype FiltersOutcome = FiltersOutcome(done: bool, tries: seq<nat>, end: seq<Action>, drawn: nat)

  /** The first `k` filters of `fs` one after the other, each by `run`: the next
      one starts from where the previous one ended, and only once the previous
      one is confirmed. */
  function Progress(run: FilterRunner, trail: seq<Action>, drawn: nat, fs: seq<Filter>, k: nat): (r: FiltersOutcome)
    requires k <= |fs|
    ensures |r.tries| <= k
    ensures r.done ==> |r.tries| == k
    ensures k > 0 ==> |r.tries| > 0
    decreases k
  {
    if k == 0 then FiltersOutcome(true, [], trail, drawn)
    else
      var p := Progress(run, trail, drawn, fs, k - 1);
      if !p.done then p
      else
        var r := run(p.end, p.drawn, fs[k - 1]);
        FiltersOutcome(r.confirmed, p.tries + [r.attempts], r.end, p.drawn + r.attempts)
  }

  /** The `k`-th filter, once all before it are confirmed: it starts where they
      ended, and its attempts are added to theirs. */
  lemma ProgressNext(run: FilterRunner, trail: seq<Action>, drawn: nat, fs: seq<Filter>, k: nat,
                     tries: seq<nat>, at: seq<Action>, d: nat,
                     confirmed: bool, attempts: nat, end: seq<Action>, drawnAfter: nat)
    requires k < |fs|
    requires Progress(run, trail, drawn, fs, k) == FiltersOutcome(true, tries, at, d)
    requires run(at, d, fs[k]) == FilterRun(confirmed, attempts, end)
    requires drawnAfter == d + attempts
    ensures Progress(run, trail, drawn, fs, k + 1) == FiltersOutcome(confirmed, tries + [attempts], end, drawnAfter)
  {
  }

  /** Once a filter is not confirmed, none after it is tried. */
  lemma {:induction false} ProgressStops(run: FilterRunner, trail: seq<Action>, drawn: nat, fs: seq<Filter>, k: nat, j: nat)
    requires k <= j <= |fs|
    requires !Progress(run, trail, drawn, fs, k).done
    ensures Progress(run, trail, drawn, fs, j) == Progress(run, trail, drawn, fs, k)
    decreases j - k
  {
    if j > k {
      ProgressStops(run, trail, drawn, fs, k, j - 1);
    }
  }

  /** Every filter is confirmed before the next one is set: when the first `j`
      filters are all confirmed, so is every shorter prefix of them. */
  lemma ProgressDoneBefore(run: FilterRunner, trail: seq<Action>, drawn: nat, fs: seq<Filter>, k: nat, j: nat)
    requires k <= j <= |fs|
    requires Progress(run, trail, drawn, fs, j).done
    ensures Progress(run, trail, drawn, fs, k).done
  {
    if !Progress(run, trail, drawn, fs, k).done {
      ProgressStops(run, trail, drawn, fs, k, j);
    }
  }

  /** What every run of the retry loop keeps: it gives up only after `fuel`
      attempts, each attempt adds two actions, and the trail only grows. */
  ghost predicate Spends(run: FilterRunner, fuel: nat) {
    forall t, d, f :: var r := run(t, d, f);
      && (!r.confirmed ==> r.attempts == fuel)
      && |r.end| == |t| + 2 * r.attempts
      && t <= r.end
  }

  lemma RunnerSpends(world: seq<Action> -> Page, sample: nat -> nat, fuel: nat)
    ensures Spends(Runner(world, sample, fuel), fuel)
  {
    forall t, d, f {
      RetryEndsConfirmed(world, t, sample, d, f, 0, fuel);
    }
  }

  /** The sum of a list of counts. */
  function Sum(ns: seq<nat>): nat
    decreases |ns|
  {
    if ns == [] then 0 else Sum(ns[..|ns| - 1]) + ns[|ns| - 1]
  }

  /** A run of the filters stops at the first filter that is never confirmed,
      after spending its fuel on it; every draw makes one attempt and every
      attempt adds two actions, so the draws and the trail grow by the sum of
      the tries, and the trail only grows. */
  lemma {:induction false} ProgressCounts(run: FilterRunner, fuel: nat, trail: seq<Action>, drawn: nat, fs: seq<Filter>, k: nat)
    requires Spends(run, fuel)
    requires k <= |fs|
    ensures var r := Progress(run, trail, drawn, fs, k);
      && (!r.done ==> r.tries[|r.tries| - 1] == fuel)
      && r.drawn == drawn + Sum(r.tries)
      && |r.end| == |trail| + 2 * Sum(r.tries)
      && trail <= r.end
    decreases k
  {
    if k > 0 {
      ProgressCounts(run, fuel, trail, drawn, fs, k - 1);
      var p := Progress(run, trail, drawn, fs, k - 1);
      if p.done {
        var r := run(p.end, p.drawn, fs[k - 1]);
        assert (p.tries + [r.attempts])[..|p.tries|] == p.tries;
      }
    }
  }

  /** The actions that follow the filters: the zip code, the search button, the page load. */
  const ZipScript: string := "document.querySelector('[data-activitykey=zip]').value=94596"
  const SearchScript: string := "document.querySelector('[data-searchtype=\"make\"]').click()"

  // ---------------------------------------------------------------------------
  // The handler's state

  /** `HandleFiltering`: its static `_searchResultUri` and `_rnd`. */
  class FilterSelector {
    var searchResultUri: string
    var rnd: Rng

    constructor (rnd: Rng)
      ensures searchResultUri == "" && this.rnd == rnd
    {
      searchResultUri := "";
      this.rnd := rnd;
    }

    /** `SetRandom`. */
    method SetRandom(rnd: Rng)
      modifies this
      ensures this.rnd == rnd && searchResultUri == old(searchResultUri)
    {
      this.rnd := rnd;
    }

    /** One round of `SelectFilterOptions` and `EnsureDataIsSelected`: draw a
        name, run the set script, wait for the select element, read its value back. */
    method SelectOnce(browser: Browser, f: Filter) returns (confirmed: bool)
      modifies browser, rnd
      ensures rnd.drawn == old(rnd.drawn) + 1
      ensures browser.trail == old(browser.trail) + Step(f, rnd.sample(old(rnd.drawn)) % Int32Max)
      ensures confirmed == Confirms(ReadBack(browser.world, browser.trail, f), f.target)
    {
      var optionAndElementRandom := rnd.Next();
      var selectFilterResponse := browser.Run(SelectScript(f.key, f.target, optionAndElementRandom));
      browser.WaitFor(WaitSelector(f.key));
      var checkFilterResponse := browser.Query(ReadBackScript(f.key));
      confirmed := Confirms(checkFilterResponse, f.target);
    }

    /** `SelectFilterOptions` with `EnsureDataIsSelected`: rounds until the
        read-back confirms the target. */
    method SelectFilterOptions(browser: Browser, f: Filter, fuel: nat) returns (confirmed: bool, attempts: nat)
      modifies browser, rnd
      ensures Retry(browser.world, old(browser.trail), rnd.sample, old(rnd.drawn), f, 0, fuel)
              == FilterRun(confirmed, attempts, browser.trail)
      ensures rnd.drawn == old(rnd.drawn) + attempts
    {
      ghost var world, sample := browser.world, rnd.sample;
      ghost var goal := Retry(world, browser.trail, sample, rnd.drawn, f, 0, fuel);
      confirmed := false;
      attempts := 0;
      while !confirmed && attempts < fuel
        invariant attempts <= fuel
        invariant rnd.drawn == old(rnd.drawn) + attempts
        invariant confirmed ==> goal == FilterRun(true, attempts, browser.trail)
        invariant !confirmed ==> goal == Retry(world, browser.trail, sample, rnd.drawn, f, attempts, fuel)
        decreases fuel - attempts
      {
        ghost var t, d := browser.trail, rnd.drawn;
        confirmed := SelectOnce(browser, f);
        RetryAdvance(world, t, sample, d, f, attempts, fuel, browser.trail, confirmed);
        attempts := attempts + 1;
      }
    }

    /** The five `SelectFilterOptions` calls that open
        `SelectFiltersAndClickSearchButton`, in their order. */
    method SelectFilters(browser: Browser, fuel: nat) returns (done: bool)
      modifies browser, rnd
      ensures var r := Progress(Runner(browser.world, rnd.sample, fuel), old(browser.trail), old(rnd.drawn), Filters, |Filters|);
        && done == r.done && rnd.drawn == r.drawn && browser.trail == r.end
    {
      ghost var run := Runner(browser.world, rnd.sample, fuel);
      ghost var t0, d0 := browser.trail, rnd.drawn;
      ghost var tries: seq<nat> := [];
      ghost var t, d := t0, d0;
      var stockType, a0 := SelectFilterOptions(browser, Filters[0], fuel);
      ProgressNext(run, t0, d0, Filters, 0, tries, t, d, stockType, a0, browser.trail, rnd.drawn);
      tries := tries + [a0];
      if !stockType {
        ProgressStops(run, t0, d0, Filters, 1, |Filters|);
        return false;
      }
      t, d := browser.trail, rnd.drawn;
      var model, a1 := SelectFilterOptions(browser, Filters[1], fuel);
      ProgressNext(run, t0, d0, Filters, 1, tries, t, d, model, a1, browser.trail, rnd.drawn);
      tries := tries + [a1];
      if !model {
        ProgressStops(run, t0, d0, Filters, 2, |Filters|);
        return false;
      }
      t, d := browser.trail, rnd.drawn;
      var make, a2 := SelectFilterOptions(browser, Filters[2], fuel);
      ProgressNext(run, t0, d0, Filters, 2, tries, t, d, make, a2, browser.trail, rnd.drawn);
      tries := tries + [a2];
      if !make {
        ProgressStops(run, t0, d0, Filters, 3, |Filters|);
        return false;
      }
      t, d := browser.trail, rnd.drawn;
      var price, a3 := SelectFilterOptions(browser, Filters[3], fuel);
      ProgressNext(run, t0, d0, Filters, 3, tries, t, d, price, a3, browser.trail, rnd.drawn);
      tries := tries + [a3];
      if !price {
        ProgressStops(run, t0, d0, Filters, 4, |Filters|);
        return false;
      }
      t, d := browser.trail, rnd.drawn;
      var distance, a4 := SelectFilterOptions(browser, Filters[4], fuel);
      ProgressNext(run, t0, d0, Filters, 4, tries, t, d, distance, a4, browser.trail, rnd.drawn);
      tries := tries + [a4];
      if !distance {
        ProgressStops(run, t0, d0, Filters, 5, |Filters|);
        return false;
      }
      done := true;
    }

    /** `SelectFiltersAndClickSearchButton`: the five filters in order, then the
        zip code, the search click and the wait for the result page, whose address
        is kept. A filter that is never confirmed stops everything after it. */
    method SelectFiltersAndClickSearchButton(browser: Browser, fuel: nat) returns (done: bool)
      modifies browser, rnd, this
      ensures rnd == old(rnd)
      ensures var r := Progress(Runner(browser.world, rnd.sample, fuel), old(browser.trail), old(rnd.drawn), Filters, |Filters|);
        && done == r.done
        && rnd.drawn == r.drawn
        && (done ==> browser.trail == r.end + [Eval(ZipScript), Eval(SearchScript), WaitForLoad]
                     && searchResultUri == browser.Address())
        && (!done ==> browser.trail == r.end && searchResultUri == old(searchResultUri))
    {
      done := SelectFilters(browser, fuel);
      if !done {
        return;
      }
      ghost var filtered := browser.trail;
      var selectFilterResponse := browser.Run(ZipScript);
      var searchButtonElement := browser.Run(SearchScript);
      browser.WaitForPageLoadEnd();
      assert filtered + [Eval(ZipScript)] + [Eval(SearchScript)] + [WaitForLoad]
          == filtered + [Eval(ZipScript), Eval(SearchScript), WaitForLoad];
      searchResultUri := browser.Address();
    }
  }
}
