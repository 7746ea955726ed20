/** `click_search`: the search control is located through an ordered list
    of fallback selectors, the first visible one is clicked, and every
    failure ends in a warning rather than an exception. */
module SearchTrigger {
  import opened Wrappers

  /** The three XPath selectors, tried in this order. */
  const SearchSelectors: seq<string> := [
    "//button[@class='ant-btn ant-btn-primary ant-btn-rtl ant-btn-primary ant-btn-primary--success']/span[1]",
    "//button[contains(@class, 'ant-btn-primary')]//span[contains(text(), 'بحث')]/..",
    "//button[contains(@class, 'ant-btn')]//span[contains(text(), 'بحث')]/.."
  ]

  /** What `is_visible()` gives on a located control: it is visible, it is
      not, or the call raises. */
  datatype Visibility = Visible | Hidden | Raises

  /** One turn of the selector loop: `page.locator(selector).first` either
      raises, leaving `search_button` as it was, or yields a control that
      becomes `search_button` and is asked whether it is visible. */
  datatype Probe = Located(visibility: Visibility) | LocateRaises

  /** Clicked(i): the control of selector i was scrolled into view and
      clicked. NotFound: the "could not find search button" warning. Failed:
      an exception was caught and logged as a warning. */
  datatype SearchOutcome = Clicked(selector: nat) | NotFound | Failed

  /** The index of the first selector whose control was located and
      visible, if any. */
  function FirstVisible(probes: seq<Probe>): (r: Option<nat>)
    ensures r.Some? ==> r.value < |probes| && probes[r.value] == Located(Visible)
    ensures r.Some? ==> forall j :: 0 <= j < r.value ==> probes[j] != Located(Visible)
    ensures r.None? ==> forall j :: 0 <= j < |probes| ==> probes[j] != Located(Visible)
  {
    if probes == [] then None
    else if probes[0] == Located(Visible) then Some(0)
    else match FirstVisible(probes[1..])
      case None => None
      case Some(i) => Some(i + 1)
  }

  /** The index of the last selector whose control was located, if any. */
  function LastLocated(probes: seq<Probe>): (r: Option<nat>)
    ensures r.Some? ==> r.value < |probes| && probes[r.value].Located?
    ensures r.Some? ==> forall j :: r.value < j < |probes| ==> probes[j] == LocateRaises
    ensures r.None? ==> forall j :: 0 <= j < |probes| ==> probes[j] == LocateRaises
  {
    if probes == [] then None
    else if probes[|probes| - 1].Located? then Some(|probes| - 1)
    else LastLocated(probes[..|probes| - 1])
  }

  /** The control `search_button` holds when the loop ends: the first
      visible one, or else the last one located (a hidden or raising probe
      does not stop the loop), or none when every lookup raised. */
  function Chosen(probes: seq<Probe>): (r: Option<nat>)
    ensures r.Some? ==> r.value < |probes| && probes[r.value].Located?
    ensures r.None? <==> forall j :: 0 <= j < |probes| ==> probes[j] == LocateRaises
    ensures FirstVisible(probes).Some? ==> r == FirstVisible(probes)
  {
    if FirstVisible(probes).Some? then FirstVisible(probes) else LastLocated(probes)
  }

  /** Adding one probe to a run with no visible control so far: the last
      located control is the new one when it was located. */
  lemma LastLocatedSnoc(probes: seq<Probe>, i: nat)
    requires i < |probes|
    ensures LastLocated(probes[..i + 1])
            == if probes[i].Located? then Some(i) else LastLocated(probes[..i])
  {
    assert probes[..i + 1][..i] == probes[..i];
  }

  /** `click_search` over the probes of the source's selectors, in list
      order. The loop keeps the last control it located and stops at the
      first visible one; `recheck` is what the second `is_visible()` on the
      kept control gives, and `clickFails` says whether scrolling to it or
      clicking it raises. Every exception ends in a warning. */
  method ClickSearch(probes: seq<Probe>, recheck: Visibility, clickFails: bool) returns (outcome: SearchOutcome)
    requires |probes| == |SearchSelectors|
    ensures outcome.Clicked? <==> Chosen(probes).Some? && recheck == Visible && !clickFails
    ensures outcome.Clicked? ==> outcome == Clicked(Chosen(probes).value)
    ensures outcome == NotFound <==> Chosen(probes).None? || recheck == Hidden
    ensures outcome == Failed <==>
              Chosen(probes).Some? && (recheck == Raises || (recheck == Visible && clickFails))
  {
    var searchButton: Option<nat> := None;
    var i := 0;
    while i < |probes|
      invariant 0 <= i <= |probes|
      invariant forall j :: 0 <= j < i ==> probes[j] != Located(Visible)
      invariant searchButton == LastLocated(probes[..i])
    {
      LastLocatedSnoc(probes, i);
      if probes[i].Located? {
        searchButton := Some(i);
        if probes[i].visibility == Visible {
          break;
        }
      }
      i := i + 1;
    }
    if searchButton.None? {
      assert probes[..|probes|] == probes;
      outcome := NotFound;
    } else {
      match recheck {
        case Visible =>
          outcome := if clickFails then Failed else Clicked(searchButton.value);
        case Hidden =>
          outcome := NotFound;
        case Raises =>
          outcome := Failed;
      }
    }
  }

  /** With the source's three selectors: the second is clicked when the first
      is hidden and the second visible, whatever the third would say. */
  method FallbackExample(third: Probe) returns (outcome: SearchOutcome)
    ensures outcome == Clicked(1)
  {
    var probes := [Located(Hidden), Located(Visible), third];
    assert probes[1..][0] == Located(Visible);
    assert FirstVisible(probes) == Some(1);
    outcome := ClickSearch(probes, Visible, false);
  }

  /** With no visible selector, the search is skipped with a warning and no
      exception. */
  method NoneVisibleExample() returns (outcome: SearchOutcome)
    ensures outcome == NotFound
  {
    outcome := ClickSearch([Located(Raises), Located(Hidden), Located(Hidden)], Hidden, false);
  }

  /** A control visible in the loop but hidden when asked again gives the
      "could not find" warning; one whose second `is_visible()` raises gives
      the error warning. Neither is clicked. */
  method VanishedExample(second: Probe, third: Probe) returns (hidden: SearchOutcome, raising: SearchOutcome)
    ensures hidden == NotFound && raising == Failed
  {
    hidden := ClickSearch([Located(Visible), second, third], Hidden, false);
    raising := ClickSearch([Located(Visible), second, third], Raises, false);
  }

  /** When every lookup raises, `search_button` stays `None` and the
      warning is given without asking anything again. */
  method NoLocatorExample(recheck: Visibility, clickFails: bool) returns (outcome: SearchOutcome)
    ensures outcome == NotFound
  {
    outcome := ClickSearch([LocateRaises, LocateRaises, LocateRaises], recheck, clickFails);
  }
}
