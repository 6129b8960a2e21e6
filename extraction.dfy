/** Step 4 of `scrape_freedom_mobile`: reading the data usage, the plan size and the billing
    cycle off the dashboard. The browser is replaced by what it would return: the visible
    texts of the elements each query finds, in document order.

    The passes are written over the patterns they search with (`re.search` on one text,
    returning the captured groups), so that their loops and the properties of the loops
    are stated once; `Extraction` and `ExtractUsage` plug in the tracker's own three
    patterns from `Patterns`. */
module Extraction {
  import opened Wrappers
  import opened Text
  import opened Patterns

  /** The dashboard as the three queries of the extraction step see it. */
  datatype Dashboard = Dashboard(
    /** texts of the elements whose own text mentions `GB`, `Data` or `usage` */
    usageTexts: seq<string>,
    /** texts of the elements each CSS selector finds; a selector missing from the map
        finds nothing */
    classTexts: map<string, seq<string>>,
    /** texts of the elements whose own text mentions `cycle`, `Cycle`, `billing` or
        `Billing` */
    cycleTexts: seq<string>)

  /** What the first pass leaves in `usage_gb` and `plan_gb`, as the captured text. */
  datatype Reading = Reading(usage: Option<string>, plan: Option<string>)

  /** The scraper's result dictionary, amounts as captured text. */
  datatype Snapshot = Snapshot(usage: string, plan: string, cycleStart: string, cycleEnd: string)

  /** The second pass's selectors, in the order they are tried. */
  const UsageSelectors: seq<string> := [
    "[class*='usage']", "[class*='data-used']", "[class*='progress']",
    "[data-usage]", "[data-used]", "[class*='consumption']"
  ]

  /** The plan size recorded when no combined match gave one: `0.0`. */
  const DefaultPlan: string := "0"

  // ---------------------------------------------------------------------------
  // The tracker's patterns, as searches returning their groups

  /** `([\d.]+)\s*GB\s*(?:used\s*)?(?:of|/)\s*([\d.]+)\s*GB`: groups 1 and 2. */
  function CombinedGroups(s: string): Option<(string, string)> {
    match SearchCombined(s)
    case Some(m) => Some((m.used, m.total))
    case None => None
  }

  /** `([\d.]+)\s*GB`: group 1. */
  function BareGroup(s: string): Option<string> {
    match SearchBare(s)
    case Some(m) => Some(m.amount)
    case None => None
  }

  /** The date-range pattern: groups 1 and 2. */
  function RangeGroups(s: string): Option<(string, string)> {
    SearchRange(s)
  }

  /** Whatever the combined pattern finds, the bare pattern finds something too. */
  ghost predicate CombinedImpliesBareOf(combined: string -> Option<(string, string)>, bare: string -> Option<string>) {
    forall s :: combined(s).Some? ==> bare(s).Some?
  }

  lemma TrackerPatternsNest()
    ensures CombinedImpliesBareOf(CombinedGroups, BareGroup)
  {
    forall s | CombinedGroups(s).Some?
      ensures BareGroup(s).Some?
    {
      CombinedImpliesBare(s);
    }
  }

  /** Every group the usage patterns capture is `[\d.]+` text. */
  lemma TrackerGroupsAreAmounts(s: string)
    ensures CombinedGroups(s).Some? ==> IsAmount(CombinedGroups(s).value.0) && IsAmount(CombinedGroups(s).value.1)
    ensures BareGroup(s).Some? ==> IsAmount(BareGroup(s).value)
  {
    var c := SearchCombined(s);
    if c.Some? {
      CombinedAtShape(s, c.value.start);
    }
  }


  // ---------------------------------------------------------------------------
  // Searching a list of texts

  /** What pattern `m` finds in one element: it searches the stripped text; with
      `skipEmpty`, an element whose stripped text is empty is passed over unsearched. */
  function Hit<T>(m: string -> Option<T>, t: string, skipEmpty: bool): Option<T> {
    var s := Strip(t);
    if skipEmpty && s == [] then None else m(s)
  }

  /** The first element before `limit` in which `m` finds something. */
  function FirstHit<T>(texts: seq<string>, m: string -> Option<T>, skipEmpty: bool, limit: nat): (r: Option<nat>)
    requires limit <= |texts|
    ensures r.Some? ==> r.value < limit && Hit(m, texts[r.value], skipEmpty).Some?
    ensures forall j :: 0 <= j < limit && (r.None? || j < r.value) ==> Hit(m, texts[j], skipEmpty).None?
  {
    if limit == 0 then None
    else
      var before := FirstHit(texts, m, skipEmpty, limit - 1);
      if before.Some? then before
      else if Hit(m, texts[limit - 1], skipEmpty).Some? then Some(limit - 1)
      else None
  }

  /** What the first such element gives. */
  function FirstValue<T>(texts: seq<string>, m: string -> Option<T>, skipEmpty: bool, limit: nat): Option<T>
    requires limit <= |texts|
  {
    match FirstHit(texts, m, skipEmpty, limit)
    case Some(j) => Hit(m, texts[j], skipEmpty)
    case None => None
  }

  /** The first hit is the only element that finds something while nothing before it
      does. */
  lemma {:induction false} FirstHitIs<T>(texts: seq<string>, m: string -> Option<T>, skipEmpty: bool, limit: nat, j: nat)
    requires j < limit <= |texts| && Hit(m, texts[j], skipEmpty).Some?
    requires forall k :: 0 <= k < j ==> Hit(m, texts[k], skipEmpty).None?
    ensures FirstHit(texts, m, skipEmpty, limit) == Some(j)
    decreases limit
  {
    if limit == j + 1 {
      FirstHitNone(texts, m, skipEmpty, j);
    } else {
      FirstHitIs(texts, m, skipEmpty, limit - 1, j);
    }
  }

  /** `FirstValue` finds something exactly when some element does. */
  lemma FirstValueFinds<T>(texts: seq<string>, m: string -> Option<T>, skipEmpty: bool, limit: nat)
    requires limit <= |texts|
    ensures FirstValue(texts, m, skipEmpty, limit).Some? <==>
      exists j :: 0 <= j < limit && Hit(m, texts[j], skipEmpty).Some?
  {
    if FirstHit(texts, m, skipEmpty, limit).Some? {
      var j := FirstHit(texts, m, skipEmpty, limit).value;
      assert Hit(m, texts[j], skipEmpty).Some?;
    }
  }

  /** Extending the search by one element. */
  lemma FirstHitStep<T>(texts: seq<string>, m: string -> Option<T>, skipEmpty: bool, i: nat)
    requires i < |texts|
    ensures FirstHit(texts, m, skipEmpty, i + 1) ==
      (if FirstHit(texts, m, skipEmpty, i).Some? then FirstHit(texts, m, skipEmpty, i)
       else if Hit(m, texts[i], skipEmpty).Some? then Some(i) else None)
  {
  }

  /** Nothing is found when no element finds anything. */
  lemma FirstHitNone<T>(texts: seq<string>, m: string -> Option<T>, skipEmpty: bool, limit: nat)
    requires limit <= |texts|
    requires forall j :: 0 <= j < limit ==> Hit(m, texts[j], skipEmpty).None?
    ensures FirstHit(texts, m, skipEmpty, limit).None?
  {
  }

  /** The same for the value found. */
  lemma FirstValueStep<T>(texts: seq<string>, m: string -> Option<T>, skipEmpty: bool, i: nat)
    requires i < |texts|
    ensures FirstValue(texts, m, skipEmpty, i + 1) ==
      (if FirstValue(texts, m, skipEmpty, i).Some? then FirstValue(texts, m, skipEmpty, i)
       else Hit(m, texts[i], skipEmpty))
  {
    FirstHitStep(texts, m, skipEmpty, i);
  }

  // ---------------------------------------------------------------------------
  // First pass

  /** The first pass, stated without its loop: the first combined match decides both
      values; without one, the first bare match decides the usage and the plan stays
      unset. Empty texts are skipped. */
  function PassOne(texts: seq<string>, combined: string -> Option<(string, string)>, bare: string -> Option<string>): Reading {
    match FirstHit(texts, combined, true, |texts|)
    case Some(c) => Reading(Some(Hit(combined, texts[c], true).value.0), Some(Hit(combined, texts[c], true).value.1))
    case None => Reading(FirstValue(texts, bare, true, |texts|), None)
  }

  /** The pass's result when element `c` holds its first combined match. */
  lemma PassOneAt(texts: seq<string>, combined: string -> Option<(string, string)>, bare: string -> Option<string>, c: nat)
    requires c < |texts| && FirstHit(texts, combined, true, c).None? && Hit(combined, texts[c], true).Some?
    ensures PassOne(texts, combined, bare) ==
      Reading(Some(Hit(combined, texts[c], true).value.0), Some(Hit(combined, texts[c], true).value.1))
  {
    FirstHitStep(texts, combined, true, c);
    FirstHitIs(texts, combined, true, |texts|, c);
  }

  /** The loop over the elements of the first query: skip empty texts; a combined match
      sets usage and plan and stops; a bare match sets usage while it is still unset. */
  method FirstPass(texts: seq<string>, combined: string -> Option<(string, string)>, bare: string -> Option<string>)
    returns (usage: Option<string>, plan: Option<string>)
    ensures Reading(usage, plan) == PassOne(texts, combined, bare)
  {
    usage, plan := None, None;
    var i := 0;
    while i < |texts|
      invariant 0 <= i <= |texts|
      invariant FirstHit(texts, combined, true, i).None?
      invariant plan.None?
      invariant usage == FirstValue(texts, bare, true, i)
    {
      var text := Strip(texts[i]);
      if text != [] {
        var m := combined(text);
        if m.Some? {
          usage, plan := Some(m.value.0), Some(m.value.1);
          PassOneAt(texts, combined, bare, i);
          return;
        }
        var b := bare(text);
        if b.Some? && usage.None? {
          usage := b;
        }
      }
      FirstHitStep(texts, combined, true, i);
      FirstValueStep(texts, bare, true, i);
      i := i + 1;
      assert usage == FirstValue(texts, bare, true, i);
    }
  }

  /** A combined match overrides whatever bare match came before it: both values are the
      combined match's. */
  lemma CombinedOverridesBare(texts: seq<string>, combined: string -> Option<(string, string)>, bare: string -> Option<string>, j: nat, c: nat)
    requires j < c < |texts| && Hit(bare, texts[j], true).Some? && Hit(combined, texts[c], true).Some?
    requires forall k :: 0 <= k < c ==> Hit(combined, texts[k], true).None?
    ensures PassOne(texts, combined, bare).usage == Some(Hit(combined, texts[c], true).value.0)
    ensures PassOne(texts, combined, bare).plan == Some(Hit(combined, texts[c], true).value.1)
  {
    FirstHitIs(texts, combined, true, |texts|, c);
  }

  /** Without any combined match, the first bare match is kept and later ones are
      ignored. */
  lemma FirstBareIsKept(texts: seq<string>, combined: string -> Option<(string, string)>, bare: string -> Option<string>, b: nat)
    requires b < |texts| && Hit(bare, texts[b], true).Some?
    requires forall k :: 0 <= k < |texts| ==> Hit(combined, texts[k], true).None?
    requires forall k :: 0 <= k < b ==> Hit(bare, texts[k], true).None?
    ensures PassOne(texts, combined, bare) == Reading(Hit(bare, texts[b], true), None)
  {
    FirstHitIs(texts, bare, true, |texts|, b);
  }

  /** When the combined pattern implies the bare one, the first pass finds a usage exactly
      when some text matches the bare pattern. */
  lemma PassOneFindsUsage(texts: seq<string>, combined: string -> Option<(string, string)>, bare: string -> Option<string>)
    requires CombinedImpliesBareOf(combined, bare)
    ensures PassOne(texts, combined, bare).usage.Some? <==>
      exists j :: 0 <= j < |texts| && Hit(bare, texts[j], true).Some?
  {
    FirstValueFinds(texts, bare, true, |texts|);
    var c := FirstHit(texts, combined, true, |texts|);
    if c.Some? {
      assert Hit(bare, texts[c.value], true).Some?;
    }
  }

  /** It sets a plan exactly when some text matches the combined pattern. */
  lemma PassOneFindsPlan(texts: seq<string>, combined: string -> Option<(string, string)>, bare: string -> Option<string>)
    ensures PassOne(texts, combined, bare).plan.Some? <==>
      exists j :: 0 <= j < |texts| && Hit(combined, texts[j], true).Some?
  {
    var c := FirstHit(texts, combined, true, |texts|);
    if c.Some? {
      assert Hit(combined, texts[c.value], true).Some?;
    }
  }

  // ---------------------------------------------------------------------------
  // Second pass

  /** The elements a selector finds. */
  function ElementsOf(found: map<string, seq<string>>, selector: string): seq<string> {
    if selector in found then found[selector] else []
  }

  /** The usage the `k`-th selector yields: the first of its elements the bare pattern
      matches (this pass does not skip empty texts). */
  function SelectorUsage(found: map<string, seq<string>>, bare: string -> Option<string>, k: nat): Option<string>
    requires k < |UsageSelectors|
  {
    var elems := ElementsOf(found, UsageSelectors[k]);
    FirstValue(elems, bare, false, |elems|)
  }

  /** The first selector before `limit` that yields a usage. */
  function FirstSelector(found: map<string, seq<string>>, bare: string -> Option<string>, limit: nat): (r: Option<nat>)
    requires limit <= |UsageSelectors|
    ensures r.Some? ==> r.value < limit && SelectorUsage(found, bare, r.value).Some?
    ensures forall k :: 0 <= k < limit && (r.None? || k < r.value) ==> SelectorUsage(found, bare, k).None?
  {
    if limit == 0 then None
    else
      var before := FirstSelector(found, bare, limit - 1);
      if before.Some? then before
      else if SelectorUsage(found, bare, limit - 1).Some? then Some(limit - 1)
      else None
  }

  /** The second pass, stated without its loops: the first bare match, in selector order
      and then element order. */
  function PassTwo(found: map<string, seq<string>>, bare: string -> Option<string>): Option<string> {
    match FirstSelector(found, bare, |UsageSelectors|)
    case Some(k) => SelectorUsage(found, bare, k)
    case None => None
  }

  /** The second pass's result when selector `k` is the first to yield a usage. */
  lemma PassTwoAt(found: map<string, seq<string>>, bare: string -> Option<string>, k: nat)
    requires k < |UsageSelectors| && SelectorUsage(found, bare, k).Some?
    requires forall m :: 0 <= m < k ==> SelectorUsage(found, bare, m).None?
    ensures PassTwo(found, bare) == SelectorUsage(found, bare, k)
  {
    FirstSelectorIs(found, bare, |UsageSelectors|, k);
  }

  /** Selector `k` is the first to yield a usage below any `limit` beyond it. */
  lemma {:induction false} FirstSelectorIs(found: map<string, seq<string>>, bare: string -> Option<string>, limit: nat, k: nat)
    requires k < limit <= |UsageSelectors| && SelectorUsage(found, bare, k).Some?
    requires forall m :: 0 <= m < k ==> SelectorUsage(found, bare, m).None?
    ensures FirstSelector(found, bare, limit) == Some(k)
    decreases limit
  {
    if limit == k + 1 {
      FirstSelectorNone(found, bare, k);
    } else {
      FirstSelectorIs(found, bare, limit - 1, k);
    }
  }

  /** No selector before `limit` is found when none yields a usage. */
  lemma FirstSelectorNone(found: map<string, seq<string>>, bare: string -> Option<string>, limit: nat)
    requires limit <= |UsageSelectors|
    requires forall m :: 0 <= m < limit ==> SelectorUsage(found, bare, m).None?
    ensures FirstSelector(found, bare, limit).None?
  {
  }

  /** The `k`-th selector's usage when its element `i` is the first the pattern matches. */
  lemma SelectorUsageAt(found: map<string, seq<string>>, bare: string -> Option<string>, k: nat, i: nat)
    requires k < |UsageSelectors|
    requires var elems := ElementsOf(found, UsageSelectors[k]);
      i < |elems| && FirstHit(elems, bare, false, i).None? && Hit(bare, elems[i], false).Some?
    ensures SelectorUsage(found, bare, k) == Hit(bare, ElementsOf(found, UsageSelectors[k])[i], false)
  {
    var elems := ElementsOf(found, UsageSelectors[k]);
    FirstHitStep(elems, bare, false, i);
    FirstHitIs(elems, bare, false, |elems|, i);
  }

  /** The loops over the selectors and their elements. A selector whose query fails is one
      that finds fewer elements, so the texts it is given are all this pass needs. */
  method SecondPass(found: map<string, seq<string>>, bare: string -> Option<string>) returns (usage: Option<string>)
    ensures usage == PassTwo(found, bare)
  {
    usage := None;
    var k := 0;
    while k < |UsageSelectors|
      invariant 0 <= k <= |UsageSelectors|
      invariant FirstSelector(found, bare, k).None?
      invariant usage.None?
    {
      var elems := ElementsOf(found, UsageSelectors[k]);
      var i := 0;
      while i < |elems|
        invariant 0 <= i <= |elems|
        invariant FirstHit(elems, bare, false, i).None?
        invariant usage.None?
      {
        var m := bare(Strip(elems[i]));
        if m.Some? {
          usage := m;
          SelectorUsageAt(found, bare, k, i);
          PassTwoAt(found, bare, k);
          return;
        }
        FirstHitStep(elems, bare, false, i);
        i := i + 1;
      }
      SelectorUsageNone(found, bare, k);
      k := k + 1;
    }
  }

  /** A selector none of whose elements the bare pattern matches yields no usage. */
  lemma SelectorUsageNone(found: map<string, seq<string>>, bare: string -> Option<string>, k: nat)
    requires k < |UsageSelectors|
    requires var elems := ElementsOf(found, UsageSelectors[k]);
      FirstHit(elems, bare, false, |elems|).None?
    ensures SelectorUsage(found, bare, k).None?
  {
  }

  /** The second pass finds a usage exactly when the bare pattern matches some element of
      some selector. */
  lemma PassTwoFindsUsage(found: map<string, seq<string>>, bare: string -> Option<string>)
    ensures PassTwo(found, bare).Some? <==>
      exists k, j :: 0 <= k < |UsageSelectors| && 0 <= j < |ElementsOf(found, UsageSelectors[k])|
        && Hit(bare, ElementsOf(found, UsageSelectors[k])[j], false).Some?
  {
    if PassTwo(found, bare).None? {
      forall k, j | 0 <= k < |UsageSelectors| && 0 <= j < |ElementsOf(found, UsageSelectors[k])|
        ensures Hit(bare, ElementsOf(found, UsageSelectors[k])[j], false).None?
      {
        var elems := ElementsOf(found, UsageSelectors[k]);
        assert SelectorUsage(found, bare, k).None?;
        FirstValueFinds(elems, bare, false, |elems|);
      }
    } else {
      var k := FirstSelector(found, bare, |UsageSelectors|).value;
      var elems := ElementsOf(found, UsageSelectors[k]);
      var j := FirstHit(elems, bare, false, |elems|).value;
      assert Hit(bare, ElementsOf(found, UsageSelectors[k])[j], false).Some?;
    }
  }

  // ---------------------------------------------------------------------------
  // Billing cycle

  /** The cycle dates the first matching element gives, or two empty strings. */
  function Cycle(texts: seq<string>, range: string -> Option<(string, string)>): (string, string) {
    match FirstValue(texts, range, false, |texts|)
    case Some(p) => p
    case None => ("", "")
  }

  /** The loop over the cycle elements: the first date range found wins. */
  method CycleDates(texts: seq<string>, range: string -> Option<(string, string)>) returns (start: string, end: string)
    ensures (start, end) == Cycle(texts, range)
  {
    start, end := "", "";
    var i := 0;
    while i < |texts|
      invariant 0 <= i <= |texts|
      invariant FirstHit(texts, range, false, i).None?
      invariant start == "" && end == ""
    {
      var m := range(Strip(texts[i]));
      if m.Some? {
        start, end := m.value.0, m.value.1;
        FirstHitStep(texts, range, false, i);
        FirstHitIs(texts, range, false, |texts|, i);
        return;
      }
      FirstHitStep(texts, range, false, i);
      i := i + 1;
    }
  }

  /** With the tracker's date pattern, the cycle is either not found at all, or both ends
      are dates. */
  lemma CycleIsDatesOrEmpty(texts: seq<string>)
    ensures var c := Cycle(texts, RangeGroups);
      c == ("", "") || (IsDateText(c.0) && IsDateText(c.1))
  {
    var j := FirstHit(texts, RangeGroups, false, |texts|);
    if j.Some? {
      RangeCapturesAreDates(Strip(texts[j.value]));
    }
  }

  // ---------------------------------------------------------------------------
  // The extraction step

  /** The step's result with the given patterns, stated without its loops: no result
      without a usage; the second pass only when the first found none; the plan `0` when
      no combined match set it. */
  function ExtractionWith(d: Dashboard, combined: string -> Option<(string, string)>, bare: string -> Option<string>,
                          range: string -> Option<(string, string)>): Option<Snapshot> {
    var one := PassOne(d.usageTexts, combined, bare);
    var usage := if one.usage.Some? then one.usage else PassTwo(d.classTexts, bare);
    match usage
    case None => None
    case Some(u) =>
      var cycle := Cycle(d.cycleTexts, range);
      Some(Snapshot(u, if one.plan.Some? then one.plan.value else DefaultPlan, cycle.0, cycle.1))
  }

  /** Extraction as the scraper runs it: first pass, second pass if needed, cycle, then
      the result or nothing. */
  method ExtractUsageWith(d: Dashboard, combined: string -> Option<(string, string)>, bare: string -> Option<string>,
                          range: string -> Option<(string, string)>) returns (r: Option<Snapshot>)
    ensures r == ExtractionWith(d, combined, bare, range)
  {
    var usage, plan := FirstPass(d.usageTexts, combined, bare);
    if usage.None? {
      usage := SecondPass(d.classTexts, bare);
    }
    var start, end := CycleDates(d.cycleTexts, range);
    if usage.None? {
      return None;
    }
    if plan.None? {
      plan := Some(DefaultPlan);
    }
    r := Some(Snapshot(usage.value, plan.value, start, end));
  }

  /** The step's result with the tracker's patterns. */
  function Extraction(d: Dashboard): Option<Snapshot> {
    ExtractionWith(d, CombinedGroups, BareGroup, RangeGroups)
  }

  method ExtractUsage(d: Dashboard) returns (r: Option<Snapshot>)
    ensures r == Extraction(d)
  {
    r := ExtractUsageWith(d, CombinedGroups, BareGroup, RangeGroups);
  }

  /** The class-selector pass is a fallback only: once some first-query text matches the
      bare pattern, what the selectors find makes no difference. */
  lemma SelectorsOnlyAsFallback(d: Dashboard, other: map<string, seq<string>>)
    requires exists j :: 0 <= j < |d.usageTexts| && Hit(BareGroup, d.usageTexts[j], true).Some?
    ensures Extraction(d.(classTexts := other)) == Extraction(d)
  {
    TrackerPatternsNest();
    PassOneFindsUsage(d.usageTexts, CombinedGroups, BareGroup);
  }

  /** No usage anywhere means no result; any usage gives one. */
  lemma NoUsageNoResult(d: Dashboard)
    ensures Extraction(d).None? <==>
      (forall j :: 0 <= j < |d.usageTexts| ==> Hit(BareGroup, d.usageTexts[j], true).None?)
      && PassTwo(d.classTexts, BareGroup).None?
  {
    TrackerPatternsNest();
    PassOneFindsUsage(d.usageTexts, CombinedGroups, BareGroup);
  }

  /** A result's plan is `0` unless some first-query text matched the combined pattern,
      the amounts are always `[\d.]+` text, and the cycle is two dates or two empty
      strings. */
  lemma ResultShape(d: Dashboard)
    requires Extraction(d).Some?
    ensures (forall j :: 0 <= j < |d.usageTexts| ==> Hit(CombinedGroups, d.usageTexts[j], true).None?) ==>
      Extraction(d).value.plan == DefaultPlan
    ensures IsAmount(Extraction(d).value.usage) && IsAmount(Extraction(d).value.plan)
    ensures var r := Extraction(d).value;
      (r.cycleStart == "" && r.cycleEnd == "") || (IsDateText(r.cycleStart) && IsDateText(r.cycleEnd))
  {
    PassOneFindsPlan(d.usageTexts, CombinedGroups, BareGroup);
    CycleIsDatesOrEmpty(d.cycleTexts);
    UsageIsAmount(d);
    PlanIsAmount(d);
  }

  /** The usage reported is the group of a match, so `[\d.]+` text. */
  lemma UsageIsAmount(d: Dashboard)
    requires Extraction(d).Some?
    ensures IsAmount(Extraction(d).value.usage)
  {
    var one := PassOne(d.usageTexts, CombinedGroups, BareGroup);
    var c := FirstHit(d.usageTexts, CombinedGroups, true, |d.usageTexts|);
    if one.usage.None? {
      var k := FirstSelector(d.classTexts, BareGroup, |UsageSelectors|).value;
      var elems := ElementsOf(d.classTexts, UsageSelectors[k]);
      var j := FirstHit(elems, BareGroup, false, |elems|).value;
      TrackerGroupsAreAmounts(Strip(elems[j]));
    } else if c.Some? {
      TrackerGroupsAreAmounts(Strip(d.usageTexts[c.value]));
    } else {
      var b := FirstHit(d.usageTexts, BareGroup, true, |d.usageTexts|);
      TrackerGroupsAreAmounts(Strip(d.usageTexts[b.value]));
    }
  }

  /** The plan reported is group 2 of a combined match, or `0`. */
  lemma PlanIsAmount(d: Dashboard)
    requires Extraction(d).Some?
    ensures IsAmount(Extraction(d).value.plan)
  {
    var c := FirstHit(d.usageTexts, CombinedGroups, true, |d.usageTexts|);
    if c.Some? {
      TrackerGroupsAreAmounts(Strip(d.usageTexts[c.value]));
    } else {
      assert IsDigit(DefaultPlan[0]);
    }
  }
}
