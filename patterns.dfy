/** Hand-written scanners for the three regular expressions of the extraction step, with
    `re.search` semantics (the leftmost position where the pattern matches; at that
    position, the captures that Python's backtracking matcher settles on):

      Combined:  ([\d.]+)\s*GB\s*(?:used\s*)?(?:of|/)\s*([\d.]+)\s*GB      (IGNORECASE)
      Bare:      ([\d.]+)\s*GB                                            (IGNORECASE)
      Range:     (\w{3}\s+\d{1,2}|\d{4}-\d{2}-\d{2})\s*[-–to]+\s*(\w{3}\s+\d{1,2}|\d{4}-\d{2}-\d{2})

    Captures stay text; `float()` of them is not modelled. */
module Patterns {
  import opened Wrappers
  import opened Text

  /** `[\d.]` */
  predicate IsNumberChar(c: char) {
    IsDigit(c) || c == '.'
  }

  /** `\w`, for ASCII: letters, digits and underscore. */
  predicate IsWordChar(c: char) {
    ('a' <= c <= 'z') || ('A' <= c <= 'Z') || IsDigit(c) || c == '_'
  }

  /** `[-–to]`: hyphen, en dash, `t` and `o`. */
  predicate IsRangeSeparator(c: char) {
    c == '-' || c == '\U{2013}' || c == 't' || c == 'o'
  }

  predicate AllIn(s: string, a: nat, b: nat, p: char -> bool)
    requires a <= b <= |s|
  {
    forall k :: a <= k < b ==> p(s[k])
  }

  /** The first character of a (letter-initial) word match is that letter in either case,
      so it is neither whitespace, nor part of a number, nor a slash. */
  lemma WordAtHead(s: string, k: nat, w: string)
    requires OccursAnyCaseAt(s, w, k) && |w| > 0 && 'a' <= w[0] <= 'z'
    ensures LowerChar(s[k]) == w[0]
    ensures !IsSpace(s[k]) && !IsNumberChar(s[k]) && s[k] != '/'
  {
    assert LowerChar(s[k + 0]) == w[0];
  }

  /** A word does not occur where its first letter is missing. */
  lemma NotWordAt(s: string, k: nat, w: string)
    requires |w| > 0 && (k + |w| > |s| || LowerChar(s[k]) != w[0])
    ensures !OccursAnyCaseAt(s, w, k)
  {
    if k + |w| <= |s| {
      assert s[k + 0] == s[k];
    }
  }

  /** A non-empty run of `[\d.]`, as both groups capture. */
  predicate IsAmount(t: string) {
    t != [] && forall k :: 0 <= k < |t| ==> IsNumberChar(t[k])
  }

  // ---------------------------------------------------------------------------
  // Bare pattern

  /** `([\d.]+)\s*GB` at position `i`: the capture, when the pattern matches there. Each
      repetition is greedy and, as `BareSplitUnique` shows, never has to give back. */
  function BareAt(s: string, i: nat): (r: Option<string>)
    requires i <= |s|
    ensures r.Some? ==> IsAmount(r.value)
  {
    var j := RunEnd(s, i, IsNumberChar);
    if j == i then None
    else
      var k := RunEnd(s, j, IsSpace);
      if OccursAnyCaseAt(s, "gb", k) then Some(s[i..j]) else None
  }

  /** The regex's own meaning: `s[i..j]` is one or more of `[\d.]`, then `s[j..k]` is
      whitespace, then `GB` in any case. */
  predicate BareSplit(s: string, i: nat, j: nat, k: nat) {
    i < j <= k <= |s| && AllIn(s, i, j, IsNumberChar) && AllIn(s, j, k, IsSpace) && OccursAnyCaseAt(s, "gb", k)
  }

  /** Every way the pattern can match at `i` gives the same capture, the one `BareAt`
      returns: so `BareAt` is `None` exactly when the regex cannot match at `i`. */
  lemma BareSplitUnique(s: string, i: nat, j: nat, k: nat)
    requires BareSplit(s, i, j, k)
    ensures BareAt(s, i) == Some(s[i..j])
  {
    BareSplitEnds(s, i, j, k);
  }

  /** The boundaries of a bare match are where the greedy runs stop. */
  lemma BareSplitEnds(s: string, i: nat, j: nat, k: nat)
    requires BareSplit(s, i, j, k)
    ensures RunEnd(s, i, IsNumberChar) == j && RunEnd(s, j, IsSpace) == k
  {
    WordAtHead(s, k, "gb");
    if j < k {
      assert IsSpace(s[j]);
    }
    RunEndUnique(s, i, j, IsNumberChar);
    RunEndUnique(s, j, k, IsSpace);
  }

  lemma BareAtSound(s: string, i: nat)
    requires i <= |s| && BareAt(s, i).Some?
    ensures var j := RunEnd(s, i, IsNumberChar); BareSplit(s, i, j, RunEnd(s, j, IsSpace))
  {
  }

  /** A match of `([\d.]+)\s*GB` found by `re.search`: where it starts and its group 1. */
  datatype BareMatch = BareMatch(start: nat, amount: string)

  /** `re.search` for the bare pattern, from position `from` on. */
  function SearchBare(s: string, from: nat := 0): (r: Option<BareMatch>)
    requires from <= |s|
    ensures r.Some? ==> from <= r.value.start < |s| && BareAt(s, r.value.start) == Some(r.value.amount)
    ensures forall i :: from <= i < |s| && (r.None? || i < r.value.start) ==> BareAt(s, i).None?
    decreases |s| - from
  {
    if from == |s| then None
    else
      var m := BareAt(s, from);
      if m.Some? then Some(BareMatch(from, m.value)) else SearchBare(s, from + 1)
  }

  // ---------------------------------------------------------------------------
  // Combined pattern

  /** `\s*(?:used\s*)?(?:of|/)` from position `k`, just after the first `GB`: where it
      ends, when it matches there. */
  function ConnectiveAt(s: string, k: nat): (r: Option<nat>)
    requires k <= |s|
    ensures r.Some? ==> k < r.value <= |s|
  {
    var k2 := RunEnd(s, k, IsSpace);
    var k3 := UsedEnd(s, k2);
    if OccursAnyCaseAt(s, "of", k3) then Some(k3 + 2)
    else if k3 < |s| && s[k3] == '/' then Some(k3 + 1)
    else None
  }

  /** `(?:used\s*)?` from position `k2`: where it ends, taking `used` and the spaces after
      it whenever they are there. */
  function UsedEnd(s: string, k2: nat): (k3: nat)
    requires k2 <= |s|
    ensures k2 <= k3 <= |s|
  {
    if OccursAnyCaseAt(s, "used", k2) then RunEnd(s, k2 + 4, IsSpace) else k2
  }

  /** What follows the first `GB` (at `k1`): `\s*(?:used\s*)?(?:of|/)\s*([\d.]+)\s*GB`,
      that is the connective, spaces and the bare pattern again; its capture. */
  function TotalAfter(s: string, k1: nat): (r: Option<string>)
    requires k1 + 2 <= |s|
  {
    match ConnectiveAt(s, k1 + 2)
    case None => None
    case Some(k4) => BareAt(s, RunEnd(s, k4, IsSpace))
  }

  /** `([\d.]+)\s*GB\s*(?:used\s*)?(?:of|/)\s*([\d.]+)\s*GB` at position `i`: both
      captures, when the pattern matches there. */
  function CombinedAt(s: string, i: nat): (r: Option<(string, string)>)
    requires i <= |s|
  {
    var j1 := RunEnd(s, i, IsNumberChar);
    if j1 == i then None
    else
      var k1 := RunEnd(s, j1, IsSpace);
      if !OccursAnyCaseAt(s, "gb", k1) then None
      else
        match TotalAfter(s, k1)
        case None => None
        case Some(total) => Some((s[i..j1], total))
  }

  /** A combined match starts with a bare match, whose number is its group 1; its group 2
      is `[\d.]+` text too. */
  lemma CombinedAtShape(s: string, i: nat)
    requires i <= |s| && CombinedAt(s, i).Some?
    ensures BareAt(s, i) == Some(CombinedAt(s, i).value.0)
    ensures IsAmount(CombinedAt(s, i).value.1)
  {
  }

  /** `s[k3..k4]` is `of` (any case) or `/`. */
  predicate OfOrSlash(s: string, k3: nat, k4: nat) {
    (OccursAnyCaseAt(s, "of", k3) && k4 == k3 + 2) || (k3 < |s| && s[k3] == '/' && k4 == k3 + 1)
  }

  /** The connective's own meaning: spaces `[k, k2)`, optionally `used` and spaces up to
      `k3`, then `of` or `/` up to `k4`. */
  predicate ConnectiveSplit(s: string, k: nat, k2: nat, k3: nat, k4: nat) {
    && k <= k2 <= k3 <= k4 <= |s|
    && AllIn(s, k, k2, IsSpace)
    && (k3 == k2 || (OccursAnyCaseAt(s, "used", k2) && k2 + 4 <= k3 && AllIn(s, k2 + 4, k3, IsSpace)))
    && OfOrSlash(s, k3, k4)
  }

  /** The connective matches in one way only, ending where `ConnectiveAt` says. */
  lemma ConnectiveSplitUnique(s: string, k: nat, k2: nat, k3: nat, k4: nat)
    requires ConnectiveSplit(s, k, k2, k3, k4)
    ensures ConnectiveAt(s, k) == Some(k4)
  {
    if OccursAnyCaseAt(s, "of", k3) {
      WordAtHead(s, k3, "of");
    }
    if k3 == k2 {
      if OccursAnyCaseAt(s, "used", k2) {
        // `used` and `of` / `/` cannot both start at k2
        WordAtHead(s, k2, "used");
        assert false;
      }
    } else {
      WordAtHead(s, k2, "used");
      RunEndUnique(s, k2 + 4, k3, IsSpace);
    }
    RunEndUnique(s, k, k2, IsSpace);
  }

  /** The regex's own meaning, one position per boundary: the bare pattern with its number
      at `[i, j1)` and `GB` at `k1`, the connective up to `k4`, spaces up to `k5`, and the
      bare pattern again with its number at `[k5, j2)` and `GB` at `k6`. */
  predicate CombinedSplit(s: string, i: nat, j1: nat, k1: nat, k2: nat, k3: nat, k4: nat, k5: nat, j2: nat, k6: nat) {
    && BareSplit(s, i, j1, k1) && ConnectiveSplit(s, k1 + 2, k2, k3, k4)
    && k4 <= k5 <= |s| && AllIn(s, k4, k5, IsSpace) && BareSplit(s, k5, j2, k6)
  }

  /** Every way the combined pattern can match at `i` gives the captures `CombinedAt`
      returns, so the scanner misses no match and backtracking changes no capture. */
  lemma CombinedSplitUnique(s: string, i: nat, j1: nat, k1: nat, k2: nat, k3: nat, k4: nat, k5: nat, j2: nat, k6: nat)
    requires CombinedSplit(s, i, j1, k1, k2, k3, k4, k5, j2, k6)
    ensures CombinedAt(s, i) == Some((s[i..j1], s[k5..j2]))
  {
    BareSplitEnds(s, i, j1, k1);
    assert OccursAnyCaseAt(s, "gb", k1);
    TotalAfterUnique(s, k1, k2, k3, k4, k5, j2, k6);
    CombinedAtParts(s, i, j1, k1, s[k5..j2]);
  }

  lemma TotalAfterUnique(s: string, k1: nat, k2: nat, k3: nat, k4: nat, k5: nat, j2: nat, k6: nat)
    requires k1 + 2 <= |s| && ConnectiveSplit(s, k1 + 2, k2, k3, k4)
    requires k4 <= k5 <= |s| && AllIn(s, k4, k5, IsSpace) && BareSplit(s, k5, j2, k6)
    ensures TotalAfter(s, k1) == Some(s[k5..j2])
  {
    ConnectiveAfterGb(s, k1, k2, k3, k4);
    SpacesThenBare(s, k4, k5, j2, k6);
    TotalAfterParts(s, k1, k4, s[k5..j2]);
  }

  /** The connective after a `GB` ending at `k1 + 2`, as `ConnectiveSplitUnique` states it. */
  lemma ConnectiveAfterGb(s: string, k1: nat, k2: nat, k3: nat, k4: nat)
    requires ConnectiveSplit(s, k1 + 2, k2, k3, k4)
    ensures ConnectiveAt(s, k1 + 2) == Some(k4)
  {
    var k := k1 + 2;
    ConnectiveSplitUnique(s, k, k2, k3, k4);
  }

  /** Spaces `[k4, k5)` and then a bare match at `k5`: the greedy space run stops at `k5`,
      where the bare pattern captures `s[k5..j2]`. */
  lemma SpacesThenBare(s: string, k4: nat, k5: nat, j2: nat, k6: nat)
    requires k4 <= k5 <= |s| && AllIn(s, k4, k5, IsSpace) && BareSplit(s, k5, j2, k6)
    ensures BareAt(s, RunEnd(s, k4, IsSpace)) == Some(s[k5..j2])
  {
    NumberCharNotSpace(s[k5]);
    RunEndUnique(s, k4, k5, IsSpace);
    BareSplitUnique(s, k5, j2, k6);
  }

  /** `TotalAfter` from its parts: the connective ends at `k4`, and the bare pattern after
      the spaces captures `total`. */
  lemma TotalAfterParts(s: string, k1: nat, k4: nat, total: string)
    requires k1 + 2 <= |s| && ConnectiveAt(s, k1 + 2) == Some(k4)
    requires BareAt(s, RunEnd(s, k4, IsSpace)) == Some(total)
    ensures TotalAfter(s, k1) == Some(total)
  {
  }

  /** `[\d.]` characters are not whitespace. */
  lemma NumberCharNotSpace(c: char)
    requires IsNumberChar(c)
    ensures !IsSpace(c)
  {
  }

  /** `CombinedAt` from its parts: the first number ends at `j1`, `GB` is at `k1` and the
      rest of the pattern captures `total`. */
  lemma CombinedAtParts(s: string, i: nat, j1: nat, k1: nat, total: string)
    requires i < j1 <= |s| && RunEnd(s, i, IsNumberChar) == j1
    requires RunEnd(s, j1, IsSpace) == k1 && OccursAnyCaseAt(s, "gb", k1) && TotalAfter(s, k1) == Some(total)
    ensures CombinedAt(s, i) == Some((s[i..j1], total))
  {
  }

  /** When `ConnectiveAt` finds the connective, the greedy runs it takes are a way of
      matching it. */
  lemma ConnectiveAtSound(s: string, k: nat)
    requires k <= |s| && ConnectiveAt(s, k).Some?
    ensures var k2 := RunEnd(s, k, IsSpace);
      ConnectiveSplit(s, k, k2, UsedEnd(s, k2), ConnectiveAt(s, k).value)
  {
  }

  /** The first half of a combined match at `i`: the bare pattern, then a `TotalAfter`
      match whose capture is group 2. */
  lemma CombinedAtFirst(s: string, i: nat)
    requires i <= |s| && CombinedAt(s, i).Some?
    ensures var j1 := RunEnd(s, i, IsNumberChar);
      var k1 := RunEnd(s, j1, IsSpace);
      && BareSplit(s, i, j1, k1) && k1 + 2 <= |s| && TotalAfter(s, k1).Some?
      && CombinedAt(s, i).value == (s[i..j1], TotalAfter(s, k1).value)
  {
  }

  /** `TotalAfter` finds the connective and then a bare match after the spaces. */
  lemma TotalAfterFirst(s: string, k1: nat)
    requires k1 + 2 <= |s| && TotalAfter(s, k1).Some?
    ensures ConnectiveAt(s, k1 + 2).Some?
    ensures BareAt(s, RunEnd(s, ConnectiveAt(s, k1 + 2).value, IsSpace)) == TotalAfter(s, k1)
  {
  }

  /** After a bare match `[i, j1)`, `GB` at `k1`: when `TotalAfter` finds the total, the
      greedy runs it takes complete a way the combined pattern matches, with the total
      as group 2. */
  lemma TotalAfterSound(s: string, i: nat, j1: nat, k1: nat)
    requires BareSplit(s, i, j1, k1) && k1 + 2 <= |s| && TotalAfter(s, k1).Some?
    ensures exists k2: nat, k3: nat, k4: nat, k5: nat, j2: nat, k6: nat ::
      && CombinedSplit(s, i, j1, k1, k2, k3, k4, k5, j2, k6)
      && TotalAfter(s, k1).value == s[k5..j2]
  {
    TotalAfterFirst(s, k1);
    RestSound(s, k1 + 2);
    var k2 := RunEnd(s, k1 + 2, IsSpace);
    var k4 := ConnectiveAt(s, k1 + 2).value;
    var k5 := RunEnd(s, k4, IsSpace);
    var j2 := RunEnd(s, k5, IsNumberChar);
    assert CombinedSplit(s, i, j1, k1, k2, UsedEnd(s, k2), k4, k5, j2, RunEnd(s, j2, IsSpace));
  }

  /** From `k`: the connective that `ConnectiveAt` finds, the spaces after it and the
      bare match after them, each a way of matching its part of the pattern. */
  lemma RestSound(s: string, k: nat)
    requires k <= |s| && ConnectiveAt(s, k).Some?
    requires BareAt(s, RunEnd(s, ConnectiveAt(s, k).value, IsSpace)).Some?
    ensures var k2 := RunEnd(s, k, IsSpace);
      var k4 := ConnectiveAt(s, k).value;
      var k5 := RunEnd(s, k4, IsSpace);
      var j2 := RunEnd(s, k5, IsNumberChar);
      && ConnectiveSplit(s, k, k2, UsedEnd(s, k2), k4)
      && k4 <= k5 <= |s| && AllIn(s, k4, k5, IsSpace)
      && BareSplit(s, k5, j2, RunEnd(s, j2, IsSpace))
      && BareAt(s, k5) == Some(s[k5..j2])
  {
    ConnectiveAtSound(s, k);
    BareAtSound(s, RunEnd(s, ConnectiveAt(s, k).value, IsSpace));
  }

  /** Conversely to `CombinedSplitUnique`: when `CombinedAt` finds a match, the regex
      matches at `i` with the captures it returns. */
  lemma CombinedAtSound(s: string, i: nat)
    requires i <= |s| && CombinedAt(s, i).Some?
    ensures exists j1: nat, k1: nat, k2: nat, k3: nat, k4: nat, k5: nat, j2: nat, k6: nat ::
      && CombinedSplit(s, i, j1, k1, k2, k3, k4, k5, j2, k6)
      && CombinedAt(s, i).value == (s[i..j1], s[k5..j2])
  {
    CombinedAtFirst(s, i);
    var j1 := RunEnd(s, i, IsNumberChar);
    TotalAfterSound(s, i, j1, RunEnd(s, j1, IsSpace));
  }

  /** A match of the combined pattern found by `re.search`: where it starts and groups
      1 and 2. */
  datatype CombinedMatch = CombinedMatch(start: nat, used: string, total: string)

  /** `re.search` for the combined pattern, from position `from` on. */
  function SearchCombined(s: string, from: nat := 0): (r: Option<CombinedMatch>)
    requires from <= |s|
    ensures r.Some? ==> (from <= r.value.start < |s|
      && CombinedAt(s, r.value.start) == Some((r.value.used, r.value.total)))
    ensures forall i :: from <= i < |s| && (r.None? || i < r.value.start) ==> CombinedAt(s, i).None?
    decreases |s| - from
  {
    if from == |s| then None
    else
      var m := CombinedAt(s, from);
      if m.Some? then Some(CombinedMatch(from, m.value.0, m.value.1)) else SearchCombined(s, from + 1)
  }

  /** `re.search` semantics for the combined pattern in its own terms: a match is found
      exactly when the pattern can match somewhere; it is found where the pattern
      matches, with the captures of a way it matches there, and the pattern matches
      nowhere before. */
  lemma SearchCombinedIsLeftmostMatch(s: string)
    ensures SearchCombined(s).None? <==>
      forall i: nat, j1: nat, k1: nat, k2: nat, k3: nat, k4: nat, k5: nat, j2: nat, k6: nat ::
        !CombinedSplit(s, i, j1, k1, k2, k3, k4, k5, j2, k6)
    ensures SearchCombined(s).Some? ==>
      && (exists j1: nat, k1: nat, k2: nat, k3: nat, k4: nat, k5: nat, j2: nat, k6: nat ::
            && CombinedSplit(s, SearchCombined(s).value.start, j1, k1, k2, k3, k4, k5, j2, k6)
            && SearchCombined(s).value.used == s[SearchCombined(s).value.start..j1]
            && SearchCombined(s).value.total == s[k5..j2])
      && (forall i: nat, j1: nat, k1: nat, k2: nat, k3: nat, k4: nat, k5: nat, j2: nat, k6: nat ::
            i < SearchCombined(s).value.start ==> !CombinedSplit(s, i, j1, k1, k2, k3, k4, k5, j2, k6))
  {
    forall i: nat, j1: nat, k1: nat, k2: nat, k3: nat, k4: nat, k5: nat, j2: nat, k6: nat
      | CombinedSplit(s, i, j1, k1, k2, k3, k4, k5, j2, k6)
      ensures SearchCombined(s).Some? && SearchCombined(s).value.start <= i
    {
      CombinedSplitUnique(s, i, j1, k1, k2, k3, k4, k5, j2, k6);
    }
    if SearchCombined(s).Some? {
      CombinedAtSound(s, SearchCombined(s).value.start);
    }
  }

  /** A text the combined pattern matches also matches the bare one, no later and with the
      same number: the bare search finds the combined match's group 1 or an earlier one. */
  lemma CombinedImpliesBare(s: string)
    requires SearchCombined(s).Some?
    ensures SearchBare(s).Some? && SearchBare(s).value.start <= SearchCombined(s).value.start
  {
    var m := SearchCombined(s).value;
    CombinedAtShape(s, m.start);
  }

  /** The first form named beside the pattern in the source, `X GB used of Y GB`, is
      matched with both numbers. */
  lemma UsedOfFormMatches(x: string, y: string)
    requires IsAmount(x) && IsAmount(y)
    ensures CombinedAt(x + " GB used of " + y + " GB", 0) == Some((x, y))
  {
    var s := x + " GB used of " + y + " GB";
    var n := |x|;
    var m := n + 12 + |y|;
    assert s[..n] == x && s[n + 12..m] == y;
    assert forall k :: 0 <= k < n ==> s[k] == x[k];
    assert forall k :: n + 12 <= k < m ==> s[k] == y[k - n - 12];
    assert s[n] == ' ' && s[n + 1] == 'G' && s[n + 2] == 'B' && s[n + 3] == ' ';
    assert s[n + 4] == 'u' && s[n + 5] == 's' && s[n + 6] == 'e' && s[n + 7] == 'd' && s[n + 8] == ' ';
    assert s[n + 9] == 'o' && s[n + 10] == 'f' && s[n + 11] == ' ';
    assert s[m] == ' ' && s[m + 1] == 'G' && s[m + 2] == 'B' && |s| == m + 3;
    assert OccursAnyCaseAt(s, "gb", n + 1) && OccursAnyCaseAt(s, "used", n + 4) && OccursAnyCaseAt(s, "of", n + 9) && OccursAnyCaseAt(s, "gb", m + 1);
    assert BareSplit(s, 0, n, n + 1);
    assert ConnectiveSplit(s, n + 3, n + 4, n + 9, n + 11);
    assert BareSplit(s, n + 12, m, m + 1);
    CombinedSplitUnique(s, 0, n, n + 1, n + 4, n + 9, n + 11, n + 12, m, m + 1);
  }

  /** The second form named there, `X / Y GB`, is not matched by the combined pattern,
      which wants `GB` after the first number too; the bare search then finds `Y`, the
      total, as the first amount followed by `GB`. */
  lemma SlashFormWithoutUnit(x: string, y: string)
    requires IsAmount(x) && IsAmount(y)
    ensures SearchCombined(x + " / " + y + " GB").None?
    ensures SearchBare(x + " / " + y + " GB") == Some(BareMatch(|x| + 3, y))
  {
    SlashFormBare(x, y);
    SlashFormNotCombined(x, y);
  }

  /** The layout of `x + " / " + y + " GB"` with `|x| == n` and `y` ending at `m`. */
  predicate SlashLayout(s: string, n: nat, m: nat) {
    && 0 < n && n + 3 < m && |s| == m + 3
    && AllIn(s, 0, n, IsNumberChar) && s[n] == ' ' && s[n + 1] == '/' && s[n + 2] == ' '
    && AllIn(s, n + 3, m, IsNumberChar) && s[m] == ' ' && s[m + 1] == 'G' && s[m + 2] == 'B'
  }

  lemma SlashLayoutOf(x: string, y: string)
    requires IsAmount(x) && IsAmount(y)
    ensures SlashLayout(x + " / " + y + " GB", |x|, |x| + 3 + |y|)
    ensures (x + " / " + y + " GB")[|x| + 3..|x| + 3 + |y|] == y
  {
    var s := x + " / " + y + " GB";
    var n := |x|;
    assert forall k :: 0 <= k < n ==> s[k] == x[k];
    assert forall k :: n + 3 <= k < n + 3 + |y| ==> s[k] == y[k - n - 3];
  }

  lemma SlashFormBare(x: string, y: string)
    requires IsAmount(x) && IsAmount(y)
    ensures SearchBare(x + " / " + y + " GB") == Some(BareMatch(|x| + 3, y))
  {
    SlashLayoutOf(x, y);
    SlashLayoutBare(x + " / " + y + " GB", |x|, |x| + 3 + |y|);
  }

  lemma SlashLayoutBare(s: string, n: nat, m: nat)
    requires SlashLayout(s, n, m)
    ensures SearchBare(s) == Some(BareMatch(n + 3, s[n + 3..m]))
  {
    forall i | 0 <= i < n + 3
      ensures BareAt(s, i).None?
    {
      if i < n {
        SlashFirstAmount(s, n, m, i);
      } else {
        assert !IsNumberChar(s[i]);
      }
    }
    assert BareAt(s, n + 3) == Some(s[n + 3..m]) by {
      assert OccursAnyCaseAt(s, "gb", m + 1);
      assert BareSplit(s, n + 3, m, m + 1);
      BareSplitUnique(s, n + 3, m, m + 1);
    }
    SearchBareAt(s, n + 3, s[n + 3..m]);
  }

  /** The bare search finds the first position where the pattern matches. */
  lemma SearchBareAt(s: string, p: nat, amount: string)
    requires p < |s| && BareAt(s, p) == Some(amount)
    requires forall i :: 0 <= i < p ==> BareAt(s, i).None?
    ensures SearchBare(s) == Some(BareMatch(p, amount))
  {
  }

  /** From inside the first amount the bare pattern meets `/` where `GB` should be. */
  lemma SlashFirstAmount(s: string, n: nat, m: nat, i: nat)
    requires SlashLayout(s, n, m) && i < n
    ensures BareAt(s, i).None?
  {
    RunEndUnique(s, i, n, IsNumberChar);
    RunEndUnique(s, n, n + 1, IsSpace);
    NotWordAt(s, n + 1, "gb");
  }

  /** From inside the second amount, nothing follows its `GB` for the connective. */
  lemma SlashSecondAmount(s: string, n: nat, m: nat, i: nat)
    requires SlashLayout(s, n, m) && n + 3 <= i < m
    ensures CombinedAt(s, i).None?
  {
    RunEndUnique(s, i, m, IsNumberChar);
    RunEndUnique(s, m, m + 1, IsSpace);
    assert RunEnd(s, m + 3, IsSpace) == m + 3;
    NotWordAt(s, m + 3, "used");
    NotWordAt(s, m + 3, "of");
    assert ConnectiveAt(s, m + 3).None?;
  }

  lemma SlashFormNotCombined(x: string, y: string)
    requires IsAmount(x) && IsAmount(y)
    ensures SearchCombined(x + " / " + y + " GB").None?
  {
    SlashLayoutOf(x, y);
    SlashLayoutNotCombined(x + " / " + y + " GB", |x|, |x| + 3 + |y|);
  }

  lemma SlashLayoutNotCombined(s: string, n: nat, m: nat)
    requires SlashLayout(s, n, m)
    ensures SearchCombined(s).None?
  {
    forall i | 0 <= i < |s|
      ensures CombinedAt(s, i).None?
    {
      SlashNotCombinedAt(s, n, m, i);
    }
  }

  lemma SlashNotCombinedAt(s: string, n: nat, m: nat, i: nat)
    requires SlashLayout(s, n, m) && i < |s|
    ensures CombinedAt(s, i).None?
  {
    if i < n {
      SlashFirstAmount(s, n, m, i);
    } else if n + 3 <= i < m {
      SlashSecondAmount(s, n, m, i);
    } else {
      assert !IsNumberChar(s[i]);
      RunEndUnique(s, i, i, IsNumberChar);
    }
  }

  // ---------------------------------------------------------------------------
  // Date-range pattern. Here backtracking matters: `\d{1,2}` may give back a digit and
  // `[-–to]+` may give back letters that the second date's `\w{3}` then takes.

  /** `\w{3}\s+\d{1,2}` spanning `[i, e)`, its whitespace filling `[i + 3, sp)`. */
  predicate ShortDate(s: string, i: nat, sp: nat, e: nat) {
    && i + 3 < sp < e <= |s| && e <= sp + 2
    && AllIn(s, i, i + 3, IsWordChar) && AllIn(s, i + 3, sp, IsSpace) && AllIn(s, sp, e, IsDigit)
  }

  /** `\d{4}-\d{2}-\d{2}` spanning `[i, e)`. */
  predicate LongDate(s: string, i: nat, e: nat) {
    && e == i + 10 && e <= |s|
    && AllIn(s, i, i + 4, IsDigit) && s[i + 4] == '-' && AllIn(s, i + 5, i + 7, IsDigit)
    && s[i + 7] == '-' && AllIn(s, i + 8, i + 10, IsDigit)
  }

  /** The date alternative's own meaning: it can match exactly `[i, e)`. */
  ghost predicate DateSplit(s: string, i: nat, e: nat) {
    (exists sp: nat :: ShortDate(s, i, sp, e)) || LongDate(s, i, e)
  }

  /** The ends of the date alternative `\w{3}\s+\d{1,2}|\d{4}-\d{2}-\d{2}` at `i`, in the
      order the matcher tries them. `\s+` is only tried at its longest, since a shorter run
      leaves a space where a digit must follow. At most one alternative can match (the
      fourth character is a space in one and a digit in the other), and when `\d{1,2}`
      can take two digits that end comes first. */
  function DateEnds(s: string, i: nat): (ends: seq<nat>)
    requires i <= |s|
    ensures forall k :: 0 <= k < |ends| ==> i < ends[k] <= |s|
    ensures |ends| <= 2 && (|ends| == 2 ==> ends[0] == ends[1] + 1)
  {
    var short :=
      if i + 3 <= |s| && AllIn(s, i, i + 3, IsWordChar) then
        var e := RunEnd(s, i + 3, IsSpace);
        if e == i + 3 || e == |s| || !IsDigit(s[e]) then []
        else if e + 1 < |s| && IsDigit(s[e + 1]) then [e + 2, e + 1]
        else [e + 1]
      else [];
    var long := if LongDate(s, i, i + 10) then [i + 10] else [];
    assert long != [] ==> IsDigit(s[i + 3]);
    short + long
  }

  /** The ends offered are exactly the ends at which the alternative can match. */
  lemma DateEndsMatch(s: string, i: nat, e: nat)
    requires i <= |s|
    ensures e in DateEnds(s, i) <==> DateSplit(s, i, e)
  {
    if i + 3 <= |s| && AllIn(s, i, i + 3, IsWordChar) {
      var sp := RunEnd(s, i + 3, IsSpace);
      if sp > i + 3 && sp < |s| && IsDigit(s[sp]) {
        if e == sp + 1 || (e == sp + 2 && sp + 1 < |s| && IsDigit(s[sp + 1])) {
          assert ShortDate(s, i, sp, e);
        }
      }
    }
    if DateSplit(s, i, e) && !LongDate(s, i, e) {
      var sp: nat :| ShortDate(s, i, sp, e);
      RunEndUnique(s, i + 3, sp, IsSpace);
    }
  }

  /** A date starts with a word character or a digit, never with whitespace. */
  lemma DateStartNotSpace(s: string, k: nat, e: nat)
    requires DateSplit(s, k, e)
    ensures k < |s| && !IsSpace(s[k])
  {
    if !LongDate(s, k, e) {
      var sp: nat :| ShortDate(s, k, sp, e);
      assert IsWordChar(s[k]);
    } else {
      assert IsDigit(s[k]);
    }
  }

  /** After a separator run ending at `e`, whitespace and a second date can follow. */
  predicate DateFollows(s: string, e: nat)
    requires e <= |s|
  {
    DateEnds(s, RunEnd(s, e, IsSpace)) != []
  }

  /** `DateFollows` as a test on separator ends. */
  function FollowsIn(s: string): nat -> bool {
    (k: nat) => k <= |s| && DateFollows(s, k)
  }

  /** Backtracking from the longest run down: the largest `k` in `(from, e]` with `ok(k)`,
      trying `e` first. */
  function LastWith(from: nat, e: nat, ok: nat -> bool): (r: Option<nat>)
    requires from <= e
    ensures r.Some? ==> from < r.value <= e && ok(r.value)
    decreases e
  {
    if e == from then None
    else if ok(e) then Some(e)
    else LastWith(from, e - 1, ok)
  }

  /** No `k` in range that passes the test is missed or passed over. */
  lemma {:induction false} LastWithIsLargest(from: nat, e: nat, ok: nat -> bool, k: nat)
    requires from < k <= e && ok(k)
    ensures LastWith(from, e, ok).Some? && k <= LastWith(from, e, ok).value
    decreases e
  {
    if !ok(e) {
      LastWithIsLargest(from, e - 1, ok, k);
    }
  }

  /** Trying alternatives in order: the first `m` in `[n, len)` with `ok(m)`. */
  function FirstWith(n: nat, len: nat, ok: nat -> bool): (r: Option<nat>)
    ensures r.Some? ==> n <= r.value < len && ok(r.value)
    decreases len - n
  {
    if n >= len then None
    else if ok(n) then Some(n)
    else FirstWith(n + 1, len, ok)
  }

  /** No `m` in range that passes the test is missed or passed over. */
  lemma {:induction false} FirstWithIsFirst(n: nat, len: nat, ok: nat -> bool, m: nat)
    requires n <= m < len && ok(m)
    ensures FirstWith(n, len, ok).Some? && FirstWith(n, len, ok).value <= m
    decreases len - n
  {
    if !ok(n) {
      FirstWithIsFirst(n + 1, len, ok, m);
    }
  }

  /** The second half of a range, once the first date and the whitespace after it end at
      `from`: `[-–to]+` is tried from its longest run `[from, e)` down, and for each the
      whitespace and the second date, whose first end is taken as nothing follows it.
      The start and end of the second date after the longest run that lets one follow
      (`LastWithIsLargest`); `None` when no run does. */
  function SecondDate(s: string, from: nat, e: nat): (r: Option<(nat, nat)>)
    requires from <= e <= |s|
    ensures r.Some? ==> from < r.value.0 < r.value.1 <= |s|
  {
    match LastWith(from, e, FollowsIn(s))
    case None => None
    case Some(k) =>
      var start := RunEnd(s, k, IsSpace);
      Some((start, DateEnds(s, start)[0]))
  }

  /** The separator choice is the matcher's: no second date exactly when no separator run
      lets a date follow, and otherwise the date after the longest run that does, ending
      at that date's first end. */
  lemma SecondDateChoice(s: string, from: nat, e: nat)
    requires from <= e <= |s|
    ensures SecondDate(s, from, e).None? <==> forall k :: from < k <= e ==> !DateFollows(s, k)
    ensures SecondDate(s, from, e).Some? ==>
      exists k :: from < k <= e && DateFollows(s, k)
        && SecondDate(s, from, e).value == (RunEnd(s, k, IsSpace), DateEnds(s, RunEnd(s, k, IsSpace))[0])
        && forall k' :: k < k' <= e ==> !DateFollows(s, k')
  {
    var last := LastWith(from, e, FollowsIn(s));
    forall k | from < k <= e && DateFollows(s, k)
      ensures last.Some? && k <= last.value
    {
      assert FollowsIn(s)(k);
      LastWithIsLargest(from, e, FollowsIn(s), k);
    }
    if last.Some? {
      assert FollowsIn(s)(last.value);
    }
  }

  /** The separator and second date after a first date ending at `e1`. */
  function SecondAfter(s: string, e1: nat): (r: Option<(nat, nat)>)
    requires e1 <= |s|
    ensures r.Some? ==> e1 < r.value.0 < r.value.1 <= |s|
  {
    var sepStart := RunEnd(s, e1, IsSpace);
    SecondDate(s, sepStart, RunEnd(s, sepStart, IsRangeSeparator))
  }

  /** The `m`-th end of the first date at `i` lets the rest of the pattern match. */
  function WorksIn(s: string, i: nat): nat -> bool
    requires i <= |s|
  {
    (m: nat) => m < |DateEnds(s, i)| && SecondAfter(s, DateEnds(s, i)[m]).Some?
  }

  /** The date-range pattern at `i`: the two captured dates. The first date's ends are
      tried in order and the first after which the rest matches is taken
      (`FirstWithIsFirst`). */
  function RangeAt(s: string, i: nat): (r: Option<(string, string)>)
    requires i <= |s|
  {
    var ends := DateEnds(s, i);
    match FirstWith(0, |ends|, WorksIn(s, i))
    case None => None
    case Some(m) =>
      var second := SecondAfter(s, ends[m]).value;
      Some((s[i..ends[m]], s[second.0..second.1]))
  }

  /** The test `re.search` applies at each position: the range pattern matches there. */
  function RangeIn(s: string): nat -> bool {
    (k: nat) => k <= |s| && RangeAt(s, k).Some?
  }

  /** Where `re.search` finds the date-range pattern, from position `from` on: the
      leftmost position where it matches. */
  function SearchRangeStart(s: string, from: nat := 0): (r: Option<nat>)
    requires from <= |s|
    ensures r.Some? ==> from <= r.value < |s| && RangeAt(s, r.value).Some?
  {
    FirstWith(from, |s|, RangeIn(s))
  }

  /** No position where the pattern matches is passed over: the search stops there or
      earlier. */
  lemma SearchRangeStartIsFirst(s: string, from: nat, i: nat)
    requires from <= i < |s| && RangeAt(s, i).Some?
    ensures SearchRangeStart(s, from).Some? && SearchRangeStart(s, from).value <= i
  {
    var ok := RangeIn(s);
    assert ok(i);
    FirstWithIsFirst(from, |s|, ok, i);
  }

  /** `re.search` for the date-range pattern: the captures of the leftmost match. */
  function SearchRange(s: string): Option<(string, string)> {
    match SearchRangeStart(s)
    case None => None
    case Some(i) => RangeAt(s, i)
  }

  /** The range pattern's own meaning: a date `[i, e1)`, whitespace up to `k1`, one or
      more of `[-–to]` up to `k2`, whitespace up to `k3` and a date `[k3, e2)`. */
  ghost predicate RangeSplit(s: string, i: nat, e1: nat, k1: nat, k2: nat, k3: nat, e2: nat) {
    && i <= e1 <= k1 < k2 <= k3 <= e2 <= |s|
    && DateSplit(s, i, e1) && AllIn(s, e1, k1, IsSpace) && AllIn(s, k1, k2, IsRangeSeparator)
    && AllIn(s, k2, k3, IsSpace) && DateSplit(s, k3, e2)
  }

  /** The scanner misses no match: wherever the pattern can match, `RangeAt` finds one. */
  lemma RangeSplitFound(s: string, i: nat, e1: nat, k1: nat, k2: nat, k3: nat, e2: nat)
    requires RangeSplit(s, i, e1, k1, k2, k3, e2)
    ensures RangeAt(s, i).Some?
  {
    var ends := DateEnds(s, i);
    DateEndsMatch(s, i, e1);
    var m :| 0 <= m < |ends| && ends[m] == e1;
    assert IsRangeSeparator(s[k1]);
    RunEndUnique(s, e1, k1, IsSpace);
    var sepEnd := RunEnd(s, k1, IsRangeSeparator);
    DateStartNotSpace(s, k3, e2);
    RunEndUnique(s, k2, k3, IsSpace);
    DateEndsMatch(s, k3, e2);
    assert FollowsIn(s)(k2);
    LastWithIsLargest(k1, sepEnd, FollowsIn(s), k2);
    assert WorksIn(s, i)(m);
    FirstWithIsFirst(0, |ends|, WorksIn(s, i), m);
  }

  /** Whatever `RangeAt` captures comes from a way the pattern matches at `i`. */
  lemma RangeAtSound(s: string, i: nat)
    requires i <= |s| && RangeAt(s, i).Some?
    ensures exists e1: nat, k1: nat, k2: nat, k3: nat, e2: nat ::
      RangeSplit(s, i, e1, k1, k2, k3, e2) && RangeAt(s, i).value == (s[i..e1], s[k3..e2])
  {
    var ends := DateEnds(s, i);
    var m := FirstWith(0, |ends|, WorksIn(s, i)).value;
    var e1 := ends[m];
    var k1 := RunEnd(s, e1, IsSpace);
    var sepEnd := RunEnd(s, k1, IsRangeSeparator);
    var k2 := LastWith(k1, sepEnd, FollowsIn(s)).value;
    var k3 := RunEnd(s, k2, IsSpace);
    var e2 := DateEnds(s, k3)[0];
    DateEndsMatch(s, i, e1);
    DateEndsMatch(s, k3, e2);
    assert RangeSplit(s, i, e1, k1, k2, k3, e2);
  }

  /** The form of a date the pattern captures: three word characters, whitespace and one
      or two digits; or `YYYY-MM-DD`. */
  predicate IsDateText(t: string) {
    || (|t| >= 5 && AllIn(t, 0, 3, IsWordChar) && IsDigit(t[|t| - 1])
        && (AllIn(t, 3, |t| - 1, IsSpace)
            || (|t| >= 6 && IsDigit(t[|t| - 2]) && AllIn(t, 3, |t| - 2, IsSpace))))
    || (|t| == 10 && AllIn(t, 0, 4, IsDigit) && t[4] == '-' && AllIn(t, 5, 7, IsDigit)
        && t[7] == '-' && AllIn(t, 8, 10, IsDigit))
  }

  /** The text a date match spans has that form. */
  lemma DateSplitIsDate(s: string, i: nat, e: nat)
    requires DateSplit(s, i, e)
    ensures IsDateText(s[i..e])
  {
    var t := s[i..e];
    if !LongDate(s, i, e) {
      var sp: nat :| ShortDate(s, i, sp, e);
      assert forall k :: 0 <= k < |t| ==> t[k] == s[i + k];
      if e == sp + 2 {
        assert t[|t| - 2] == s[sp];
      }
    } else {
      assert forall k :: 0 <= k < 10 ==> t[k] == s[i + k];
    }
  }

  /** Both captures of a date-range match are dates of that form. */
  lemma RangeCapturesAreDates(s: string)
    requires SearchRange(s).Some?
    ensures IsDateText(SearchRange(s).value.0) && IsDateText(SearchRange(s).value.1)
  {
    var i := SearchRangeStart(s).value;
    RangeAtSound(s, i);
    var e1: nat, k1: nat, k2: nat, k3: nat, e2: nat :| RangeSplit(s, i, e1, k1, k2, k3, e2)
      && RangeAt(s, i).value == (s[i..e1], s[k3..e2]);
    DateSplitIsDate(s, i, e1);
    DateSplitIsDate(s, k3, e2);
  }

  /** `re.search` semantics in the pattern's own terms: a range is found exactly when the
      pattern can match somewhere; it is found where the pattern matches, with captures
      from a way it matches there, and the pattern cannot match anywhere before. */
  lemma SearchRangeIsLeftmostMatch(s: string)
    ensures SearchRange(s).None? <==>
      forall i: nat, e1: nat, k1: nat, k2: nat, k3: nat, e2: nat :: !RangeSplit(s, i, e1, k1, k2, k3, e2)
    ensures SearchRange(s).Some? ==>
      && SearchRangeStart(s).Some?
      && (exists e1: nat, k1: nat, k2: nat, k3: nat, e2: nat ::
            RangeSplit(s, SearchRangeStart(s).value, e1, k1, k2, k3, e2)
            && SearchRange(s).value == (s[SearchRangeStart(s).value..e1], s[k3..e2]))
      && (forall k: nat, f1: nat, l1: nat, l2: nat, l3: nat, f2: nat ::
            k < SearchRangeStart(s).value ==> !RangeSplit(s, k, f1, l1, l2, l3, f2))
  {
    forall i: nat, e1: nat, k1: nat, k2: nat, k3: nat, e2: nat | RangeSplit(s, i, e1, k1, k2, k3, e2)
      ensures SearchRange(s).Some?
    {
      RangeSplitFound(s, i, e1, k1, k2, k3, e2);
      SearchRangeStartIsFirst(s, 0, i);
    }
    if SearchRange(s).Some? {
      var i := SearchRangeStart(s).value;
      RangeAtSound(s, i);
      forall k: nat, f1: nat, l1: nat, l2: nat, l3: nat, f2: nat | k < i
        ensures !RangeSplit(s, k, f1, l1, l2, l3, f2)
      {
        if RangeSplit(s, k, f1, l1, l2, l3, f2) {
          RangeSplitFound(s, k, f1, l1, l2, l3, f2);
          SearchRangeStartIsFirst(s, 0, k);
        }
      }
    }
  }

  // ---------------------------------------------------------------------------
  // Two texts of the kind the billing-cycle scan looks at

  lemma SpacedDates(s: string)
    requires s == "Jan 5 - Feb 10"
    ensures DateEnds(s, 0) == [5] && RunEnd(s, 5, IsSpace) == 6 && RunEnd(s, 6, IsRangeSeparator) == 7
    ensures RunEnd(s, 7, IsSpace) == 8 && DateEnds(s, 8) == [14, 13]
  {
    SpacedFirstDate(s);
    SpacedSecondDate(s);
  }

  lemma SpacedFirstDate(s: string)
    requires s == "Jan 5 - Feb 10"
    ensures DateEnds(s, 0) == [5] && RunEnd(s, 5, IsSpace) == 6 && RunEnd(s, 6, IsRangeSeparator) == 7
  {
    assert RunEnd(s, 3, IsSpace) == 4;
  }

  lemma SpacedSecondDate(s: string)
    requires s == "Jan 5 - Feb 10"
    ensures RunEnd(s, 7, IsSpace) == 8 && DateEnds(s, 8) == [14, 13]
  {
    assert RunEnd(s, 11, IsSpace) == 12;
  }

  lemma SpacedSecond(s: string)
    requires s == "Jan 5 - Feb 10"
    ensures SecondAfter(s, 5) == Some((8, 14))
  {
    SpacedDates(s);
    assert FollowsIn(s)(7);
  }

  lemma SpacedSlices(s: string)
    requires s == "Jan 5 - Feb 10"
    ensures s[0..5] == "Jan 5" && s[8..14] == "Feb 10"
  {
  }

  /** Spaces around the dash: the two dates, the second with both of its digits. */
  lemma SpacedRange()
    ensures RangeAt("Jan 5 - Feb 10", 0) == Some(("Jan 5", "Feb 10"))
  {
    var s := "Jan 5 - Feb 10";
    SpacedDates(s);
    SpacedSecond(s);
    assert WorksIn(s, 0)(0);
    assert s[0..5] == "Jan 5" && s[8..14] == "Feb 10" by {
      SpacedSlices(s);
    }
  }

  lemma TightFirst(s: string)
    requires s == "Jan 5-oct 3"
    ensures DateEnds(s, 0) == [5] && RunEnd(s, 5, IsSpace) == 5 && RunEnd(s, 5, IsRangeSeparator) == 7
  {
    TightFirstDate(s);
    TightSeparator(s);
  }

  lemma TightFirstDate(s: string)
    requires s == "Jan 5-oct 3"
    ensures DateEnds(s, 0) == [5]
  {
    assert RunEnd(s, 4, IsSpace) == 4;
  }

  lemma TightSeparator(s: string)
    requires s == "Jan 5-oct 3"
    ensures RunEnd(s, 5, IsSpace) == 5 && RunEnd(s, 5, IsRangeSeparator) == 7
  {
    assert RunEnd(s, 7, IsRangeSeparator) == 7;
  }

  lemma TightNoDate(s: string)
    requires s == "Jan 5-oct 3"
    ensures RunEnd(s, 7, IsSpace) == 7 && DateEnds(s, 7) == []
  {
    assert !IsWordChar(s[9]);
  }

  lemma TightDate(s: string)
    requires s == "Jan 5-oct 3"
    ensures RunEnd(s, 6, IsSpace) == 6 && DateEnds(s, 6) == [11]
  {
    assert RunEnd(s, 9, IsSpace) == 10;
  }

  lemma TightSecond(s: string)
    requires s == "Jan 5-oct 3"
    ensures SecondAfter(s, 5) == Some((6, 11))
  {
    TightFirst(s);
    TightNoDate(s);
    TightDate(s);
    assert !FollowsIn(s)(7) && FollowsIn(s)(6);
  }

  lemma TightSlices(s: string)
    requires s == "Jan 5-oct 3"
    ensures s[0..5] == "Jan 5" && s[6..11] == "oct 3"
  {
  }

  /** No spaces, and a month that starts with a separator letter: `[-–to]+` first takes
      `-o`, finds no date after it, and gives the `o` back to `oct`. */
  lemma BacktrackedRange()
    ensures RangeAt("Jan 5-oct 3", 0) == Some(("Jan 5", "oct 3"))
  {
    var s := "Jan 5-oct 3";
    TightFirst(s);
    TightSecond(s);
    assert WorksIn(s, 0)(0);
    assert s[0..5] == "Jan 5" && s[6..11] == "oct 3" by {
      TightSlices(s);
    }
  }
}
