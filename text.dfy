/** Character classes and the handful of Python `str` operations the tracker relies on
    (`strip`, `isdigit`, `replace`, `endswith`, `in`, `lower`, negative slicing). */
module Text {

  /** Python's `str.isspace` / regex `\s` for a single character: the ASCII controls
      TAB..CR and FS..US, space, NEL, NBSP and the Unicode space separators. */
  predicate IsSpace(c: char) {
    || ('\t' <= c <= '\r')
    || ('\U{1C}' <= c <= '\U{1F}')
    || c == ' ' || c == '\U{85}' || c == '\U{A0}' || c == '\U{1680}'
    || ('\U{2000}' <= c <= '\U{200A}')
    || c == '\U{2028}' || c == '\U{2029}' || c == '\U{202F}' || c == '\U{205F}' || c == '\U{3000}'
  }

  /** A decimal digit, ASCII only. */
  predicate IsDigit(c: char) {
    '0' <= c <= '9'
  }

  predicate AllDigits(s: string) {
    forall i :: 0 <= i < |s| ==> IsDigit(s[i])
  }

  /** Python's `s.isdigit()`: false on the empty string. */
  predicate PyIsDigit(s: string) {
    |s| > 0 && AllDigits(s)
  }

  predicate AllSpace(s: string) {
    forall i :: 0 <= i < |s| ==> IsSpace(s[i])
  }

  /** End of the longest run, from `i`, of characters satisfying `p`: a greedy `[...]*`. */
  function RunEnd(s: string, i: nat, p: char -> bool): (k: nat)
    requires i <= |s|
    ensures i <= k <= |s|
    ensures forall j :: i <= j < k ==> p(s[j])
    ensures k < |s| ==> !p(s[k])
    decreases |s| - i
  {
    if i == |s| || !p(s[i]) then i else RunEnd(s, i + 1, p)
  }

  /** A run that stops where `p` fails (or at the end) is the run `RunEnd` finds. */
  lemma RunEndUnique(s: string, i: nat, j: nat, p: char -> bool)
    requires i <= j <= |s|
    requires forall k :: i <= k < j ==> p(s[k])
    requires j < |s| ==> !p(s[j])
    ensures RunEnd(s, i, p) == j
  {
  }

  /** Index of the first non-space character, or |s|. */
  function LeadingSpace(s: string): (k: nat)
    ensures k <= |s|
  {
    RunEnd(s, 0, IsSpace)
  }

  /** One past the last non-space character at or after `lo`, or `lo`. */
  function TrailingSpace(s: string, lo: nat, hi: nat): (k: nat)
    requires lo <= hi <= |s|
    ensures lo <= k <= hi
    ensures forall j :: k <= j < hi ==> IsSpace(s[j])
    ensures k > lo ==> !IsSpace(s[k - 1])
    decreases hi - lo
  {
    if hi == lo || !IsSpace(s[hi - 1]) then hi else TrailingSpace(s, lo, hi - 1)
  }

  /** Python's `s.strip()` with no argument. */
  function Strip(s: string): (r: string)
  {
    var a := LeadingSpace(s);
    s[a..TrailingSpace(s, a, |s|)]
  }

  /** `strip` removes exactly the whitespace at both ends: the result is a slice of the
      input, the cut-off parts are whitespace, and the result neither starts nor ends
      with whitespace. */
  lemma StripIsTrim(s: string)
    ensures exists a, b ::
      (0 <= a <= b <= |s| && Strip(s) == s[a..b] && AllSpace(s[..a]) && AllSpace(s[b..]))
    ensures Strip(s) != [] ==> !IsSpace(Strip(s)[0]) && !IsSpace(Strip(s)[|Strip(s)| - 1])
  {
    var a := LeadingSpace(s);
    var b := TrailingSpace(s, a, |s|);
    assert Strip(s) == s[a..b];
    assert AllSpace(s[..a]);
    assert AllSpace(s[b..]);
  }

  /** On a string with no whitespace at either end, `strip` changes nothing. */
  lemma StripUnchanged(s: string)
    requires s != [] ==> !IsSpace(s[0]) && !IsSpace(s[|s| - 1])
    ensures Strip(s) == s
  {
  }

  /** In particular a string of digits is its own `strip`. */
  lemma StripDigits(s: string)
    requires AllDigits(s)
    ensures Strip(s) == s
  {
    if s != [] {
      assert IsDigit(s[0]) && IsDigit(s[|s| - 1]);
    }
    StripUnchanged(s);
  }

  /** Python's `s.replace(c, "")` for a one-character `c`. */
  function Remove(s: string, c: char): (r: string)
    ensures c !in r
    ensures |r| <= |s|
  {
    if s == [] then []
    else if s[0] == c then Remove(s[1..], c)
    else [s[0]] + Remove(s[1..], c)
  }

  /** `Remove` works piecewise on a concatenation. */
  lemma {:induction false} RemoveAppend(a: string, b: string, c: char)
    ensures Remove(a + b, c) == Remove(a, c) + Remove(b, c)
  {
    if a == [] {
      assert a + b == b;
    } else {
      assert (a + b)[1..] == a[1..] + b;
      RemoveAppend(a[1..], b, c);
    }
  }

  /** Removing a character a string does not contain changes nothing. */
  lemma {:induction false} RemoveAbsent(s: string, c: char)
    requires c !in s
    ensures Remove(s, c) == s
  {
    if s != [] {
      RemoveAbsent(s[1..], c);
    }
  }

  /** `Remove` keeps every other character. */
  lemma {:induction false} RemoveKeeps(s: string, c: char, x: char)
    requires x != c
    ensures x in Remove(s, c) <==> x in s
  {
    if s != [] {
      RemoveKeeps(s[1..], c, x);
      assert s == [s[0]] + s[1..];
    }
  }

  /** Python's `s.endswith(suffix)`. */
  predicate EndsWith(s: string, suffix: string) {
    |suffix| <= |s| && s[|s| - |suffix|..] == suffix
  }

  /** Python's `s[-n:]` for a positive `n`: the last `n` characters, or all of `s`
      when it is shorter. */
  function LastChars(s: string, n: nat): (r: string)
    requires n > 0
    ensures |r| == if |s| < n then |s| else n
    ensures EndsWith(s, r)
  {
    if |s| < n then s else s[|s| - n..]
  }

  predicate StartsWith(s: string, prefix: string) {
    |prefix| <= |s| && s[..|prefix|] == prefix
  }

  /** Python's `sub in s` (substring test), searched from position `i`. */
  predicate ContainsFrom(s: string, sub: string, i: nat)
    requires i <= |s|
    decreases |s| - i
  {
    StartsWith(s[i..], sub) || (i < |s| && ContainsFrom(s, sub, i + 1))
  }

  predicate Contains(s: string, sub: string) {
    ContainsFrom(s, sub, 0)
  }

  predicate OccursAt(s: string, sub: string, k: nat) {
    k + |sub| <= |s| && s[k..k + |sub|] == sub
  }

  /** `ContainsFrom` agrees with "`sub` occurs at some position from `i` on". */
  lemma {:induction false} ContainsFromIff(s: string, sub: string, i: nat)
    requires i <= |s|
    ensures ContainsFrom(s, sub, i) <==> exists k :: i <= k <= |s| && OccursAt(s, sub, k)
    decreases |s| - i
  {
    if StartsWith(s[i..], sub) {
      assert s[i..i + |sub|] == s[i..][..|sub|];
      assert OccursAt(s, sub, i);
    } else {
      if i < |s| {
        ContainsFromIff(s, sub, i + 1);
      }
    }
  }

  function LowerChar(c: char): char {
    if 'A' <= c <= 'Z' then (c as int + 32) as char else c
  }

  /** Python's `s.lower()`, for ASCII letters. */
  function Lower(s: string): (r: string)
    ensures |r| == |s|
    ensures forall i :: 0 <= i < |s| ==> r[i] == LowerChar(s[i])
  {
    if s == [] then [] else [LowerChar(s[0])] + Lower(s[1..])
  }

  /** `w` (all lower case) occurs at position `k` of `s` in any mix of upper and lower
      case. */
  predicate OccursAnyCaseAt(s: string, w: string, k: nat) {
    && k + |w| <= |s|
    && forall m :: 0 <= m < |w| ==> LowerChar(s[k + m]) == w[m]
  }

  /** `w in s.lower()` exactly when `w` occurs in `s` in some case. */
  lemma LowerIffAnyCase(s: string, w: string)
    ensures Contains(Lower(s), w) <==> exists k :: OccursAnyCaseAt(s, w, k)
  {
    var low := Lower(s);
    ContainsFromIff(low, w, 0);
    if Contains(low, w) {
      var k :| 0 <= k <= |low| && OccursAt(low, w, k);
      LowerOccursAt(s, w, k);
    } else {
      forall k | OccursAnyCaseAt(s, w, k)
        ensures false
      {
        LowerOccursAt(s, w, k);
      }
    }
  }

  /** At one position: the lower-cased text holds `w` there exactly when the text holds
      it in some case. */
  lemma LowerOccursAt(s: string, w: string, k: nat)
    requires k + |w| <= |s|
    ensures OccursAt(Lower(s), w, k) <==> OccursAnyCaseAt(s, w, k)
  {
    var piece := Lower(s)[k..k + |w|];
    assert forall m :: 0 <= m < |w| ==> piece[m] == LowerChar(s[k + m]);
    if OccursAnyCaseAt(s, w, k) {
      assert piece == w;
    }
  }
}
