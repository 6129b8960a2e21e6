/** `send_macos_notification`: the AppleScript command it passes to `osascript`, and how
    the quoted title and message survive AppleScript's string-literal syntax. Running
    `osascript` itself is not part of this model. */
module Notifier {
  import opened Wrappers

  const Quote: char := '"'
  const Backslash: char := '\\'

  /** `s.replace('"', '\\"')`: every double quote gets a backslash in front. */
  function EscapeQuotes(s: string): (r: string)
    ensures |r| >= |s|
  {
    if s == [] then []
    else (if s[0] == Quote then [Backslash, Quote] else [s[0]]) + EscapeQuotes(s[1..])
  }

  /** The inverse rewrite, `r.replace('\\"', '"')`, scanning left to right. */
  function UnescapeQuotes(r: string): string
  {
    if r == [] then []
    else if |r| >= 2 && r[0] == Backslash && r[1] == Quote then [Quote] + UnescapeQuotes(r[2..])
    else [r[0]] + UnescapeQuotes(r[1..])
  }

  /** No character is lost, added or reordered other than the inserted backslashes:
      undoing the rewrite gives back the original text. */
  lemma {:induction false} EscapeQuotesRoundTrip(s: string)
    ensures UnescapeQuotes(EscapeQuotes(s)) == s
  {
    if s != [] {
      var r := EscapeQuotes(s);
      var rest := EscapeQuotes(s[1..]);
      EscapeQuotesRoundTrip(s[1..]);
      if s[0] == Quote {
        assert r[2..] == rest;
      } else {
        assert r[1..] == rest;
        if s[0] == Backslash && |r| >= 2 {
          // the next character of the output is either an inserted backslash or an
          // original character other than a quote
          assert r[1] == rest[0];
          assert rest[0] != Quote;
        }
      }
    }
  }

  /** Every double quote in the output has a backslash immediately before it. */
  lemma {:induction false} EscapedQuotesArePreceded(s: string, i: nat)
    requires i < |EscapeQuotes(s)| && EscapeQuotes(s)[i] == Quote
    ensures i > 0 && EscapeQuotes(s)[i - 1] == Backslash
  {
    var r := EscapeQuotes(s);
    var head := if s[0] == Quote then [Backslash, Quote] else [s[0]];
    assert r == head + EscapeQuotes(s[1..]);
    if i >= |head| {
      EscapedQuotesArePreceded(s[1..], i - |head|);
      if i - |head| > 0 {
        assert r[i - 1] == EscapeQuotes(s[1..])[i - |head| - 1];
      }
    }
  }

  /** The fixed words of the command, each up to and including the quote that opens the
      literal after it. */
  const MessageKey: string := "display notification \""
  const TitleKey: string := " with title \""
  const SoundKey: string := " sound name \""

  /** The command handed to `osascript -e`. The sound name is not escaped. */
  function NotificationScript(title: string, message: string, sound: string): (script: string)
    ensures |script| >= |title| + |message| + |sound|
  {
    MessageKey + EscapeQuotes(message) + [Quote] + TitleKey + EscapeQuotes(title) + [Quote]
      + SoundKey + sound + [Quote]
  }

  /** How AppleScript reads the text that follows an opening quote: `\` takes the next
      character literally when it is a quote or a backslash, and the first unescaped quote
      ends the literal. Only these two escapes are modelled: AppleScript's `\n`, `\t` and
      `\r`, and any other backslash pair, are kept here as the two characters written.
      The result is the decoded text and the number of characters consumed, counting the
      closing quote; `None` when the literal never ends. */
  function ReadLiteral(t: string): (r: Option<(string, nat)>)
    ensures r.Some? ==> 0 < r.value.1 <= |t|
  {
    if t == [] then None
    else if t[0] == Quote then Some(([], 1))
    else if t[0] == Backslash && |t| >= 2 then
      match ReadLiteral(t[2..])
      case None => None
      case Some(p) =>
        Some(((if t[1] == Quote || t[1] == Backslash then [t[1]] else [Backslash, t[1]]) + p.0, p.1 + 2))
    else if t[0] == Backslash then None
    else
      match ReadLiteral(t[1..])
      case None => None
      case Some(p) => Some(([t[0]] + p.0, p.1 + 1))
  }

  /** A text without backslashes, escaped and embedded, reads back as itself and its
      literal ends exactly at the quote that follows it, whatever comes after: the title
      and message reach the notification unchanged. */
  lemma {:induction false} EscapedLiteralRoundTrip(s: string, rest: string)
    requires Backslash !in s
    ensures ReadLiteral(EscapeQuotes(s) + [Quote] + rest) == Some((s, |EscapeQuotes(s)| + 1))
  {
    if s == [] {
      assert EscapeQuotes(s) + [Quote] + rest == [Quote] + rest;
    } else {
      var head := if s[0] == Quote then [Backslash, Quote] else [s[0]];
      var tail := EscapeQuotes(s[1..]) + [Quote] + rest;
      assert Backslash !in s[1..] by {
        assert forall k :: 0 <= k < |s[1..]| ==> s[1..][k] == s[k + 1];
      }
      EscapedLiteralRoundTrip(s[1..], rest);
      assert EscapeQuotes(s) == head + EscapeQuotes(s[1..]);
      Regroup(head, EscapeQuotes(s[1..]), [Quote], rest);
      if s[0] == Quote {
        ReadEscapedQuote(tail);
      } else {
        ReadPlainChar(s[0], tail);
      }
      assert s == [s[0]] + s[1..];
    }
  }

  /** Concatenation regrouped, for the step from a text to its tail. */
  lemma Regroup(a: string, b: string, c: string, d: string)
    ensures a + b + c + d == a + (b + c + d)
  {
  }

  /** One step of reading: an escaped quote stands for a quote. */
  lemma ReadEscapedQuote(tail: string)
    ensures ReadLiteral([Backslash, Quote] + tail) ==
      match ReadLiteral(tail)
      case None => None
      case Some(p) => Some(([Quote] + p.0, p.1 + 2))
  {
    assert ([Backslash, Quote] + tail)[2..] == tail;
  }

  /** One step of reading: a character other than a quote or a backslash stands for
      itself. */
  lemma ReadPlainChar(c: char, tail: string)
    requires c != Quote && c != Backslash
    ensures ReadLiteral([c] + tail) ==
      match ReadLiteral(tail)
      case None => None
      case Some(p) => Some(([c] + p.0, p.1 + 1))
  {
    assert ([c] + tail)[1..] == tail;
  }

  /** As written, a message ending in a backslash escapes the closing quote: the literal
      does not read back as the message, whatever follows it. */
  lemma BackslashBreaksLiteral(rest: string)
    ensures ReadLiteral(EscapeQuotes([Backslash]) + [Quote] + rest) != Some(([Backslash], 2))
  {
    var t := EscapeQuotes([Backslash]) + [Quote] + rest;
    assert EscapeQuotes([Backslash]) == [Backslash];
    assert t[0] == Backslash && t[1] == Quote;
  }

  /** The layout of a command built like `NotificationScript`, for any fixed words. */
  function Layout(k1: string, message: string, k2: string, title: string, k3: string, sound: string): string {
    k1 + EscapeQuotes(message) + [Quote] + k2 + EscapeQuotes(title) + [Quote] + k3 + sound + [Quote]
  }

  /** A concatenation splits back into its two parts. */
  lemma SplitAt(a: string, b: string)
    ensures (a + b)[..|a|] == a && (a + b)[|a|..] == b
  {
  }

  /** In `a + b + c`, `b` sits right after `a`, and `c` follows it. */
  lemma SplitThree(a: string, b: string, c: string)
    ensures (a + b + c)[|a|..|a| + |b|] == b && (a + b + c)[|a| + |b|..] == c
  {
    assert (a + b + c)[|a|..|a| + |b|] == (a + b)[|a|..];
  }

  /** The command as the words before the message literal and what follows them. */
  lemma LayoutAtMessage(k1: string, message: string, k2: string, title: string, k3: string, sound: string)
    ensures Layout(k1, message, k2, title, k3, sound)
      == k1 + (EscapeQuotes(message) + [Quote] + (k2 + EscapeQuotes(title) + [Quote] + k3 + sound + [Quote]))
  {
  }

  /** The command as the text before the title's words, those words, and the rest. */
  lemma LayoutAtTitle(k1: string, message: string, k2: string, title: string, k3: string, sound: string)
    ensures Layout(k1, message, k2, title, k3, sound)
      == (k1 + EscapeQuotes(message) + [Quote]) + k2 + (EscapeQuotes(title) + [Quote] + (k3 + sound + [Quote]))
  {
  }

  /** The command as the text up to the title literal's closing quote and the sound clause. */
  lemma LayoutAtSound(k1: string, message: string, k2: string, title: string, k3: string, sound: string)
    ensures Layout(k1, message, k2, title, k3, sound)
      == (k1 + EscapeQuotes(message) + [Quote] + k2 + EscapeQuotes(title) + [Quote]) + (k3 + sound + [Quote])
  {
  }

  /** The fixed words come first, then the message literal that reads back. */
  lemma LayoutMessagePart(k1: string, message: string, k2: string, title: string, k3: string, sound: string)
    requires Backslash !in message
    ensures var script := Layout(k1, message, k2, title, k3, sound);
      && script[..|k1|] == k1
      && ReadLiteral(script[|k1|..]) == Some((message, |EscapeQuotes(message)| + 1))
  {
    var afterMessage := k2 + EscapeQuotes(title) + [Quote] + k3 + sound + [Quote];
    LayoutAtMessage(k1, message, k2, title, k3, sound);
    SplitAt(k1, EscapeQuotes(message) + [Quote] + afterMessage);
    EscapedLiteralRoundTrip(message, afterMessage);
  }

  /** After the message literal: the title's words, the title literal that reads back,
      then the sound clause. */
  lemma LayoutTitlePart(k1: string, message: string, k2: string, title: string, k3: string, sound: string)
    requires Backslash !in title
    ensures var script := Layout(k1, message, k2, title, k3, sound);
      var t := |k1| + |EscapeQuotes(message)| + 1 + |k2|;
      && script[t - |k2|..t] == k2
      && ReadLiteral(script[t..]) == Some((title, |EscapeQuotes(title)| + 1))
      && script[t + |EscapeQuotes(title)| + 1..] == k3 + sound + [Quote]
  {
    LayoutTitleLiteral(k1, message, k2, title, k3, sound);
    LayoutSoundClause(k1, message, k2, title, k3, sound);
  }

  lemma LayoutTitleLiteral(k1: string, message: string, k2: string, title: string, k3: string, sound: string)
    requires Backslash !in title
    ensures var script := Layout(k1, message, k2, title, k3, sound);
      var t := |k1| + |EscapeQuotes(message)| + 1 + |k2|;
      && script[t - |k2|..t] == k2
      && ReadLiteral(script[t..]) == Some((title, |EscapeQuotes(title)| + 1))
  {
    var afterTitle := k3 + sound + [Quote];
    LayoutAtTitle(k1, message, k2, title, k3, sound);
    SplitThree(k1 + EscapeQuotes(message) + [Quote], k2, EscapeQuotes(title) + [Quote] + afterTitle);
    EscapedLiteralRoundTrip(title, afterTitle);
  }

  lemma LayoutSoundClause(k1: string, message: string, k2: string, title: string, k3: string, sound: string)
    ensures var script := Layout(k1, message, k2, title, k3, sound);
      var t := |k1| + |EscapeQuotes(message)| + 1 + |k2|;
      script[t + |EscapeQuotes(title)| + 1..] == k3 + sound + [Quote]
  {
    LayoutAtSound(k1, message, k2, title, k3, sound);
    SplitAt(k1 + EscapeQuotes(message) + [Quote] + k2 + EscapeQuotes(title) + [Quote], k3 + sound + [Quote]);
  }

  /** Reading the command as AppleScript does: after the words that open the message
      literal, the literal reads back as the message and ends at its closing quote; the
      title's words follow, then a literal that reads back as the title, then the sound
      clause. This holds for any message and title without backslashes. */
  lemma NotificationScriptReadsBack(title: string, message: string, sound: string)
    requires Backslash !in title && Backslash !in message
    ensures var script := NotificationScript(title, message, sound);
      var m := |MessageKey|;
      var t := m + |EscapeQuotes(message)| + 1 + |TitleKey|;
      && script[..m] == MessageKey
      && ReadLiteral(script[m..]) == Some((message, t - m - |TitleKey|))
      && script[t - |TitleKey|..t] == TitleKey
      && ReadLiteral(script[t..]) == Some((title, |EscapeQuotes(title)| + 1))
      && script[t + |EscapeQuotes(title)| + 1..] == SoundKey + sound + [Quote]
  {
    assert NotificationScript(title, message, sound) == Layout(MessageKey, message, TitleKey, title, SoundKey, sound);
    LayoutMessagePart(MessageKey, message, TitleKey, title, SoundKey, sound);
    LayoutTitlePart(MessageKey, message, TitleKey, title, SoundKey, sound);
  }
}
