/**
 Text, as far as chunking, hashing and parsing need it.

 Whitespace is Unicode whitespace.  Stripping takes it away at both ends; the content of a
 text is what is left when all of it is taken away, in order.  Content is what splitting has
 to keep: it is additive over concatenation, unchanged by stripping, and unchanged by
 joining parts with a blank separator.
 */
module Text {
  /** Unicode whitespace. */
  predicate IsSpace(c: char) {
    || '\t' <= c <= '\r' || '\U{1C}' <= c <= ' '
    || c == '\U{85}' || c == '\U{A0}' || c == '\U{1680}' || '\U{2000}' <= c <= '\U{200A}'
    || c == '\U{2028}' || c == '\U{2029}' || c == '\U{202F}' || c == '\U{205F}' || c == '\U{3000}'
  }

  predicate Blank(s: string) {
    forall i :: 0 <= i < |s| ==> IsSpace(s[i])
  }

  /** The non-whitespace characters of a text, in order. */
  function Content(s: string): string {
    if |s| == 0 then [] else (if IsSpace(s[0]) then [] else [s[0]]) + Content(s[1..])
  }

  function ContentOf(parts: seq<string>): string {
    if |parts| == 0 then [] else ContentOf(parts[..|parts| - 1]) + Content(parts[|parts| - 1])
  }

  /** What a splitter keeps of a segment: its stripped text, unless that is empty. */
  function Stripped(segment: string): seq<string> {
    if |Strip(segment)| == 0 then [] else [Strip(segment)]
  }

  function Join(separator: string, parts: seq<string>): string {
    if |parts| == 0 then []
    else if |parts| == 1 then parts[0]
    else parts[0] + separator + Join(separator, parts[1..])
  }

  function LStrip(s: string): string {
    if |s| > 0 && IsSpace(s[0]) then LStrip(s[1..]) else s
  }

  function RStrip(s: string): string {
    if |s| > 0 && IsSpace(s[|s| - 1]) then RStrip(s[..|s| - 1]) else s
  }

  function Strip(s: string): string {
    RStrip(LStrip(s))
  }

  lemma {:induction false} ContentAppend(a: string, b: string)
    ensures Content(a + b) == Content(a) + Content(b)
  {
    if |a| == 0 {
      assert a + b == b;
    } else {
      assert (a + b)[1..] == a[1..] + b;
      ContentAppend(a[1..], b);
    }
  }

  lemma {:induction false} BlankHasNoContent(s: string)
    requires Blank(s)
    ensures |Content(s)| == 0
  {
    if |s| > 0 {
      BlankHasNoContent(s[1..]);
    }
  }

  lemma {:induction false} NoContentIsBlank(s: string)
    requires |Content(s)| == 0
    ensures Blank(s)
  {
    if |s| > 0 {
      NoContentIsBlank(s[1..]);
      assert forall i :: 0 < i < |s| ==> s[i] == s[1..][i - 1];
    }
  }

  lemma {:induction false} LStripKeepsContent(s: string)
    ensures Content(LStrip(s)) == Content(s)
    ensures |LStrip(s)| <= |s| && (|LStrip(s)| == 0 || !IsSpace(LStrip(s)[0]))
  {
    if |s| > 0 && IsSpace(s[0]) {
      LStripKeepsContent(s[1..]);
    }
  }

  lemma {:induction false} RStripKeepsContent(s: string)
    ensures Content(RStrip(s)) == Content(s)
    ensures RStrip(s) <= s && (|RStrip(s)| == 0 || !IsSpace(RStrip(s)[|RStrip(s)| - 1]))
  {
    if |s| > 0 && IsSpace(s[|s| - 1]) {
      var rest := s[..|s| - 1];
      assert s == rest + [s[|s| - 1]];
      ContentAppend(rest, [s[|s| - 1]]);
      RStripKeepsContent(rest);
    }
  }

  /** Stripping removes whitespace only, and leaves a text that neither starts nor ends with it. */
  lemma StripKeepsContent(s: string)
    ensures Content(Strip(s)) == Content(s)
    ensures |Strip(s)| <= |s|
    ensures |Strip(s)| == 0 || (!IsSpace(Strip(s)[0]) && !IsSpace(Strip(s)[|Strip(s)| - 1]))
  {
    LStripKeepsContent(s);
    RStripKeepsContent(LStrip(s));
  }

  lemma Associative(a: string, b: string, c: string)
    ensures (a + b) + c == a + (b + c)
  {
  }

  lemma ContentOfSnoc(parts: seq<string>, last: string)
    ensures ContentOf(parts + [last]) == ContentOf(parts) + Content(last)
  {
    assert (parts + [last])[..|parts|] == parts;
  }

  lemma ContentOfOne(part: string)
    ensures ContentOf([part]) == Content(part)
  {
    var one := [part];
    assert |one[..0]| == 0;
  }

  lemma {:induction false} ContentOfAppend(a: seq<string>, b: seq<string>)
    ensures ContentOf(a + b) == ContentOf(a) + ContentOf(b)
  {
    if |b| == 0 {
      assert a + b == a;
    } else {
      var front, last := b[..|b| - 1], b[|b| - 1];
      ContentOfAppend(a, front);
      ContentOfSnoc(a + front, last);
      ContentOfSnoc(front, last);
      assert a + b == (a + front) + [last] && b == front + [last];
      Associative(ContentOf(a), ContentOf(front), Content(last));
    }
  }

  lemma StrippedKeepsContent(parts: seq<string>, segment: string)
    ensures ContentOf(parts + Stripped(segment)) == ContentOf(parts) + Content(segment)
  {
    StripKeepsContent(segment);
    if |Strip(segment)| == 0 {
      assert parts + Stripped(segment) == parts;
    } else {
      ContentOfSnoc(parts, Strip(segment));
    }
  }

  lemma {:induction false} JoinSplits(separator: string, parts: seq<string>, last: string)
    requires |parts| > 0
    ensures Join(separator, parts + [last]) == Join(separator, parts) + separator + last
  {
    assert (parts + [last])[1..] == parts[1..] + [last];
    if |parts| > 1 {
      JoinSplits(separator, parts[1..], last);
    }
  }

  lemma {:induction false} JoinKeepsContent(separator: string, parts: seq<string>)
    requires Blank(separator)
    ensures Content(Join(separator, parts)) == ContentOf(parts)
  {
    if |parts| == 1 {
      ContentOfOne(parts[0]);
      assert parts == [parts[0]];
    } else if |parts| > 0 {
      var front, last := parts[..|parts| - 1], parts[|parts| - 1];
      assert parts == front + [last];
      JoinKeepsContent(separator, front);
      JoinSplits(separator, front, last);
      BlankHasNoContent(separator);
      ContentAppend(Join(separator, front) + separator, last);
      ContentAppend(Join(separator, front), separator);
      ContentOfSnoc(front, last);
    }
  }
}
