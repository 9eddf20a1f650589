/**
 Breaking a too-large piece of text: at paragraphs, then at sentences, then by length.

 Where the regular expressions split is an arbitrary input; all that is known of a separator
 is that it is whitespace.  Parts are packed greedily up to a target size, and what is still
 too large is broken by the next finer means; the last of them, a cut by length, always
 succeeds.
 */
module Splitting {
  import opened Text

  const TARGET_TOKENS := 220
  const MAX_TOKENS := 400
  const CHARS_PER_TOKEN := 4
  const LIMIT := MAX_TOKENS * CHARS_PER_TOKEN

  function EstimateTokens(text: string): (tokens: nat)
    ensures tokens >= 1
    ensures forall n: nat :: n >= 1 ==> (tokens <= n <==> |text| <= CHARS_PER_TOKEN * n)
  {
    var t := (|text| + CHARS_PER_TOKEN - 1) / CHARS_PER_TOKEN;
    if t < 1 then 1 else t
  }

  datatype Span = Span(start: nat, end: nat)

  /** The spans follow one another from a position on, inside the text, and hold only whitespace. */
  predicate Separators(text: string, spans: seq<Span>, from: nat) {
    && from <= |text|
    && (|spans| > 0 ==>
          && from <= spans[0].start <= spans[0].end <= |text|
          && Blank(text[spans[0].start..spans[0].end])
          && Separators(text, spans[1..], spans[0].end))
  }

  /** What is left of the text from a position on when the separators are cut out. */
  function Segments(text: string, spans: seq<Span>, from: nat): seq<string>
    requires Separators(text, spans, from)
  {
    if |spans| == 0 then [text[from..]]
    else [text[from..spans[0].start]] + Segments(text, spans[1..], spans[0].end)
  }

  lemma SeparatorHasNoContent(before: string, separator: string, after: string)
    requires Blank(separator)
    ensures Content(before + separator + after) == Content(before) + Content(after)
  {
    ContentAppend(before + separator, after);
    ContentAppend(before, separator);
    BlankHasNoContent(separator);
  }

  lemma {:induction false} SegmentsConserve(text: string, spans: seq<Span>, from: nat)
    requires Separators(text, spans, from)
    ensures ContentOf(Segments(text, spans, from)) == Content(text[from..])
  {
    if |spans| == 0 {
      ContentOfOne(text[from..]);
    } else {
      var a, s, b := text[from..spans[0].start], text[spans[0].start..spans[0].end], text[spans[0].end..];
      SegmentsConserve(text, spans[1..], spans[0].end);
      ContentOfAppend([a], Segments(text, spans[1..], spans[0].end));
      ContentOfOne(a);
      assert text[from..] == a + s + b;
      SeparatorHasNoContent(a, s, b);
    }
  }

  // ---- greedy packing -------------------------------------------------------------

  predicate Overflows(separator: string, buffer: seq<string>, part: string) {
    EstimateTokens(Join(separator, buffer + [part])) > TARGET_TOKENS && |buffer| > 0
  }

  /** Joins neighbours as long as they fit the target, starting from what the buffer holds. */
  function Packed(separator: string, buffer: seq<string>, parts: seq<string>): seq<string>
    decreases |parts|
  {
    if |parts| == 0 then
      if |buffer| == 0 then [] else [Join(separator, buffer)]
    else if Overflows(separator, buffer, parts[0]) then
      [Join(separator, buffer)] + Packed(separator, [parts[0]], parts[1..])
    else
      Packed(separator, buffer + [parts[0]], parts[1..])
  }

  method Pack(separator: string, parts: seq<string>) returns (out: seq<string>)
    ensures out == Packed(separator, [], parts)
  {
    out := [];
    var buffer: seq<string> := [];
    var i := 0;
    while i < |parts|
      invariant i <= |parts|
      invariant out + Packed(separator, buffer, parts[i..]) == Packed(separator, [], parts)
    {
      assert parts[i..][1..] == parts[i + 1..];
      var candidate := buffer + [parts[i]];
      if EstimateTokens(Join(separator, candidate)) > TARGET_TOKENS && |buffer| > 0 {
        out := out + [Join(separator, buffer)];
        buffer := [parts[i]];
      } else {
        buffer := buffer + [parts[i]];
      }
      i := i + 1;
    }
    if |buffer| > 0 {
      out := out + [Join(separator, buffer)];
    }
  }

  lemma {:induction false} PackedConserves(separator: string, buffer: seq<string>, parts: seq<string>)
    requires Blank(separator)
    ensures ContentOf(Packed(separator, buffer, parts)) == ContentOf(buffer) + ContentOf(parts)
    decreases |parts|
  {
    var joined := Join(separator, buffer);
    JoinKeepsContent(separator, buffer);
    ContentOfOne(joined);
    if |parts| > 0 {
      var head, rest := parts[0], parts[1..];
      assert parts == [head] + rest;
      ContentOfAppend([head], rest);
      if Overflows(separator, buffer, head) {
        PackedConserves(separator, [head], rest);
        ContentOfAppend([joined], Packed(separator, [head], rest));
      } else {
        PackedConserves(separator, buffer + [head], rest);
        ContentOfAppend(buffer, [head]);
        Associative(ContentOf(buffer), ContentOf([head]), ContentOf(rest));
      }
    }
  }

  predicate Fits(text: string) {
    EstimateTokens(text) <= TARGET_TOKENS
  }

  /** A packed text over the target is a single part that was already over it. */
  lemma {:induction false} PackedFitsOrIsOnePart(separator: string, buffer: seq<string>, parts: seq<string>)
    requires |buffer| <= 1 || Fits(Join(separator, buffer))
    ensures forall t :: t in Packed(separator, buffer, parts) ==> Fits(t) || t in buffer || t in parts
    decreases |parts|
  {
    if |parts| > 0 {
      if Overflows(separator, buffer, parts[0]) {
        PackedFitsOrIsOnePart(separator, [parts[0]], parts[1..]);
      } else {
        PackedFitsOrIsOnePart(separator, buffer + [parts[0]], parts[1..]);
      }
    }
  }

  /**
   How many neighbours each packed text joins: at least one; more only while they fit 880 characters;
   and never one fewer than fit.
   */
  predicate Greedy(separator: string, parts: seq<string>, sizes: seq<nat>)
    decreases |sizes|
  {
    if |parts| == 0 then |sizes| == 0
    else
      && |sizes| > 0 && 1 <= sizes[0] <= |parts|
      && (sizes[0] > 1 ==> |Join(separator, parts[..sizes[0]])| <= 880)
      && (sizes[0] < |parts| ==> |Join(separator, parts[..sizes[0] + 1])| > 880)
      && Greedy(separator, parts[sizes[0]..], sizes[1..])
  }

  function Grouped(separator: string, parts: seq<string>, sizes: seq<nat>): seq<string>
    requires Greedy(separator, parts, sizes)
    decreases |sizes|
  {
    if |parts| == 0 then [] else [Join(separator, parts[..sizes[0]])] + Grouped(separator, parts[sizes[0]..], sizes[1..])
  }

  lemma OneMoreGroup(separator: string, buffer: seq<string>, parts: seq<string>, sizes: seq<nat>)
    requires |buffer| > 0 && (|buffer| > 1 ==> |Join(separator, buffer)| <= 880)
    requires |parts| > 0 ==> |Join(separator, buffer + [parts[0]])| > 880
    requires Greedy(separator, parts, sizes)
    ensures Greedy(separator, buffer + parts, [|buffer|] + sizes)
    ensures Grouped(separator, buffer + parts, [|buffer|] + sizes) == [Join(separator, buffer)] + Grouped(separator, parts, sizes)
  {
    var all, more := buffer + parts, [|buffer|] + sizes;
    assert all[..|buffer|] == buffer && all[|buffer|..] == parts && more[1..] == sizes;
    assert |parts| > 0 ==> all[..|buffer| + 1] == buffer + [parts[0]];
  }

  lemma {:induction false} PackedIsGrouped(separator: string, buffer: seq<string>, parts: seq<string>) returns (sizes: seq<nat>)
    requires |buffer| > 0 && (|buffer| > 1 ==> |Join(separator, buffer)| <= 880)
    ensures Greedy(separator, buffer + parts, sizes) && Packed(separator, buffer, parts) == Grouped(separator, buffer + parts, sizes)
    decreases |parts|
  {
    if |parts| == 0 {
      OneMoreGroup(separator, buffer, parts, []);
      sizes := [|buffer|] + [];
    } else if Overflows(separator, buffer, parts[0]) {
      sizes := PackedIsGrouped(separator, [parts[0]], parts[1..]);
      assert [parts[0]] + parts[1..] == parts;
      OneMoreGroup(separator, buffer, parts, sizes);
      sizes := [|buffer|] + sizes;
    } else {
      assert (buffer + [parts[0]]) + parts[1..] == buffer + parts;
      sizes := PackedIsGrouped(separator, buffer + [parts[0]], parts[1..]);
    }
  }

  /** Packing joins neighbours greedily: as many as fit, never more, every part once and in order. */
  lemma PackingIsGreedy(separator: string, parts: seq<string>) returns (sizes: seq<nat>)
    ensures Greedy(separator, parts, sizes) && Packed(separator, [], parts) == Grouped(separator, parts, sizes)
  {
    if |parts| == 0 {
      sizes := [];
    } else {
      assert [] + [parts[0]] == [parts[0]] && [parts[0]] + parts[1..] == parts;
      sizes := PackedIsGrouped(separator, [parts[0]], parts[1..]);
    }
  }

  // ---- the three stages -----------------------------------------------------------

  /** The stripped texts among the segments that are not blank. */
  function Paragraphs(segments: seq<string>): seq<string> {
    if |segments| == 0 then [] else Paragraphs(segments[..|segments| - 1]) + Stripped(segments[|segments| - 1])
  }

  lemma {:induction false} ParagraphsConserve(segments: seq<string>)
    ensures ContentOf(Paragraphs(segments)) == ContentOf(segments)
  {
    if |segments| > 0 {
      ParagraphsConserve(segments[..|segments| - 1]);
      StrippedKeepsContent(Paragraphs(segments[..|segments| - 1]), segments[|segments| - 1]);
    }
  }

  /** The pieces of a text, each of the given length but the last. */
  function HardCut(text: string): seq<string>
    decreases |text|
  {
    if |text| <= LIMIT then [text] else [text[..LIMIT]] + HardCut(text[LIMIT..])
  }

  lemma {:induction false} HardCutConserves(text: string)
    ensures ContentOf(HardCut(text)) == Content(text)
    ensures forall t :: t in HardCut(text) ==> |t| <= LIMIT
    decreases |text|
  {
    if |text| <= LIMIT {
      ContentOfOne(text);
    } else {
      HardCutConserves(text[LIMIT..]);
      ContentOfAppend([text[..LIMIT]], HardCut(text[LIMIT..]));
      ContentOfOne(text[..LIMIT]);
      assert text == text[..LIMIT] + text[LIMIT..];
      ContentAppend(text[..LIMIT], text[LIMIT..]);
    }
  }

  /** The i-th piece is the i-th stretch of 1600 characters, and there are as many as the text needs. */
  lemma {:induction false} HardCutAt(text: string, i: nat)
    ensures var pieces := HardCut(text);
            && |pieces| >= 1 && 1600 * (|pieces| - 1) <= |text| <= 1600 * |pieces|
            && (|pieces| > 1 ==> 1600 * (|pieces| - 1) < |text|)
            && (i < |pieces| ==> pieces[i] == text[1600 * i..if 1600 * i + 1600 < |text| then 1600 * i + 1600 else |text|])
    decreases |text|
  {
    if |text| > LIMIT {
      HardCutAt(text[LIMIT..], if i > 0 then i - 1 else 0);
    }
  }

  // Where paragraphs and sentences of a text are separated.
  datatype Breaks = Breaks(paragraphs: string -> seq<Span>, sentences: string -> seq<Span>)

  ghost predicate Whitespace(breaks: Breaks) {
    && (forall text :: Separators(text, breaks.paragraphs(text), 0))
    && (forall text :: Separators(text, breaks.sentences(text), 0))
  }

  function BySentence(text: string, breaks: Breaks): seq<string>
    requires Separators(text, breaks.sentences(text), 0)
  {
    if EstimateTokens(text) <= MAX_TOKENS then [text]
    else Packed(" ", [], Segments(text, breaks.sentences(text), 0))
  }

  function AllBySentence(texts: seq<string>, breaks: Breaks): seq<string>
    requires Whitespace(breaks)
  {
    if |texts| == 0 then []
    else AllBySentence(texts[..|texts| - 1], breaks) + BySentence(texts[|texts| - 1], breaks)
  }

  function AllHardCut(texts: seq<string>): seq<string> {
    if |texts| == 0 then [] else AllHardCut(texts[..|texts| - 1]) + HardCut(texts[|texts| - 1])
  }

  function PackedParagraphs(text: string, breaks: Breaks): seq<string>
    requires Whitespace(breaks)
  {
    Packed("\n\n", [], Paragraphs(Segments(text, breaks.paragraphs(text), 0)))
  }

  function Split(text: string, breaks: Breaks): seq<string>
    requires Whitespace(breaks)
  {
    if EstimateTokens(text) <= MAX_TOKENS then [text]
    else AllHardCut(AllBySentence(PackedParagraphs(text, breaks), breaks))
  }

  method KeepParagraphs(segments: seq<string>) returns (paragraphs: seq<string>)
    ensures paragraphs == Paragraphs(segments)
  {
    paragraphs := [];
    for i := 0 to |segments|
      invariant paragraphs == Paragraphs(segments[..i])
    {
      assert segments[..i + 1][..i] == segments[..i];
      var paragraph := Strip(segments[i]);
      if |paragraph| > 0 {
        paragraphs := paragraphs + [paragraph];
      }
    }
    assert segments[..|segments|] == segments;
  }

  method SplitSentences(out: seq<string>, breaks: Breaks) returns (final: seq<string>)
    requires Whitespace(breaks)
    ensures final == AllBySentence(out, breaks)
  {
    final := [];
    for i := 0 to |out|
      invariant final == AllBySentence(out[..i], breaks)
    {
      assert out[..i + 1][..i] == out[..i];
      if EstimateTokens(out[i]) <= MAX_TOKENS {
        final := final + [out[i]];
      } else {
        var sentences := Pack(" ", Segments(out[i], breaks.sentences(out[i]), 0));
        final := final + sentences;
      }
    }
    assert out[..|out|] == out;
  }

  method CutBySize(final: seq<string>) returns (bounded: seq<string>)
    ensures bounded == AllHardCut(final)
  {
    bounded := [];
    for i := 0 to |final|
      invariant bounded == AllHardCut(final[..i])
    {
      assert final[..i + 1][..i] == final[..i];
      bounded := bounded + HardCut(final[i]);
    }
    assert final[..|final|] == final;
  }

  method SplitOversized(text: string, breaks: Breaks) returns (bounded: seq<string>)
    requires Whitespace(breaks)
    ensures bounded == Split(text, breaks)
  {
    if EstimateTokens(text) <= MAX_TOKENS {
      return [text];
    }
    var paragraphs := KeepParagraphs(Segments(text, breaks.paragraphs(text), 0));
    var out := Pack("\n\n", paragraphs);
    var final := SplitSentences(out, breaks);
    bounded := CutBySize(final);
  }

  lemma BySentenceConserves(text: string, breaks: Breaks)
    requires Whitespace(breaks)
    ensures ContentOf(BySentence(text, breaks)) == Content(text)
  {
    if EstimateTokens(text) <= MAX_TOKENS {
      ContentOfOne(text);
    } else {
      var sentences := Segments(text, breaks.sentences(text), 0);
      SegmentsConserve(text, breaks.sentences(text), 0);
      assert text[0..] == text;
      PackedConserves(" ", [], sentences);
    }
  }

  lemma {:induction false} AllBySentenceConserves(texts: seq<string>, breaks: Breaks)
    requires Whitespace(breaks)
    ensures ContentOf(AllBySentence(texts, breaks)) == ContentOf(texts)
  {
    if |texts| > 0 {
      var front, last := texts[..|texts| - 1], texts[|texts| - 1];
      AllBySentenceConserves(front, breaks);
      BySentenceConserves(last, breaks);
      ContentOfAppend(AllBySentence(front, breaks), BySentence(last, breaks));
    }
  }

  lemma {:induction false} AllHardCutConserves(texts: seq<string>)
    ensures ContentOf(AllHardCut(texts)) == ContentOf(texts)
    ensures forall t :: t in AllHardCut(texts) ==> |t| <= LIMIT
  {
    if |texts| > 0 {
      var front, last := texts[..|texts| - 1], texts[|texts| - 1];
      AllHardCutConserves(front);
      HardCutConserves(last);
      ContentOfAppend(AllHardCut(front), HardCut(last));
    }
  }

  lemma PackedParagraphsConserve(text: string, breaks: Breaks)
    requires Whitespace(breaks)
    ensures ContentOf(PackedParagraphs(text, breaks)) == Content(text)
  {
    var segments := Segments(text, breaks.paragraphs(text), 0);
    SegmentsConserve(text, breaks.paragraphs(text), 0);
    assert text[0..] == text;
    ParagraphsConserve(segments);
    PackedConserves("\n\n", [], Paragraphs(segments));
  }

  /** Splitting keeps every non-whitespace character, in order, and bounds every part. */
  lemma SplitConserves(text: string, breaks: Breaks)
    requires Whitespace(breaks)
    ensures ContentOf(Split(text, breaks)) == Content(text)
    ensures forall t :: t in Split(text, breaks) ==> |t| <= LIMIT
  {
    if EstimateTokens(text) <= MAX_TOKENS {
      ContentOfOne(text);
    } else {
      var out := PackedParagraphs(text, breaks);
      PackedParagraphsConserve(text, breaks);
      AllBySentenceConserves(out, breaks);
      AllHardCutConserves(AllBySentence(out, breaks));
    }
  }

  // ---- structure comes before size -------------------------------------------------------

  /**
   A part that splitting may leave: up to 880 characters; or a paragraph of up to 1600; or, of a paragraph beyond that, a
   sentence of up to 1600; or a stretch of a sentence beyond that.
   */
  ghost predicate IsNatural(t: string, text: string, breaks: Breaks)
    requires Whitespace(breaks)
  {
    var paragraphs := Paragraphs(Segments(text, breaks.paragraphs(text), 0));
    || |t| <= 880
    || (t in paragraphs && |t| <= 1600)
    || exists p :: p in paragraphs && |p| > 1600 && IsOfSentence(t, Segments(p, breaks.sentences(p), 0))
  }

  ghost predicate IsOfSentence(t: string, sentences: seq<string>) {
    exists s :: s in sentences && t in HardCut(s)
  }

  lemma {:induction false} CutFrom(texts: seq<string>, t: string)
    requires t in AllHardCut(texts)
    ensures exists s :: s in texts && t in HardCut(s)
  {
    if t !in HardCut(texts[|texts| - 1]) {
      CutFrom(texts[..|texts| - 1], t);
    }
  }

  lemma {:induction false} SentenceFrom(texts: seq<string>, breaks: Breaks, t: string)
    requires Whitespace(breaks) && t in AllBySentence(texts, breaks)
    ensures exists p :: p in texts && t in BySentence(p, breaks)
  {
    if t !in BySentence(texts[|texts| - 1], breaks) {
      SentenceFrom(texts[..|texts| - 1], breaks, t);
    }
  }

  lemma ShortIsWhole(s: string, t: string)
    requires t in HardCut(s)
    ensures |s| <= 1600 ==> t == s
    ensures |t| <= |s|
  {
  }

  /**
   Splitting prefers paragraphs to sentences and sentences to cuts by length; a text of up to 1600
   characters stays whole.
   */
  lemma SplitRespectsStructure(text: string, breaks: Breaks)
    requires Whitespace(breaks)
    ensures |text| <= 1600 ==> Split(text, breaks) == [text]
    ensures |text| > 1600 ==> forall t :: t in Split(text, breaks) ==> IsNatural(t, text, breaks)
  {
    if |text| > 1600 {
      forall t | t in Split(text, breaks) ensures IsNatural(t, text, breaks) {
        PartIsNatural(text, breaks, t);
      }
    }
  }

  lemma PackedParagraph(separator: string, paragraphs: seq<string>, p: string)
    requires p in Packed(separator, [], paragraphs)
    ensures |p| <= 880 || p in paragraphs
  {
    PackedFitsOrIsOnePart(separator, [], paragraphs);
  }

  lemma PackedSentence(p: string, breaks: Breaks, s: string)
    requires Whitespace(breaks) && s in BySentence(p, breaks)
    ensures if |p| <= 1600 then s == p else |s| <= 880 || s in Segments(p, breaks.sentences(p), 0)
  {
    if |p| > 1600 {
      PackedParagraph(" ", Segments(p, breaks.sentences(p), 0), s);
    }
  }

  lemma PartIsNatural(text: string, breaks: Breaks, t: string)
    requires Whitespace(breaks) && |text| > 1600 && t in Split(text, breaks)
    ensures IsNatural(t, text, breaks)
  {
    var out := PackedParagraphs(text, breaks);
    CutFrom(AllBySentence(out, breaks), t);
    var s :| s in AllBySentence(out, breaks) && t in HardCut(s);
    SentenceFrom(out, breaks, s);
    var p :| p in out && s in BySentence(p, breaks);
    ShortIsWhole(s, t);
    PackedParagraph("\n\n", Paragraphs(Segments(text, breaks.paragraphs(text), 0)), p);
    PackedSentence(p, breaks, s);
  }
}
