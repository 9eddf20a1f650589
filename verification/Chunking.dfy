/**
 The structural chunker: page markers first, then headings and problem numbers, then
 size.  What the regular expressions find in a text is an arbitrary input here, as long
 as page markers are ordered and inside the text and separators are whitespace.
 */
module Chunking {
  import opened Common
  import opened Sorting
  import opened Splitting
  import opened Text

  const MIN_TOKENS := 8

  datatype Marker = Marker(start: nat, end: nat, number: nat)

  // What the regular expressions of the chunker find in a text.
  datatype Matches = Matches(
    markers: seq<Marker>,
    boundaries: string -> set<nat>,
    heading: (string, nat) -> Option<string>,
    breaks: Breaks)

  // A page, a structural piece of a page, or a part of a piece; a page has no section.
  datatype Passage = Passage(text: string, page: Option<nat>, section: Option<string>)

  datatype Chunk = Chunk(text: string, ordinal: nat, page: Option<nat>, section: Option<string>, tokens: nat)

  predicate Ordered(text: string, markers: seq<Marker>) {
    && (forall i :: 0 <= i < |markers| ==> markers[i].start <= markers[i].end <= |text|)
    && (forall i, j :: 0 <= i < j < |markers| ==> markers[i].end <= markers[j].start)
  }

  /** The non-whitespace characters of some passages, in order. */
  function Substance(passages: seq<Passage>): string {
    if |passages| == 0 then []
    else Substance(passages[..|passages| - 1]) + Content(passages[|passages| - 1].text)
  }

  lemma SubstanceSnoc(passages: seq<Passage>, last: Passage)
    ensures Substance(passages + [last]) == Substance(passages) + Content(last.text)
  {
    assert (passages + [last])[..|passages|] == passages;
  }

  lemma {:induction false} SubstanceAppend(a: seq<Passage>, b: seq<Passage>)
    ensures Substance(a + b) == Substance(a) + Substance(b)
  {
    if |b| == 0 {
      assert a + b == a;
    } else {
      var front, last := b[..|b| - 1], b[|b| - 1];
      SubstanceAppend(a, front);
      SubstanceSnoc(a + front, last);
      assert a + b == (a + front) + [last];
      Associative(Substance(a), Substance(front), Content(last.text));
    }
  }

  /** The passage a stripped segment becomes; a blank segment becomes none. */
  function Kept(segment: string, page: Option<nat>, section: Option<string>): seq<Passage> {
    if |Strip(segment)| == 0 then [] else [Passage(Strip(segment), page, section)]
  }

  lemma KeptConserves(earlier: seq<Passage>, segment: string, page: Option<nat>, section: Option<string>)
    ensures Substance(earlier + Kept(segment, page, section)) == Substance(earlier) + Content(segment)
  {
    StripKeepsContent(segment);
    if |Strip(segment)| == 0 {
      assert earlier + Kept(segment, page, section) == earlier;
    } else {
      SubstanceSnoc(earlier, Passage(Strip(segment), page, section));
    }
  }

  // ---- pages ----------------------------------------------------------------------

  function Region(text: string, markers: seq<Marker>, i: nat): string
    requires Ordered(text, markers) && i < |markers|
  {
    var end := if i + 1 < |markers| then markers[i + 1].start else |text|;
    text[markers[i].end..end]
  }

  /** The preamble and the pages of the first n markers. */
  function PagesUpTo(text: string, markers: seq<Marker>, n: nat): seq<Passage>
    requires Ordered(text, markers) && |markers| > 0 && n <= |markers|
  {
    if n == 0 then Kept(text[..markers[0].start], None, None)
    else PagesUpTo(text, markers, n - 1) + Kept(Region(text, markers, n - 1), Some(markers[n - 1].number), None)
  }

  function Pages(text: string, markers: seq<Marker>): seq<Passage>
    requires Ordered(text, markers)
  {
    if |markers| == 0 then [Passage(text, None, None)] else PagesUpTo(text, markers, |markers|)
  }

  method SplitPages(text: string, markers: seq<Marker>) returns (pages: seq<Passage>)
    requires Ordered(text, markers)
    ensures pages == Pages(text, markers)
  {
    if |markers| == 0 {
      return [Passage(text, None, None)];
    }
    pages := [];
    var preamble := Strip(text[..markers[0].start]);
    if |preamble| > 0 {
      pages := [Passage(preamble, None, None)];
    }
    assert pages == Kept(text[..markers[0].start], None, None);
    for index := 0 to |markers|
      invariant pages == PagesUpTo(text, markers, index)
    {
      var end := if index + 1 < |markers| then markers[index + 1].start else |text|;
      var body := Strip(text[markers[index].end..end]);
      assert text[markers[index].end..end] == Region(text, markers, index);
      if |body| > 0 {
        pages := pages + [Passage(body, Some(markers[index].number), None)];
      }
    }
  }

  /** The text before the end of region n, with the page markers cut out. */
  function CutUpTo(text: string, markers: seq<Marker>, n: nat): string
    requires Ordered(text, markers) && |markers| > 0 && n <= |markers|
  {
    if n == 0 then text[..markers[0].start] else CutUpTo(text, markers, n - 1) + Region(text, markers, n - 1)
  }

  function WithoutMarkers(text: string, markers: seq<Marker>): string
    requires Ordered(text, markers)
  {
    if |markers| == 0 then text else CutUpTo(text, markers, |markers|)
  }

  lemma {:induction false} PagesUpToConserve(text: string, markers: seq<Marker>, n: nat)
    requires Ordered(text, markers) && |markers| > 0 && n <= |markers|
    ensures Substance(PagesUpTo(text, markers, n)) == Content(CutUpTo(text, markers, n))
  {
    if n == 0 {
      PreambleConserves(text[..markers[0].start]);
    } else {
      PagesUpToConserve(text, markers, n - 1);
      PageConserves(PagesUpTo(text, markers, n - 1), CutUpTo(text, markers, n - 1),
                    Region(text, markers, n - 1), Some(markers[n - 1].number));
    }
  }

  lemma PreambleConserves(segment: string)
    ensures Substance(Kept(segment, None, None)) == Content(segment)
  {
    KeptConserves([], segment, None, None);
    assert [] + Kept(segment, None, None) == Kept(segment, None, None);
  }

  lemma PageConserves(earlier: seq<Passage>, cut: string, region: string, page: Option<nat>)
    requires Substance(earlier) == Content(cut)
    ensures Substance(earlier + Kept(region, page, None)) == Content(cut + region)
  {
    KeptConserves(earlier, region, page, None);
    ContentAppend(cut, region);
  }

  /** Splitting into pages loses the markers and nothing else. */
  lemma PagesConserve(text: string, markers: seq<Marker>)
    requires Ordered(text, markers)
    ensures Substance(Pages(text, markers)) == Content(WithoutMarkers(text, markers))
  {
    if |markers| == 0 {
      SubstanceSnoc([], Passage(text, None, None));
    } else {
      PagesUpToConserve(text, markers, |markers|);
    }
  }

  /** The text after the i-th marker, up to the next. */
  predicate IsAfter(region: string, text: string, markers: seq<Marker>, i: nat)
    requires Ordered(text, markers)
  {
    i < |markers| && region == text[markers[i].end..if i + 1 < |markers| then markers[i + 1].start else |text|]
  }

  /** The page holds what stands before the first marker, and has no number; or what stands after one, and has its number. */
  ghost predicate IsPage(p: Passage, text: string, markers: seq<Marker>)
    requires Ordered(text, markers) && |markers| > 0
  {
    || (p.page == None && p.text == Strip(text[..markers[0].start]))
    || exists i: nat, region :: IsAfter(region, text, markers, i) && p.page == Some(markers[i].number) && p.text == Strip(region)
  }

  /** The page of the i-th marker, if there is text after it. */
  function PageAfter(text: string, markers: seq<Marker>, i: nat): seq<Passage>
    requires Ordered(text, markers) && i < |markers|
  {
    Kept(Region(text, markers, i), Some(markers[i].number), None)
  }

  lemma {:induction false} PagesUpToAre(text: string, markers: seq<Marker>, n: nat, p: Passage)
    requires Ordered(text, markers) && |markers| > 0 && n <= |markers|
    ensures p in PagesUpTo(text, markers, n) <==>
            p in Kept(text[..markers[0].start], None, None) || exists i: nat :: i < n && p in PageAfter(text, markers, i)
  {
    if n > 0 {
      PagesUpToAre(text, markers, n - 1, p);
      var front, last := PagesUpTo(text, markers, n - 1), PageAfter(text, markers, n - 1);
      assert p in front + last <==> p in front || p in last;
    }
  }

  lemma KeptIs(segment: string, page: Option<nat>, p: Passage)
    ensures p in Kept(segment, page, None) <==> p == Passage(Strip(segment), page, None) && |Strip(segment)| > 0
  {
  }

  lemma PageIsNumbered(text: string, markers: seq<Marker>, p: Passage)
    requires Ordered(text, markers) && |markers| > 0 && p in Pages(text, markers)
    ensures IsPage(p, text, markers) && |p.text| > 0 && p.section == None
  {
    PagesUpToAre(text, markers, |markers|, p);
    KeptIs(text[..markers[0].start], None, p);
    if i: nat :| i < |markers| && p in PageAfter(text, markers, i) {
      KeptIs(Region(text, markers, i), Some(markers[i].number), p);
      assert IsAfter(Region(text, markers, i), text, markers, i);
    }
  }

  lemma TextIsOnPage(text: string, markers: seq<Marker>, i: nat, region: string)
    requires Ordered(text, markers) && IsAfter(region, text, markers, i) && |Strip(region)| > 0
    ensures Passage(Strip(region), Some(markers[i].number), None) in Pages(text, markers)
  {
    var p := Passage(Strip(region), Some(markers[i].number), None);
    KeptIs(region, Some(markers[i].number), p);
    assert p in PageAfter(text, markers, i);
    PagesUpToAre(text, markers, |markers|, p);
  }

  /** Every page carries the number of the marker its text follows, and no text that follows a marker is left out. */
  lemma PagesCarryTheirNumbers(text: string, markers: seq<Marker>)
    requires Ordered(text, markers)
    ensures |markers| == 0 ==> Pages(text, markers) == [Passage(text, None, None)]
    ensures |markers| > 0 ==> forall p :: p in Pages(text, markers) ==> IsPage(p, text, markers) && |p.text| > 0 && p.section == None
    ensures |markers| > 0 && |Strip(text[..markers[0].start])| > 0 ==>
              Passage(Strip(text[..markers[0].start]), None, None) in Pages(text, markers)
    ensures forall i: nat, region :: IsAfter(region, text, markers, i) && |Strip(region)| > 0 ==>
              Passage(Strip(region), Some(markers[i].number), None) in Pages(text, markers)
  {
    if |markers| > 0 {
      var preamble := Passage(Strip(text[..markers[0].start]), None, None);
      KeptIs(text[..markers[0].start], None, preamble);
      PagesUpToAre(text, markers, |markers|, preamble);
      forall p | p in Pages(text, markers) ensures IsPage(p, text, markers) && |p.text| > 0 && p.section == None {
        PageIsNumbered(text, markers, p);
      }
      forall i: nat, region | IsAfter(region, text, markers, i) && |Strip(region)| > 0
        ensures Passage(Strip(region), Some(markers[i].number), None) in Pages(text, markers)
      {
        TextIsOnPage(text, markers, i, region);
      }
    }
  }

  function MarkerChars(markers: seq<Marker>, n: nat): int
    requires n <= |markers|
  {
    if n == 0 then 0 else MarkerChars(markers, n - 1) + (markers[n - 1].end - markers[n - 1].start)
  }

  lemma {:induction false} CutUpToLacksMarkers(text: string, markers: seq<Marker>, n: nat)
    requires Ordered(text, markers) && |markers| > 0 && n <= |markers|
    ensures |CutUpTo(text, markers, n)| + MarkerChars(markers, n) == if n < |markers| then markers[n].start else |text|
  {
    if n > 0 {
      CutUpToLacksMarkers(text, markers, n - 1);
    }
  }

  /** Cutting out the markers takes away as many characters as they have. */
  lemma OnlyMarkersAreCut(text: string, markers: seq<Marker>)
    requires Ordered(text, markers)
    ensures |WithoutMarkers(text, markers)| + MarkerChars(markers, |markers|) == |text|
  {
    if |markers| > 0 {
      CutUpToLacksMarkers(text, markers, |markers|);
    }
  }

  // ---- structural pieces -------------------------------------------------------------

  /** Start, end and every boundary found in between: sorted, without repetition. */
  function Boundaries(body: string, found: set<nat>): seq<nat> {
    Ascending({0} + found + {|body|}, |body| + 1)
  }

  predicate Cuts(body: string, cuts: seq<nat>) {
    Increasing(cuts) && |cuts| >= 1 && cuts[0] == 0 && cuts[|cuts| - 1] == |body|
  }

  lemma BoundariesCutTheBody(body: string, found: set<nat>)
    ensures Cuts(body, Boundaries(body, found))
    ensures forall p :: p in Boundaries(body, found) <==> p == 0 || p == |body| || (p in found && p < |body|)
  {
    var cuts := Boundaries(body, found);
    AscendingIsExact({0} + found + {|body|}, |body| + 1);
    assert 0 in cuts && |body| in cuts;
  }

  /** The pieces before cut n, each with the heading its start falls under. */
  function PiecesUpTo(page: Passage, cuts: seq<nat>, m: Matches, n: nat): seq<Passage>
    requires Cuts(page.text, cuts) && n < |cuts|
  {
    if n == 0 then []
    else
      PiecesUpTo(page, cuts, m, n - 1)
      + Kept(page.text[cuts[n - 1]..cuts[n]], page.page, m.heading(page.text, cuts[n - 1]))
  }

  function PiecesAt(page: Passage, cuts: seq<nat>, m: Matches): seq<Passage>
    requires Cuts(page.text, cuts)
  {
    OrWholePage(PiecesUpTo(page, cuts, m, |cuts| - 1), page)
  }

  function OrWholePage(pieces: seq<Passage>, page: Passage): seq<Passage> {
    if |pieces| == 0 then [Passage(Strip(page.text), page.page, None)] else pieces
  }

  function Pieces(page: Passage, m: Matches): seq<Passage> {
    BoundariesCutTheBody(page.text, m.boundaries(page.text));
    PiecesAt(page, Boundaries(page.text, m.boundaries(page.text)), m)
  }

  method StructuralPieces(page: Passage, m: Matches) returns (pieces: seq<Passage>)
    ensures pieces == Pieces(page, m)
  {
    var body := page.text;
    BoundariesCutTheBody(body, m.boundaries(body));
    var cuts := Boundaries(body, m.boundaries(body));
    pieces := [];
    for i := 0 to |cuts| - 1
      invariant pieces == PiecesUpTo(page, cuts, m, i)
    {
      var segment := Strip(body[cuts[i]..cuts[i + 1]]);
      if |segment| > 0 {
        pieces := pieces + [Passage(segment, page.page, m.heading(body, cuts[i]))];
      }
    }
    if |pieces| == 0 {
      pieces := [Passage(Strip(body), page.page, None)];
    }
  }

  predicate OnPage(passages: seq<Passage>, page: Option<nat>) {
    forall p :: p in passages ==> p.page == page
  }

  lemma ContentUpTo(text: string, from: nat, to: nat)
    requires from <= to <= |text|
    ensures Content(text[..to]) == Content(text[..from]) + Content(text[from..to])
  {
    assert text[..to] == text[..from] + text[from..to];
    ContentAppend(text[..from], text[from..to]);
  }

  lemma {:induction false} PiecesUpToConserve(page: Passage, cuts: seq<nat>, m: Matches, n: nat)
    requires Cuts(page.text, cuts) && n < |cuts|
    ensures Substance(PiecesUpTo(page, cuts, m, n)) == Content(page.text[..cuts[n]])
    ensures OnPage(PiecesUpTo(page, cuts, m, n), page.page)
  {
    if n == 0 {
      assert |page.text[..cuts[0]]| == 0;
    } else {
      PiecesUpToConserve(page, cuts, m, n - 1);
      PieceConserves(PiecesUpTo(page, cuts, m, n - 1), page.text, cuts[n - 1], cuts[n], page.page, m.heading(page.text, cuts[n - 1]));
    }
  }

  lemma PieceConserves(earlier: seq<Passage>, text: string, from: nat, to: nat, page: Option<nat>, section: Option<string>)
    requires from <= to <= |text| && OnPage(earlier, page) && Substance(earlier) == Content(text[..from])
    ensures OnPage(earlier + Kept(text[from..to], page, section), page)
    ensures Substance(earlier + Kept(text[from..to], page, section)) == Content(text[..to])
  {
    KeptConserves(earlier, text[from..to], page, section);
    ContentUpTo(text, from, to);
  }

  lemma WholePageConserves(page: Passage)
    ensures Substance([Passage(Strip(page.text), page.page, None)]) == Content(page.text)
  {
    StripKeepsContent(page.text);
    SubstanceSnoc([], Passage(Strip(page.text), page.page, None));
    assert [] + [Passage(Strip(page.text), page.page, None)] == [Passage(Strip(page.text), page.page, None)];
  }

  lemma PiecesAtConserve(page: Passage, cuts: seq<nat>, m: Matches)
    requires Cuts(page.text, cuts)
    ensures Substance(PiecesAt(page, cuts, m)) == Content(page.text)
    ensures OnPage(PiecesAt(page, cuts, m), page.page)
  {
    PiecesUpToConserve(page, cuts, m, |cuts| - 1);
    assert page.text[..|page.text|] == page.text;
    OrWholePageConserves(PiecesUpTo(page, cuts, m, |cuts| - 1), page);
  }

  lemma OrWholePageConserves(pieces: seq<Passage>, page: Passage)
    requires Substance(pieces) == Content(page.text) && OnPage(pieces, page.page)
    ensures Substance(OrWholePage(pieces, page)) == Content(page.text) && OnPage(OrWholePage(pieces, page), page.page)
  {
    WholePageConserves(page);
  }

  /** Splitting a page at its headings and problem numbers loses nothing and stays on the page. */
  lemma PiecesConserve(page: Passage, m: Matches)
    ensures Substance(Pieces(page, m)) == Content(page.text)
    ensures OnPage(Pieces(page, m), page.page)
  {
    BoundariesCutTheBody(page.text, m.boundaries(page.text));
    PiecesAtConserve(page, Boundaries(page.text, m.boundaries(page.text)), m);
  }

  predicate IsBoundary(body: string, found: set<nat>, p: nat) {
    p == 0 || p == |body| || (p in found && p < |body|)
  }

  /** From one boundary to the next. */
  predicate IsStretch(body: string, found: set<nat>, from: nat, to: nat) {
    && from < to <= |body| && IsBoundary(body, found, from) && IsBoundary(body, found, to)
    && forall p :: p in found ==> !(from < p < to)
  }

  /** The piece is a stretch of the page, stripped, on its page and under the heading its start falls under. */
  ghost predicate IsPiece(piece: Passage, page: Passage, m: Matches) {
    exists from: nat, to: nat ::
      && IsStretch(page.text, m.boundaries(page.text), from, to)
      && piece == Passage(Strip(page.text[from..to]), page.page, m.heading(page.text, from))
  }

  predicate Neighbours(cuts: seq<nat>, from: nat, to: nat) {
    exists i :: 0 <= i < |cuts| - 1 && cuts[i] == from && cuts[i + 1] == to
  }

  predicate AreBoundaries(cuts: seq<nat>, body: string, found: set<nat>) {
    && Increasing(cuts)
    && (forall p :: p in cuts ==> IsBoundary(body, found, p) && p <= |body|)
    && (forall p :: p in found && p < |body| ==> p in cuts)
    && 0 in cuts && |body| in cuts
  }

  lemma NotBetweenNeighbours(cuts: seq<nat>, from: nat, to: nat, p: nat)
    requires Increasing(cuts) && Neighbours(cuts, from, to) && p in cuts
    ensures !(from < p < to)
  {
    var i :| 0 <= i < |cuts| - 1 && cuts[i] == from && cuts[i + 1] == to;
    var k :| 0 <= k < |cuts| && cuts[k] == p;
    assert k <= i || i + 1 <= k;
  }

  lemma NeighboursAreStretch(cuts: seq<nat>, body: string, found: set<nat>, from: nat, to: nat)
    requires AreBoundaries(cuts, body, found) && Neighbours(cuts, from, to)
    ensures IsStretch(body, found, from, to)
  {
    assert from in cuts && to in cuts;
    forall p | p in found ensures !(from < p < to) {
      if p < |body| {
        NotBetweenNeighbours(cuts, from, to, p);
      }
    }
  }

  lemma CutBetween(cuts: seq<nat>, body: string, found: set<nat>, i: nat, h: nat, j: nat)
    requires AreBoundaries(cuts, body, found) && i < h < j < |cuts|
    ensures !IsStretch(body, found, cuts[i], cuts[j])
  {
    assert cuts[h] in cuts && cuts[j] in cuts;
  }

  lemma StretchIsNeighbours(cuts: seq<nat>, body: string, found: set<nat>, from: nat, to: nat)
    requires AreBoundaries(cuts, body, found) && IsStretch(body, found, from, to)
    ensures Neighbours(cuts, from, to)
  {
    assert from in cuts && to in cuts;
    var i :| 0 <= i < |cuts| && cuts[i] == from;
    var j :| 0 <= j < |cuts| && cuts[j] == to;
    if i + 1 < j {
      CutBetween(cuts, body, found, i, i + 1, j);
    }
  }

  /** The stripped stretch between two positions, if it holds text, as a piece of the page. */
  predicate IsPieceOf(piece: Passage, page: Passage, m: Matches, from: nat, to: nat) {
    && from <= to <= |page.text| && |Strip(page.text[from..to])| > 0
    && piece == Passage(Strip(page.text[from..to]), page.page, m.heading(page.text, from))
  }

  lemma {:induction false} PiecesUpToAre(page: Passage, cuts: seq<nat>, m: Matches, n: nat, piece: Passage)
    requires Cuts(page.text, cuts) && n < |cuts|
    ensures piece in PiecesUpTo(page, cuts, m, n) <==> exists i :: 0 <= i < n && IsPieceOf(piece, page, m, cuts[i], cuts[i + 1])
  {
    if n > 0 {
      PiecesUpToAre(page, cuts, m, n - 1, piece);
      KeptIsPiece(page, m, cuts[n - 1], cuts[n], piece);
      var front := PiecesUpTo(page, cuts, m, n - 1);
      var last := Kept(page.text[cuts[n - 1]..cuts[n]], page.page, m.heading(page.text, cuts[n - 1]));
      assert piece in front + last <==> piece in front || piece in last;
    }
  }

  lemma KeptIsPiece(page: Passage, m: Matches, from: nat, to: nat, piece: Passage)
    requires from <= to <= |page.text|
    ensures piece in Kept(page.text[from..to], page.page, m.heading(page.text, from)) <==> IsPieceOf(piece, page, m, from, to)
  {
  }

  lemma PieceIsStretch(page: Passage, cuts: seq<nat>, m: Matches, piece: Passage, i: nat)
    requires AreBoundaries(cuts, page.text, m.boundaries(page.text)) && i + 1 < |cuts|
    requires IsPieceOf(piece, page, m, cuts[i], cuts[i + 1])
    ensures IsPiece(piece, page, m)
  {
    NeighboursAreStretch(cuts, page.text, m.boundaries(page.text), cuts[i], cuts[i + 1]);
  }

  lemma StretchIsPiece(page: Passage, cuts: seq<nat>, m: Matches, piece: Passage) returns (i: nat)
    requires AreBoundaries(cuts, page.text, m.boundaries(page.text)) && IsPiece(piece, page, m) && |piece.text| > 0
    ensures i + 1 < |cuts| && IsPieceOf(piece, page, m, cuts[i], cuts[i + 1])
  {
    var found := m.boundaries(page.text);
    var from: nat, to: nat :| IsStretch(page.text, found, from, to)
      && piece == Passage(Strip(page.text[from..to]), page.page, m.heading(page.text, from));
    StretchIsNeighbours(cuts, page.text, found, from, to);
    i :| 0 <= i < |cuts| - 1 && cuts[i] == from && cuts[i + 1] == to;
  }

  lemma StretchesArePieces(page: Passage, cuts: seq<nat>, m: Matches, piece: Passage)
    requires Cuts(page.text, cuts) && AreBoundaries(cuts, page.text, m.boundaries(page.text)) && |piece.text| > 0
    ensures piece in PiecesUpTo(page, cuts, m, |cuts| - 1) <==> IsPiece(piece, page, m)
  {
    PiecesUpToAre(page, cuts, m, |cuts| - 1, piece);
    if i :| 0 <= i < |cuts| - 1 && IsPieceOf(piece, page, m, cuts[i], cuts[i + 1]) {
      PieceIsStretch(page, cuts, m, piece, i);
    }
    if IsPiece(piece, page, m) {
      var i := StretchIsPiece(page, cuts, m, piece);
    }
  }

  lemma NothingStaysNothing(pieces: seq<Passage>, text: string)
    requires |pieces| == 0 && Substance(pieces) == Content(text)
    ensures |Strip(text)| == 0
  {
    StripKeepsContent(text);
    assert |Content(Strip(text))| == 0;
  }

  lemma ContentOfWhole(text: string, n: nat)
    requires n == |text|
    ensures Content(text[..n]) == Content(text)
  {
    assert text[..n] == text;
  }

  lemma AllPiecesConserve(page: Passage, cuts: seq<nat>, m: Matches, n: nat)
    requires Cuts(page.text, cuts) && n == |cuts| - 1
    ensures Substance(PiecesUpTo(page, cuts, m, n)) == Content(page.text)
  {
    PiecesUpToConserve(page, cuts, m, n);
    ContentOfWhole(page.text, cuts[n]);
  }

  /** A page without a piece is blank. */
  lemma NoPieceMeansBlank(page: Passage, cuts: seq<nat>, m: Matches, pieces: seq<Passage>)
    requires Cuts(page.text, cuts) && pieces == PiecesUpTo(page, cuts, m, |cuts| - 1) && |pieces| == 0
    ensures |Strip(page.text)| == 0
  {
    AllPiecesConserve(page, cuts, m, |cuts| - 1);
    NothingStaysNothing(pieces, page.text);
  }

  lemma WholePageHoldsNothing(pieces: seq<Passage>, page: Passage, piece: Passage)
    requires |piece.text| > 0 && (|pieces| == 0 ==> |Strip(page.text)| == 0)
    ensures piece in OrWholePage(pieces, page) <==> piece in pieces
  {
  }

  lemma PiecesAtCarrySections(page: Passage, cuts: seq<nat>, m: Matches, piece: Passage)
    requires Cuts(page.text, cuts) && AreBoundaries(cuts, page.text, m.boundaries(page.text)) && |piece.text| > 0
    ensures piece in PiecesAt(page, cuts, m) <==> IsPiece(piece, page, m)
  {
    var pieces := PiecesUpTo(page, cuts, m, |cuts| - 1);
    if |pieces| == 0 {
      NoPieceMeansBlank(page, cuts, m, pieces);
    }
    WholePageHoldsNothing(pieces, page, piece);
    StretchesArePieces(page, cuts, m, piece);
  }

  lemma BoundariesAreBoundaries(body: string, found: set<nat>)
    ensures Cuts(body, Boundaries(body, found)) && AreBoundaries(Boundaries(body, found), body, found)
  {
    BoundariesCutTheBody(body, found);
  }

  /** The pieces of a page that hold text are exactly its stretches that do, each on the page and in its section. */
  lemma PiecesCarryTheirSections(page: Passage, m: Matches, piece: Passage)
    requires |piece.text| > 0
    ensures piece in Pieces(page, m) <==> IsPiece(piece, page, m)
  {
    var cuts := Boundaries(page.text, m.boundaries(page.text));
    BoundariesAreBoundaries(page.text, m.boundaries(page.text));
    PiecesAtCarrySections(page, cuts, m, piece);
  }

  // ---- parts ---------------------------------------------------------------------------

  /** The texts, all of them on the page and in the section of one piece. */
  function Placed(texts: seq<string>, piece: Passage): seq<Passage> {
    if |texts| == 0 then []
    else Placed(texts[..|texts| - 1], piece) + [Passage(texts[|texts| - 1], piece.page, piece.section)]
  }

  lemma {:induction false} PlacedConserves(texts: seq<string>, piece: Passage)
    ensures Substance(Placed(texts, piece)) == ContentOf(texts)
  {
    if |texts| > 0 {
      PlacedConserves(texts[..|texts| - 1], piece);
      SubstanceSnoc(Placed(texts[..|texts| - 1], piece), Passage(texts[|texts| - 1], piece.page, piece.section));
    }
  }

  predicate Bounded(passages: seq<Passage>) {
    forall p :: p in passages ==> |p.text| <= LIMIT
  }

  lemma {:induction false} PlacedIsBounded(texts: seq<string>, piece: Passage)
    requires forall t :: t in texts ==> |t| <= LIMIT
    ensures Bounded(Placed(texts, piece)) && OnPage(Placed(texts, piece), piece.page)
  {
    if |texts| > 0 {
      PlacedIsBounded(texts[..|texts| - 1], piece);
    }
  }

  function PartsOfPieces(pieces: seq<Passage>, m: Matches): seq<Passage>
    requires Whitespace(m.breaks)
  {
    if |pieces| == 0 then []
    else
      var last := pieces[|pieces| - 1];
      PartsOfPieces(pieces[..|pieces| - 1], m) + Placed(Split(last.text, m.breaks), last)
  }

  function PartsOfPages(pages: seq<Passage>, m: Matches): seq<Passage>
    requires Whitespace(m.breaks)
  {
    if |pages| == 0 then []
    else PartsOfPages(pages[..|pages| - 1], m) + PartsOfPieces(Pieces(pages[|pages| - 1], m), m)
  }

  lemma PartsOfOnePiece(piece: Passage, m: Matches)
    requires Whitespace(m.breaks)
    ensures var parts := Placed(Split(piece.text, m.breaks), piece);
            Substance(parts) == Content(piece.text) && Bounded(parts) && OnPage(parts, piece.page)
  {
    SplitConserves(piece.text, m.breaks);
    PlacedConserves(Split(piece.text, m.breaks), piece);
    PlacedIsBounded(Split(piece.text, m.breaks), piece);
  }

  lemma {:induction false} PartsOfPiecesConserve(pieces: seq<Passage>, m: Matches, page: Option<nat>)
    requires Whitespace(m.breaks) && OnPage(pieces, page)
    ensures var parts := PartsOfPieces(pieces, m);
            Substance(parts) == Substance(pieces) && Bounded(parts) && OnPage(parts, page)
  {
    if |pieces| > 0 {
      var front, last := pieces[..|pieces| - 1], pieces[|pieces| - 1];
      PartsOfPiecesConserve(front, m, page);
      PartsOfOnePiece(last, m);
      SubstanceAppend(PartsOfPieces(front, m), Placed(Split(last.text, m.breaks), last));
    }
  }

  lemma {:induction false} PartsOfPagesConserve(pages: seq<Passage>, m: Matches)
    requires Whitespace(m.breaks)
    ensures Substance(PartsOfPages(pages, m)) == Substance(pages) && Bounded(PartsOfPages(pages, m))
  {
    if |pages| > 0 {
      var front, last := pages[..|pages| - 1], pages[|pages| - 1];
      PartsOfPagesConserve(front, m);
      PiecesConserve(last, m);
      PartsOfPiecesConserve(Pieces(last, m), m, last.page);
      SubstanceAppend(PartsOfPages(front, m), PartsOfPieces(Pieces(last, m), m));
    }
  }

  // ---- chunks --------------------------------------------------------------------------

  predicate Dropped(part: Passage) {
    |Strip(part.text)| == 0 || EstimateTokens(Strip(part.text)) < MIN_TOKENS
  }

  function WithPart(chunks: seq<Chunk>, part: Passage): seq<Chunk> {
    var cleaned := Strip(part.text);
    if Dropped(part) then chunks else chunks + [Chunk(cleaned, |chunks|, part.page, part.section, EstimateTokens(cleaned))]
  }

  /** The parts that are worth indexing, numbered from 0. */
  function Numbered(parts: seq<Passage>): seq<Chunk> {
    if |parts| == 0 then [] else WithPart(Numbered(parts[..|parts| - 1]), parts[|parts| - 1])
  }

  lemma NumberedSnoc(parts: seq<Passage>, last: Passage)
    ensures Numbered(parts + [last]) == WithPart(Numbered(parts), last)
  {
    assert (parts + [last])[..|parts|] == parts;
  }

  /** Every part of a text, kept or dropped, in order. */
  function Parts(text: string, m: Matches): seq<Passage>
    requires Ordered(text, m.markers) && Whitespace(m.breaks)
  {
    PartsOfPages(Pages(text, m.markers), m)
  }

  function Chunks(text: string, m: Matches): seq<Chunk>
    requires Ordered(text, m.markers) && Whitespace(m.breaks)
  {
    if |Strip(text)| == 0 then [] else Numbered(Parts(text, m))
  }

  lemma PlacedStep(earlier: seq<Passage>, texts: seq<string>, i: nat, piece: Passage)
    requires i < |texts|
    ensures Numbered(earlier + Placed(texts[..i + 1], piece))
         == WithPart(Numbered(earlier + Placed(texts[..i], piece)), Passage(texts[i], piece.page, piece.section))
  {
    var longer, part := texts[..i + 1], Passage(texts[i], piece.page, piece.section);
    assert longer[..i] == texts[..i];
    assert earlier + Placed(longer, piece) == (earlier + Placed(texts[..i], piece)) + [part];
    NumberedSnoc(earlier + Placed(texts[..i], piece), part);
  }

  method ChunkPiece(chunks: seq<Chunk>, ghost earlier: seq<Passage>, piece: Passage, m: Matches)
    returns (more: seq<Chunk>)
    requires Whitespace(m.breaks) && chunks == Numbered(earlier)
    ensures more == Numbered(earlier + Placed(Split(piece.text, m.breaks), piece))
  {
    more := chunks;
    var ordinal := |chunks|;
    var texts := SplitOversized(piece.text, m.breaks);
    assert earlier + Placed(texts[..0], piece) == earlier;
    for i := 0 to |texts|
      invariant more == Numbered(earlier + Placed(texts[..i], piece)) && ordinal == |more|
    {
      var cleaned := Strip(texts[i]);
      var tokens := EstimateTokens(cleaned);
      PlacedStep(earlier, texts, i, piece);
      if |cleaned| == 0 || tokens < MIN_TOKENS {
        continue;
      }
      more := more + [Chunk(cleaned, ordinal, piece.page, piece.section, tokens)];
      ordinal := ordinal + 1;
    }
    assert texts[..|texts|] == texts;
  }

  lemma PartsOfPiecesStep(pieces: seq<Passage>, i: nat, m: Matches)
    requires Whitespace(m.breaks) && i < |pieces|
    ensures PartsOfPieces(pieces[..i + 1], m) == PartsOfPieces(pieces[..i], m) + Placed(Split(pieces[i].text, m.breaks), pieces[i])
  {
    var front := pieces[..i + 1];
    assert front[..i] == pieces[..i] && front[i] == pieces[i];
  }

  lemma PassagesAssociate(a: seq<Passage>, b: seq<Passage>, c: seq<Passage>)
    ensures a + (b + c) == (a + b) + c
  {
  }

  method ChunkPage(chunks: seq<Chunk>, ghost earlier: seq<Passage>, page: Passage, m: Matches)
    returns (more: seq<Chunk>)
    requires Whitespace(m.breaks) && chunks == Numbered(earlier)
    ensures more == Numbered(earlier + PartsOfPieces(Pieces(page, m), m))
  {
    more := chunks;
    var pieces := StructuralPieces(page, m);
    assert earlier + PartsOfPieces(pieces[..0], m) == earlier;
    for i := 0 to |pieces|
      invariant more == Numbered(earlier + PartsOfPieces(pieces[..i], m))
    {
      PartsOfPiecesStep(pieces, i, m);
      PassagesAssociate(earlier, PartsOfPieces(pieces[..i], m), Placed(Split(pieces[i].text, m.breaks), pieces[i]));
      more := ChunkPiece(more, earlier + PartsOfPieces(pieces[..i], m), pieces[i], m);
    }
    assert pieces[..|pieces|] == pieces;
  }

  method ChunkText(text: string, m: Matches) returns (chunks: seq<Chunk>)
    requires Ordered(text, m.markers) && Whitespace(m.breaks)
    ensures chunks == Chunks(text, m)
  {
    chunks := [];
    if |Strip(text)| == 0 {
      return;
    }
    var pages := SplitPages(text, m.markers);
    for i := 0 to |pages|
      invariant chunks == Numbered(PartsOfPages(pages[..i], m))
    {
      assert pages[..i + 1][..i] == pages[..i];
      chunks := ChunkPage(chunks, PartsOfPages(pages[..i], m), pages[i], m);
    }
    assert pages[..|pages|] == pages;
  }

  // ---- what chunking promises -------------------------------------------------------------

  /** Kept and dropped parts together hold every non-whitespace character outside page markers, in order. */
  lemma ChunkingConservesContent(text: string, m: Matches)
    requires Ordered(text, m.markers) && Whitespace(m.breaks)
    ensures Substance(Parts(text, m)) == Content(WithoutMarkers(text, m.markers))
    ensures Bounded(Parts(text, m))
  {
    PagesConserve(text, m.markers);
    PartsOfPagesConserve(Pages(text, m.markers), m);
  }

  predicate WellFormed(chunk: Chunk, ordinal: nat) {
    && chunk.ordinal == ordinal
    && chunk.tokens == EstimateTokens(chunk.text)
    && 8 <= chunk.tokens <= 400
  }

  /** The chunk a part became, or the reason it became none: it is under the minimum. */
  predicate AccountedFor(part: Passage, chunks: seq<Chunk>, where: Option<nat>) {
    if where.None? then EstimateTokens(Strip(part.text)) < 8
    else
      && where.value < |chunks|
      && chunks[where.value].text == Strip(part.text)
      && chunks[where.value].page == part.page
      && chunks[where.value].section == part.section
  }

  predicate Accounts(parts: seq<Passage>, chunks: seq<Chunk>, where: seq<Option<nat>>) {
    |where| == |parts| && forall i :: 0 <= i < |parts| ==> AccountedFor(parts[i], chunks, where[i])
  }

  /** The number each part gets, counting the kept ones from 0. */
  function Ordinals(parts: seq<Passage>): seq<Option<nat>> {
    if |parts| == 0 then []
    else
      var front := parts[..|parts| - 1];
      Ordinals(front) + [OrdinalOf(Numbered(front), parts[|parts| - 1])]
  }

  function OrdinalOf(chunks: seq<Chunk>, part: Passage): Option<nat> {
    if Dropped(part) then None else Some(|chunks|)
  }

  lemma {:induction false} NumberedIsWellFormed(parts: seq<Passage>)
    requires Bounded(parts)
    ensures forall i :: 0 <= i < |Numbered(parts)| ==> WellFormed(Numbered(parts)[i], i)
  {
    if |parts| > 0 {
      NumberedIsWellFormed(parts[..|parts| - 1]);
      StripKeepsContent(parts[|parts| - 1].text);
    }
  }

  lemma AccountsGrow(parts: seq<Passage>, chunks: seq<Chunk>, where: seq<Option<nat>>,
                     last: Passage, more: seq<Chunk>, to: Option<nat>)
    requires Accounts(parts, chunks, where) && chunks <= more && AccountedFor(last, more, to)
    ensures Accounts(parts + [last], more, where + [to])
  {
    forall i | 0 <= i < |parts| ensures AccountedFor(parts[i], more, where[i]) {
      assert AccountedFor(parts[i], chunks, where[i]);
    }
  }

  lemma WithPartAccounts(parts: seq<Passage>, chunks: seq<Chunk>, where: seq<Option<nat>>, part: Passage)
    requires Accounts(parts, chunks, where)
    ensures Accounts(parts + [part], WithPart(chunks, part), where + [OrdinalOf(chunks, part)])
  {
    assert chunks <= WithPart(chunks, part) && AccountedFor(part, WithPart(chunks, part), OrdinalOf(chunks, part));
    AccountsGrow(parts, chunks, where, part, WithPart(chunks, part), OrdinalOf(chunks, part));
  }

  lemma {:induction false} NumberedAccounts(parts: seq<Passage>)
    ensures Accounts(parts, Numbered(parts), Ordinals(parts))
  {
    if |parts| > 0 {
      var front, last := parts[..|parts| - 1], parts[|parts| - 1];
      NumberedAccounts(front);
      WithPartAccounts(front, Numbered(front), Ordinals(front), last);
      assert parts == front + [last];
    }
  }

  /** The ordinals given to parts, in order, are exactly 0, 1, 2, ... with no gap. */
  lemma {:induction false} OrdinalsCount(parts: seq<Passage>, k: nat)
    ensures Some(k) in Ordinals(parts) <==> k < |Numbered(parts)|
  {
    if |parts| > 0 {
      OrdinalsCount(parts[..|parts| - 1], k);
    }
  }

  lemma {:induction false} BlankIsDropped(parts: seq<Passage>)
    requires |Substance(parts)| == 0
    ensures |Numbered(parts)| == 0
  {
    if |parts| > 0 {
      var last := parts[|parts| - 1];
      BlankIsDropped(parts[..|parts| - 1]);
      StripKeepsContent(last.text);
    }
  }

  lemma BlankAppend(a: string, b: string)
    requires Blank(a) && Blank(b)
    ensures Blank(a + b)
  {
  }

  lemma {:induction false} BlankStaysBlank(text: string, markers: seq<Marker>, n: nat)
    requires Ordered(text, markers) && |markers| > 0 && n <= |markers| && Blank(text)
    ensures Blank(CutUpTo(text, markers, n))
  {
    if n > 0 {
      BlankStaysBlank(text, markers, n - 1);
      BlankAppend(CutUpTo(text, markers, n - 1), Region(text, markers, n - 1));
    }
  }

  /** A blank text gives no chunk either way. */
  lemma ChunksAreTheNumbered(text: string, m: Matches)
    requires Ordered(text, m.markers) && Whitespace(m.breaks)
    ensures Chunks(text, m) == Numbered(Parts(text, m))
  {
    if |Strip(text)| == 0 {
      StripKeepsContent(text);
      NoContentIsBlank(text);
      if |m.markers| > 0 {
        BlankStaysBlank(text, m.markers, |m.markers|);
      }
      BlankHasNoContent(WithoutMarkers(text, m.markers));
      ChunkingConservesContent(text, m);
      BlankIsDropped(Parts(text, m));
    }
  }

  /** Chunks are numbered 0..n-1 and hold 8 to 400 tokens; every other part is under 8. */
  lemma ChunksAreNumberedAndBounded(text: string, m: Matches)
    requires Ordered(text, m.markers) && Whitespace(m.breaks)
    ensures forall i :: 0 <= i < |Chunks(text, m)| ==> WellFormed(Chunks(text, m)[i], i)
    ensures Accounts(Parts(text, m), Chunks(text, m), Ordinals(Parts(text, m)))
    ensures forall k: nat :: Some(k) in Ordinals(Parts(text, m)) <==> k < |Chunks(text, m)|
  {
    ChunkingConservesContent(text, m);
    ChunksAreTheNumbered(text, m);
    NumberedIsWellFormed(Parts(text, m));
    NumberedAccounts(Parts(text, m));
    forall k: nat ensures Some(k) in Ordinals(Parts(text, m)) <==> k < |Chunks(text, m)| {
      OrdinalsCount(Parts(text, m), k);
    }
  }

  // ---- what a chunk cites ---------------------------------------------------------------

  /** The chunk is a part, stripped, of a stretch of the page, on that page and in the section the stretch starts in. */
  ghost predicate Cites(chunk: Chunk, page: Passage, from: nat, to: nat, part: string, m: Matches)
    requires Whitespace(m.breaks)
  {
    && IsStretch(page.text, m.boundaries(page.text), from, to)
    && part in Split(Strip(page.text[from..to]), m.breaks) && chunk.text == Strip(part)
    && chunk.page == page.page && chunk.section == m.heading(page.text, from)
  }

  lemma {:induction false} PlacedAre(texts: seq<string>, piece: Passage, part: Passage)
    ensures part in Placed(texts, piece) <==> part.text in texts && part.page == piece.page && part.section == piece.section
  {
    if |texts| > 0 {
      PlacedAre(texts[..|texts| - 1], piece, part);
    }
  }

  lemma {:induction false} PartComesFrom(pieces: seq<Passage>, m: Matches, part: Passage) returns (piece: Passage)
    requires Whitespace(m.breaks) && part in PartsOfPieces(pieces, m)
    ensures piece in pieces && part.text in Split(piece.text, m.breaks) && part.page == piece.page && part.section == piece.section
  {
    var last := pieces[|pieces| - 1];
    if part in Placed(Split(last.text, m.breaks), last) {
      PlacedAre(Split(last.text, m.breaks), last, part);
      piece := last;
    } else {
      piece := PartComesFrom(pieces[..|pieces| - 1], m, part);
    }
  }

  lemma {:induction false} PartIsOnPage(pages: seq<Passage>, m: Matches, part: Passage) returns (page: Passage, piece: Passage)
    requires Whitespace(m.breaks) && part in PartsOfPages(pages, m)
    ensures page in pages && piece in Pieces(page, m)
    ensures part.text in Split(piece.text, m.breaks) && part.page == piece.page && part.section == piece.section
  {
    var last := pages[|pages| - 1];
    if part in PartsOfPieces(Pieces(last, m), m) {
      page := last;
      piece := PartComesFrom(Pieces(last, m), m, part);
    } else {
      page, piece := PartIsOnPage(pages[..|pages| - 1], m, part);
    }
  }

  lemma {:induction false} ChunkIsPart(parts: seq<Passage>, chunk: Chunk) returns (part: Passage)
    requires chunk in Numbered(parts)
    ensures part in parts && chunk.text == Strip(part.text) && |chunk.text| > 0 && chunk.page == part.page && chunk.section == part.section
  {
    var last := parts[|parts| - 1];
    if chunk in Numbered(parts[..|parts| - 1]) {
      part := ChunkIsPart(parts[..|parts| - 1], chunk);
    } else {
      part := last;
    }
  }

  lemma BlankSplitsToItself(text: string, breaks: Breaks, part: string)
    requires Whitespace(breaks) && |text| == 0 && part in Split(text, breaks)
    ensures |part| == 0
  {
  }

  /** Every chunk cites the page and the section its text comes from. */
  lemma ChunksCiteTheirPlace(text: string, m: Matches, chunk: Chunk) returns (page: Passage, from: nat, to: nat, part: string)
    requires Ordered(text, m.markers) && Whitespace(m.breaks) && chunk in Chunks(text, m)
    ensures page in Pages(text, m.markers) && Cites(chunk, page, from, to, part, m)
  {
    var passage := ChunkIsPart(Parts(text, m), chunk);
    var piece;
    page, piece := PartIsOnPage(Pages(text, m.markers), m, passage);
    part := passage.text;
    if |piece.text| == 0 {
      BlankSplitsToItself(piece.text, m.breaks, part);
    }
    StripKeepsContent(part);
    PiecesCarryTheirSections(page, m, piece);
    from, to :| IsStretch(page.text, m.boundaries(page.text), from, to)
                && piece == Passage(Strip(page.text[from..to]), page.page, m.heading(page.text, from));
  }
}
