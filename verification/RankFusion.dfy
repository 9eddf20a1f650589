/**
 Reciprocal rank fusion: merging rankings by position alone.

 A chunk scores one over k plus its rank, summed over all the places it is ranked at.  The
 scores are accumulated in one pass and sorted, the higher first and among equals the smaller
 id; so the fused order depends on the scores alone, and not on the order of the rankings or
 of the pass.
 */
module RankFusion {
  import opened Common
  import opened Sorting

  datatype Evidence = Evidence(chunk: nat, source: nat, title: string, score: real, snippet: string)

  // One place in one ranking; ranks start at 1.
  type Rank = n: nat | n >= 1 witness 1
  datatype Posting = Posting(item: Evidence, rank: Rank)

  type Ranking = seq<Evidence>

  function Enumerated(ranking: Ranking): (postings: seq<Posting>) {
    if |ranking| == 0 then [] else Enumerated(ranking[..|ranking| - 1]) + [Posting(ranking[|ranking| - 1], |ranking|)]
  }

  function Postings(rankings: seq<Ranking>): seq<Posting> {
    if |rankings| == 0 then []
    else Postings(rankings[..|rankings| - 1]) + Enumerated(rankings[|rankings| - 1])
  }

  function Weight(k: nat, rank: Rank): (w: real)
    ensures w > 0.0 && w * (k + rank) as real == 1.0
  {
    1.0 / (k + rank) as real
  }

  /** The sum of 1 / (k + rank) over every place a chunk holds. */
  function Score(postings: seq<Posting>, k: nat, chunk: nat): real {
    if |postings| == 0 then 0.0
    else
      var last := postings[|postings| - 1];
      Score(postings[..|postings| - 1], k, chunk) + if last.item.chunk == chunk then Weight(k, last.rank) else 0.0
  }

  predicate Mentions(postings: seq<Posting>, chunk: nat) {
    exists i :: 0 <= i < |postings| && postings[i].item.chunk == chunk
  }

  // ---- accumulating ---------------------------------------------------------------

  // Scores and first items by chunk; order lists the chunks as first seen.
  datatype Tally = Tally(scores: map<nat, real>, best: map<nat, Evidence>, order: seq<nat>)

  ghost predicate Tallies(t: Tally, postings: seq<Posting>, k: nat) {
    && t.best.Keys == t.scores.Keys
    && (forall i, j :: 0 <= i < j < |t.order| ==> t.order[i] != t.order[j])
    && (forall c :: c in t.order <==> c in t.scores)
    && (forall c :: c in t.scores <==> Mentions(postings, c))
    && (forall c :: c in t.scores ==> t.scores[c] == Score(postings, k, c))
    && (forall c :: c in t.best ==> t.best[c].chunk == c)
  }

  function Add(t: Tally, p: Posting, k: nat): Tally
    requires t.best.Keys == t.scores.Keys
  {
    var c := p.item.chunk;
    if c in t.scores then t.(scores := t.scores[c := t.scores[c] + Weight(k, p.rank)])
    else Tally(t.scores[c := Weight(k, p.rank)], t.best[c := p.item], t.order + [c])
  }

  lemma {:induction false} UnmentionedScoresZero(postings: seq<Posting>, k: nat, chunk: nat)
    requires !Mentions(postings, chunk)
    ensures Score(postings, k, chunk) == 0.0
  {
    if |postings| > 0 {
      var front := postings[..|postings| - 1];
      assert forall i :: 0 <= i < |front| ==> front[i] == postings[i];
      UnmentionedScoresZero(front, k, chunk);
    }
  }

  lemma MentionsSnoc(postings: seq<Posting>, p: Posting, chunk: nat)
    ensures Mentions(postings + [p], chunk) <==> Mentions(postings, chunk) || p.item.chunk == chunk
  {
    var all := postings + [p];
    if Mentions(postings, chunk) {
      var i :| 0 <= i < |postings| && postings[i].item.chunk == chunk;
      assert all[i].item.chunk == chunk;
    }
    if p.item.chunk == chunk {
      assert all[|postings|].item.chunk == chunk;
    }
  }

  lemma ScoreSnoc(postings: seq<Posting>, p: Posting, k: nat, chunk: nat)
    ensures Score(postings + [p], k, chunk) == Score(postings, k, chunk) + if p.item.chunk == chunk then Weight(k, p.rank) else 0.0
  {
    assert (postings + [p])[..|postings|] == postings;
  }

  lemma AddTallies(t: Tally, postings: seq<Posting>, p: Posting, k: nat)
    requires Tallies(t, postings, k)
    ensures Tallies(Add(t, p, k), postings + [p], k)
  {
    var after := Add(t, p, k);
    forall c ensures (c in after.scores <==> Mentions(postings + [p], c)) {
      MentionsSnoc(postings, p, c);
    }
    forall c | c in after.scores ensures after.scores[c] == Score(postings + [p], k, c) {
      ScoreSnoc(postings, p, k, c);
      if c !in t.scores {
        UnmentionedScoresZero(postings, k, c);
      }
    }
    assert forall i :: 0 <= i < |t.order| ==> t.order[i] in t.order;
  }

  // ---- ordering --------------------------------------------------------------------

  datatype Scored = Scored(chunk: nat, score: real)

  /** Higher score first, then the smaller id. */
  predicate Before(a: Scored, b: Scored) {
    a.score > b.score || (a.score == b.score && a.chunk <= b.chunk)
  }

  lemma BeforeIsTotal()
    ensures Preorder(Before) && Antisymmetric(Before)
  {
  }

  function Items(t: Tally, order: seq<nat>): seq<Scored>
    requires forall c :: c in order ==> c in t.scores
  {
    if |order| == 0 then []
    else
      var last := order[|order| - 1];
      assert last in order;
      Items(t, order[..|order| - 1]) + [Scored(last, t.scores[last])]
  }

  lemma {:induction false} ItemsAre(t: Tally, order: seq<nat>)
    requires forall c :: c in order ==> c in t.scores
    ensures |Items(t, order)| == |order|
    ensures forall i :: 0 <= i < |order| ==> order[i] in order && Items(t, order)[i] == Scored(order[i], t.scores[order[i]])
  {
    if |order| > 0 {
      ItemsAre(t, order[..|order| - 1]);
      assert order[|order| - 1] in order;
    }
  }

  predicate ChunksDiffer(s: seq<Scored>) {
    forall i, j :: 0 <= i < j < |s| ==> s[i].chunk != s[j].chunk
  }

  /** The fused ranking of every chunk, before the limit cuts it. */
  ghost predicate IsFusion(full: seq<Scored>, postings: seq<Posting>, k: nat) {
    && Sorted(full, Before)
    && ChunksDiffer(full)
    && (forall i :: 0 <= i < |full| ==> full[i].score == Score(postings, k, full[i].chunk) && Mentions(postings, full[i].chunk))
    && (forall c :: Mentions(postings, c) ==> Scored(c, Score(postings, k, c)) in full)
  }

  lemma {:induction false} DistinctAfterInsert(x: Scored, s: seq<Scored>)
    requires ChunksDiffer(s)
    requires forall y :: y in s ==> y.chunk != x.chunk
    ensures ChunksDiffer(Insert(x, s, Before))
  {
    if |s| > 0 && !Before(x, s[0]) {
      DistinctAfterInsert(x, s[1..]);
      forall y | y in Insert(x, s[1..], Before) ensures y.chunk != s[0].chunk {
        InsertMembers(x, s[1..], Before, y);
      }
    }
  }

  lemma {:induction false} DistinctAfterSort(s: seq<Scored>)
    requires ChunksDiffer(s)
    ensures ChunksDiffer(Sort(s, Before))
  {
    if |s| > 0 {
      DistinctAfterSort(s[1..]);
      BeforeIsTotal();
      forall y | y in Sort(s[1..], Before) ensures y.chunk != s[0].chunk {
        SortMembers(s[1..], Before, y);
      }
      DistinctAfterInsert(s[0], Sort(s[1..], Before));
    }
  }

  lemma SortedItemsAreTheFusion(t: Tally, postings: seq<Posting>, k: nat)
    requires Tallies(t, postings, k)
    ensures IsFusion(Sort(Items(t, t.order), Before), postings, k)
  {
    var items := Items(t, t.order);
    ItemsAreDistinct(t, postings, k);
    BeforeIsTotal();
    SortIsSorted(items, Before);
    DistinctAfterSort(items);
    forall x: Scored ensures x in Sort(items, Before) <==> Mentions(postings, x.chunk) && x.score == Score(postings, k, x.chunk) {
      SortMembers(items, Before, x);
      ItemsAreScores(t, postings, k, x);
    }
  }

  lemma ItemsAreDistinct(t: Tally, postings: seq<Posting>, k: nat)
    requires Tallies(t, postings, k)
    ensures ChunksDiffer(Items(t, t.order))
  {
    ItemsAre(t, t.order);
  }

  /** The items are the mentioned chunks with their scores. */
  lemma ItemsAreScores(t: Tally, postings: seq<Posting>, k: nat, x: Scored)
    requires Tallies(t, postings, k)
    ensures x in Items(t, t.order) <==> Mentions(postings, x.chunk) && x.score == Score(postings, k, x.chunk)
  {
    ItemsAre(t, t.order);
    if Mentions(postings, x.chunk) && x.score == Score(postings, k, x.chunk) {
      assert x.chunk in t.order;
      var i :| 0 <= i < |t.order| && t.order[i] == x.chunk;
      assert Items(t, t.order)[i] == x;
    }
  }

  // ---- fusing ---------------------------------------------------------------------------

  const EMPTY := Tally(map[], map[], [])

  function Tallied(postings: seq<Posting>, k: nat): (t: Tally)
    ensures t.best.Keys == t.scores.Keys
  {
    if |postings| == 0 then EMPTY else Add(Tallied(postings[..|postings| - 1], k), postings[|postings| - 1], k)
  }

  lemma {:induction false} TalliedIsExact(postings: seq<Posting>, k: nat)
    ensures Tallies(Tallied(postings, k), postings, k)
  {
    if |postings| > 0 {
      var front, last := postings[..|postings| - 1], postings[|postings| - 1];
      TalliedIsExact(front, k);
      AddTallies(Tallied(front, k), front, last, k);
      assert front + [last] == postings;
    }
  }

  /** Every chunk of some rankings with its score, in the fused order. */
  function FullRanking(rankings: seq<Ranking>, k: nat): seq<Scored> {
    TalliedIsExact(Postings(rankings), k);
    var t := Tallied(Postings(rankings), k);
    Sort(Items(t, t.order), Before)
  }

  function Emitted(t: Tally, ranked: seq<Scored>): seq<Evidence>
    requires forall x :: x in ranked ==> x.chunk in t.best
  {
    if |ranked| == 0 then []
    else
      var last := ranked[|ranked| - 1];
      assert last in ranked;
      Emitted(t, ranked[..|ranked| - 1]) + [t.best[last.chunk].(score := last.score)]
  }

  function Cut(ranked: seq<Scored>, limit: nat): seq<Scored> {
    if limit < |ranked| then ranked[..limit] else ranked
  }

  lemma CutIsTallied(rankings: seq<Ranking>, k: nat, limit: nat)
    ensures IsFusion(FullRanking(rankings, k), Postings(rankings), k)
    ensures forall x :: x in Cut(FullRanking(rankings, k), limit) ==> x.chunk in Tallied(Postings(rankings), k).best
  {
    TalliedIsExact(Postings(rankings), k);
    SortedItemsAreTheFusion(Tallied(Postings(rankings), k), Postings(rankings), k);
  }

  function Fuse(rankings: seq<Ranking>, k: nat, limit: nat): seq<Evidence> {
    CutIsTallied(rankings, k, limit);
    Emitted(Tallied(Postings(rankings), k), Cut(FullRanking(rankings, k), limit))
  }

  lemma TalliedSnoc(postings: seq<Posting>, p: Posting, k: nat)
    ensures Tallied(postings + [p], k) == Add(Tallied(postings, k), p, k)
  {
    assert (postings + [p])[..|postings|] == postings;
  }

  /** One whole ranking added to a tally. */
  function AddAll(t: Tally, ranking: Ranking, k: nat): (after: Tally)
    requires t.best.Keys == t.scores.Keys
    ensures after.best.Keys == after.scores.Keys
  {
    if |ranking| == 0 then t
    else Add(AddAll(t, ranking[..|ranking| - 1], k), Posting(ranking[|ranking| - 1], |ranking|), k)
  }

  lemma {:induction false} AddAllTallies(postings: seq<Posting>, ranking: Ranking, k: nat)
    ensures AddAll(Tallied(postings, k), ranking, k) == Tallied(postings + Enumerated(ranking), k)
  {
    if |ranking| == 0 {
      assert postings + Enumerated(ranking) == postings;
    } else {
      var front, p := ranking[..|ranking| - 1], Posting(ranking[|ranking| - 1], |ranking|);
      AddAllTallies(postings, front, k);
      assert postings + (Enumerated(front) + [p]) == (postings + Enumerated(front)) + [p];
      TalliedSnoc(postings + Enumerated(front), p, k);
    }
  }

  method AddRanking(before: Tally, ranking: Ranking, k: nat) returns (t: Tally)
    requires before.best.Keys == before.scores.Keys
    ensures t == AddAll(before, ranking, k)
  {
    t := before;
    for i := 0 to |ranking|
      invariant t == AddAll(before, ranking[..i], k)
    {
      var item := ranking[i];
      assert ranking[..i + 1][..i] == ranking[..i];
      if item.chunk in t.scores {
        t := t.(scores := t.scores[item.chunk := t.scores[item.chunk] + Weight(k, i + 1)]);
      } else {
        t := Tally(t.scores[item.chunk := Weight(k, i + 1)], t.best[item.chunk := item], t.order + [item.chunk]);
      }
    }
    assert ranking[..|ranking|] == ranking;
  }

  method ReciprocalRankFusion(rankings: seq<Ranking>, k: nat, limit: nat) returns (fused: seq<Evidence>)
    ensures fused == Fuse(rankings, k, limit)
  {
    var t := EMPTY;
    for r := 0 to |rankings|
      invariant t == Tallied(Postings(rankings[..r]), k)
    {
      assert rankings[..r + 1][..r] == rankings[..r];
      AddAllTallies(Postings(rankings[..r]), rankings[r], k);
      t := AddRanking(t, rankings[r], k);
    }
    assert rankings[..|rankings|] == rankings;
    TalliedIsExact(Postings(rankings), k);
    var ordered := Sort(Items(t, t.order), Before);
    CutIsTallied(rankings, k, limit);
    fused := Emitted(t, Cut(ordered, limit));
  }

  lemma {:induction false} EmittedAre(t: Tally, ranked: seq<Scored>)
    requires forall x :: x in ranked ==> x.chunk in t.best
    requires forall c :: c in t.best ==> t.best[c].chunk == c
    ensures |Emitted(t, ranked)| == |ranked|
    ensures forall i :: 0 <= i < |ranked| ==>
              Emitted(t, ranked)[i].chunk == ranked[i].chunk && Emitted(t, ranked)[i].score == ranked[i].score
  {
    if |ranked| > 0 {
      assert ranked[|ranked| - 1] in ranked;
      EmittedAre(t, ranked[..|ranked| - 1]);
    }
  }

  /**
   The fused list is the first chunks, up to the limit, of one ranking that holds every chunk
   mentioned once, scored by the exact sum over its places, best score first, ties by id.
   */
  lemma FusionIsExact(rankings: seq<Ranking>, k: nat, limit: nat)
    ensures IsFusion(FullRanking(rankings, k), Postings(rankings), k)
    ensures var full, fused := FullRanking(rankings, k), Fuse(rankings, k, limit);
            && |fused| == (if limit < |full| then limit else |full|)
            && (forall i :: 0 <= i < |fused| ==> fused[i].chunk == full[i].chunk && fused[i].score == full[i].score)
  {
    CutIsTallied(rankings, k, limit);
    TalliedIsExact(Postings(rankings), k);
    EmittedAre(Tallied(Postings(rankings), k), Cut(FullRanking(rankings, k), limit));
  }

  // ---- order of the rankings --------------------------------------------------------------

  lemma {:induction false} ScoreAppend(a: seq<Posting>, b: seq<Posting>, k: nat, chunk: nat)
    ensures Score(a + b, k, chunk) == Score(a, k, chunk) + Score(b, k, chunk)
  {
    if |b| == 0 {
      assert a + b == a;
    } else {
      var front, last := b[..|b| - 1], b[|b| - 1];
      ScoreAppend(a, front, k, chunk);
      ScoreSnoc(a + front, last, k, chunk);
      assert a + b == (a + front) + [last];
    }
  }

  /** A chunk's score, ranking by ranking. */
  function Total(rankings: seq<Ranking>, k: nat, chunk: nat): real {
    if |rankings| == 0 then 0.0
    else Score(Enumerated(rankings[0]), k, chunk) + Total(rankings[1..], k, chunk)
  }

  lemma {:induction false} TotalAppend(a: seq<Ranking>, b: seq<Ranking>, k: nat, chunk: nat)
    ensures Total(a + b, k, chunk) == Total(a, k, chunk) + Total(b, k, chunk)
  {
    if |a| == 0 {
      assert a + b == b;
    } else {
      assert (a + b)[1..] == a[1..] + b;
      TotalAppend(a[1..], b, k, chunk);
    }
  }

  lemma TotalOfOne(ranking: Ranking, k: nat, chunk: nat)
    ensures Total([ranking], k, chunk) == Score(Enumerated(ranking), k, chunk)
  {
    var one := [ranking];
    assert |one[1..]| == 0;
  }

  lemma {:induction false} ScoreIsTotal(rankings: seq<Ranking>, k: nat, chunk: nat)
    ensures Score(Postings(rankings), k, chunk) == Total(rankings, k, chunk)
  {
    if |rankings| > 0 {
      var front, last := rankings[..|rankings| - 1], rankings[|rankings| - 1];
      ScoreIsTotal(front, k, chunk);
      ScoreAppend(Postings(front), Enumerated(last), k, chunk);
      TotalAppend(front, [last], k, chunk);
      TotalOfOne(last, k, chunk);
      assert front + [last] == rankings;
    }
  }

  lemma TotalWithout(before: seq<Ranking>, ranking: Ranking, after: seq<Ranking>, k: nat, chunk: nat)
    ensures Total(before + [ranking] + after, k, chunk) == Score(Enumerated(ranking), k, chunk) + Total(before + after, k, chunk)
  {
    TotalAppend(before + [ranking], after, k, chunk);
    TotalAppend(before, [ranking], k, chunk);
    TotalAppend(before, after, k, chunk);
    TotalOfOne(ranking, k, chunk);
  }

  /** Where the head of a list stands in a permutation of it, and what is left of each. */
  lemma HeadElsewhere(a: seq<Ranking>, b: seq<Ranking>) returns (j: nat)
    requires multiset(a) == multiset(b) && |a| > 0
    ensures j < |b| && b == b[..j] + [a[0]] + b[j + 1..] && multiset(a[1..]) == multiset(b[..j] + b[j + 1..])
  {
    assert a[0] in multiset(b);
    j :| 0 <= j < |b| && b[j] == a[0];
    assert b == b[..j] + [a[0]] + b[j + 1..];
    assert a == [a[0]] + a[1..];
    assert multiset(a[1..]) == multiset(a) - multiset{a[0]};
    assert multiset(b[..j] + b[j + 1..]) == multiset(b) - multiset{a[0]};
  }

  lemma {:induction false} TotalIgnoresOrder(a: seq<Ranking>, b: seq<Ranking>, k: nat, chunk: nat)
    requires multiset(a) == multiset(b)
    ensures Total(a, k, chunk) == Total(b, k, chunk)
  {
    if |a| == 0 {
      assert |multiset(b)| == 0;
    } else {
      var j := HeadElsewhere(a, b);
      TotalIgnoresOrder(a[1..], b[..j] + b[j + 1..], k, chunk);
      TotalWithout(b[..j], a[0], b[j + 1..], k, chunk);
    }
  }

  lemma {:induction false} MentionedScoresPositive(postings: seq<Posting>, k: nat, chunk: nat)
    ensures Score(postings, k, chunk) >= 0.0
    ensures Mentions(postings, chunk) <==> Score(postings, k, chunk) > 0.0
  {
    if |postings| > 0 {
      var front, last := postings[..|postings| - 1], postings[|postings| - 1];
      MentionedScoresPositive(front, k, chunk);
      MentionsSnoc(front, last, chunk);
      assert front + [last] == postings;
    }
  }

  lemma {:induction false} CountOnce(s: seq<Scored>, x: Scored)
    requires ChunksDiffer(s)
    ensures multiset(s)[x] == if x in s then 1 else 0
  {
    if |s| > 0 {
      CountOnce(s[1..], x);
      assert s == [s[0]] + s[1..];
      if s[0] == x {
        assert x !in s[1..];
      }
    }
  }

  /** There is one fusion of a set of scores. */
  lemma FusionIsUnique(f: seq<Scored>, a: seq<Posting>, g: seq<Scored>, b: seq<Posting>, k: nat)
    requires IsFusion(f, a, k) && IsFusion(g, b, k)
    requires forall c :: Score(a, k, c) == Score(b, k, c)
    ensures f == g
  {
    forall x ensures multiset(f)[x] == multiset(g)[x] {
      MentionedScoresPositive(a, k, x.chunk);
      MentionedScoresPositive(b, k, x.chunk);
      CountOnce(f, x);
      CountOnce(g, x);
      assert x in f <==> Mentions(a, x.chunk) && x.score == Score(a, k, x.chunk);
      assert x in g <==> Mentions(b, x.chunk) && x.score == Score(b, k, x.chunk);
    }
    assert multiset(f) == multiset(g);
    BeforeIsTotal();
    SortedIsUnique(f, g, Before);
  }

  /** The order in which rankings are given changes no chunk, no score and no place. */
  lemma FusionIgnoresOrder(a: seq<Ranking>, b: seq<Ranking>, k: nat, limit: nat)
    requires multiset(a) == multiset(b)
    ensures var f, g := Fuse(a, k, limit), Fuse(b, k, limit);
            |f| == |g| && forall i :: 0 <= i < |f| ==> f[i].chunk == g[i].chunk && f[i].score == g[i].score
  {
    forall c ensures Score(Postings(a), k, c) == Score(Postings(b), k, c) {
      ScoreIsTotal(a, k, c);
      ScoreIsTotal(b, k, c);
      TotalIgnoresOrder(a, b, k, c);
    }
    FusionIsExact(a, k, limit);
    FusionIsExact(b, k, limit);
    FusionIsUnique(FullRanking(a, k), Postings(a), FullRanking(b, k), Postings(b), k);
  }

  // ---- better ranks -------------------------------------------------------------------------

  predicate OncePerRanking(ranking: Ranking) {
    forall i, j :: 0 <= i < j < |ranking| ==> ranking[i].chunk != ranking[j].chunk
  }

  /** Wherever b is ranked, a is ranked too, and no lower. */
  predicate NoWorse(ranking: Ranking, a: nat, b: nat) {
    forall j :: 0 <= j < |ranking| && ranking[j].chunk == b ==> exists i :: 0 <= i <= j && ranking[i].chunk == a
  }

  lemma {:induction false} ScoreInRanking(ranking: Ranking, k: nat, i: nat)
    requires OncePerRanking(ranking) && i < |ranking|
    ensures Score(Enumerated(ranking), k, ranking[i].chunk) == Weight(k, i + 1)
  {
    var front, last := ranking[..|ranking| - 1], ranking[|ranking| - 1];
    ScoreSnoc(Enumerated(front), Posting(last, |ranking|), k, ranking[i].chunk);
    if i < |front| {
      ScoreInRanking(front, k, i);
    } else {
      UnrankedScoresZero(front, k, last.chunk);
    }
  }

  lemma {:induction false} UnrankedScoresZero(ranking: Ranking, k: nat, chunk: nat)
    requires forall i :: 0 <= i < |ranking| ==> ranking[i].chunk != chunk
    ensures Score(Enumerated(ranking), k, chunk) == 0.0
  {
    if |ranking| > 0 {
      var front, last := ranking[..|ranking| - 1], ranking[|ranking| - 1];
      UnrankedScoresZero(front, k, chunk);
      ScoreSnoc(Enumerated(front), Posting(last, |ranking|), k, chunk);
    }
  }

  lemma ScalingIsStrict(x: real, y: real, a: real)
    requires x < y && a > 0.0
    ensures x * a < y * a
  {
  }

  lemma InversesReverse(x: real, a: real, y: real, b: real)
    requires 0.0 < a <= b && y > 0.0 && x * a == 1.0 && y * b == 1.0
    ensures x >= y
  {
    if x < y {
      ScalingIsStrict(x, y, a);
      if a < b {
        ScalingIsStrict(a, b, y);
      }
    }
  }

  lemma EarlierWeighsMore(k: nat, i: Rank, j: Rank)
    requires i <= j
    ensures Weight(k, i) >= Weight(k, j)
  {
    InversesReverse(Weight(k, i), (k + i) as real, Weight(k, j), (k + j) as real);
  }

  lemma BetterInOneRanking(ranking: Ranking, k: nat, a: nat, b: nat)
    requires OncePerRanking(ranking) && NoWorse(ranking, a, b)
    ensures Score(Enumerated(ranking), k, a) >= Score(Enumerated(ranking), k, b)
  {
    if j: nat :| j < |ranking| && ranking[j].chunk == b {
      var i :| 0 <= i <= j && ranking[i].chunk == a;
      ScoreInRanking(ranking, k, j);
      ScoreInRanking(ranking, k, i);
      EarlierWeighsMore(k, i + 1, j + 1);
    } else {
      UnrankedScoresZero(ranking, k, b);
      MentionedScoresPositive(Enumerated(ranking), k, a);
    }
  }

  /** A chunk ranked no worse than another in every ranking never scores lower. */
  lemma {:induction false} BetterEverywhereScoresNoLess(rankings: seq<Ranking>, k: nat, a: nat, b: nat)
    requires forall r :: r in rankings ==> OncePerRanking(r) && NoWorse(r, a, b)
    ensures Score(Postings(rankings), k, a) >= Score(Postings(rankings), k, b)
  {
    if |rankings| > 0 {
      var front, last := rankings[..|rankings| - 1], rankings[|rankings| - 1];
      BetterEverywhereScoresNoLess(front, k, a, b);
      assert last in rankings;
      BetterInOneRanking(last, k, a, b);
      ScoreAppend(Postings(front), Enumerated(last), k, a);
      ScoreAppend(Postings(front), Enumerated(last), k, b);
    }
  }

  // ---- places -----------------------------------------------------------------------------

  /**
   One over k plus 1 for the first place of a ranking, over k plus 2 for the second and so on, for each
   place a chunk holds.
   */
  function PlaceSum(ranking: Ranking, k: nat, chunk: nat): real {
    if |ranking| == 0 then 0.0
    else
      PlaceSum(ranking[..|ranking| - 1], k, chunk)
      + if ranking[|ranking| - 1].chunk == chunk then 1.0 / (k + |ranking|) as real else 0.0
  }

  function Places(rankings: seq<Ranking>, k: nat, chunk: nat): real {
    if |rankings| == 0 then 0.0
    else Places(rankings[..|rankings| - 1], k, chunk) + PlaceSum(rankings[|rankings| - 1], k, chunk)
  }

  lemma {:induction false} EnumeratedScores(ranking: Ranking, k: nat, chunk: nat)
    ensures Score(Enumerated(ranking), k, chunk) == PlaceSum(ranking, k, chunk)
  {
    if |ranking| > 0 {
      var front, last := ranking[..|ranking| - 1], ranking[|ranking| - 1];
      EnumeratedScores(front, k, chunk);
      ScoreSnoc(Enumerated(front), Posting(last, |ranking|), k, chunk);
    }
  }

  lemma {:induction false} PostingsScore(rankings: seq<Ranking>, k: nat, chunk: nat)
    ensures Score(Postings(rankings), k, chunk) == Places(rankings, k, chunk)
  {
    if |rankings| > 0 {
      var front, last := rankings[..|rankings| - 1], rankings[|rankings| - 1];
      PostingsScore(front, k, chunk);
      EnumeratedScores(last, k, chunk);
      ScoreAppend(Postings(front), Enumerated(last), k, chunk);
    }
  }

  lemma {:induction false} PlacedInRanking(ranking: Ranking, k: nat, e: Evidence)
    ensures PlaceSum(ranking, k, e.chunk) >= 0.0 && (e in ranking ==> PlaceSum(ranking, k, e.chunk) > 0.0)
  {
    if |ranking| > 0 {
      PlacedInRanking(ranking[..|ranking| - 1], k, e);
      assert 1.0 / (k + |ranking|) as real == Weight(k, |ranking|);
    }
  }

  lemma {:induction false} PlacedSomewhere(rankings: seq<Ranking>, k: nat, e: Evidence)
    ensures Places(rankings, k, e.chunk) >= 0.0
    ensures (exists r :: r in rankings && e in r) ==> Places(rankings, k, e.chunk) > 0.0
  {
    if |rankings| > 0 {
      PlacedSomewhere(rankings[..|rankings| - 1], k, e);
      PlacedInRanking(rankings[|rankings| - 1], k, e);
    }
  }

  /** A higher score, or the same and a smaller id. */
  predicate Ahead(a: nat, scoreOfA: real, b: nat, scoreOfB: real) {
    scoreOfA > scoreOfB || (scoreOfA == scoreOfB && a < b)
  }

  /**
   The fused list, by the places of the given rankings alone: every item carries the sum for its
   places, they stand best first, and a ranked chunk is left out only when the limit is full of
   chunks ahead of it.
   */
  lemma FusedAreTheBestPlaced(rankings: seq<Ranking>, k: nat, limit: nat)
    ensures var fused := Fuse(rankings, k, limit);
            && |fused| <= limit
            && (forall i :: 0 <= i < |fused| ==> fused[i].score == Places(rankings, k, fused[i].chunk))
            && (forall i, j :: 0 <= i < j < |fused| ==> Ahead(fused[i].chunk, fused[i].score, fused[j].chunk, fused[j].score))
            && forall r, e :: r in rankings && e in r ==>
                 IsAmong(fused, e.chunk) || (|fused| == limit && AllAhead(fused, e.chunk, Places(rankings, k, e.chunk)))
  {
    FusionIsExact(rankings, k, limit);
    var full, fused := FullRanking(rankings, k), Fuse(rankings, k, limit);
    forall i | 0 <= i < |fused| ensures fused[i].score == Places(rankings, k, fused[i].chunk) {
      PostingsScore(rankings, k, fused[i].chunk);
    }
    forall i, j | 0 <= i < j < |fused| ensures Ahead(fused[i].chunk, fused[i].score, fused[j].chunk, fused[j].score) {
      assert Before(full[i], full[j]) && full[i].chunk != full[j].chunk;
    }
    forall r, e | r in rankings && e in r
      ensures IsAmong(fused, e.chunk) || (|fused| == limit && AllAhead(fused, e.chunk, Places(rankings, k, e.chunk)))
    {
      RankedIsFused(rankings, k, limit, e);
    }
  }

  predicate IsAmong(fused: seq<Evidence>, chunk: nat) {
    exists i :: 0 <= i < |fused| && fused[i].chunk == chunk
  }

  predicate AllAhead(fused: seq<Evidence>, chunk: nat, score: real) {
    forall i :: 0 <= i < |fused| ==> Ahead(fused[i].chunk, fused[i].score, chunk, score)
  }

  lemma RankedIsFused(rankings: seq<Ranking>, k: nat, limit: nat, e: Evidence)
    requires exists r :: r in rankings && e in r
    ensures var fused := Fuse(rankings, k, limit);
            IsAmong(fused, e.chunk) || (|fused| == limit && AllAhead(fused, e.chunk, Places(rankings, k, e.chunk)))
  {
    FusionIsExact(rankings, k, limit);
    PostingsScore(rankings, k, e.chunk);
    PlacedSomewhere(rankings, k, e);
    MentionedScoresPositive(Postings(rankings), k, e.chunk);
    var full, fused := FullRanking(rankings, k), Fuse(rankings, k, limit);
    var x := Scored(e.chunk, Score(Postings(rankings), k, e.chunk));
    var j :| 0 <= j < |full| && full[j] == x;
    if j < |fused| {
      assert fused[j].chunk == e.chunk;
    } else {
      forall i | 0 <= i < |fused| ensures Ahead(fused[i].chunk, fused[i].score, e.chunk, x.score) {
        assert Before(full[i], full[j]) && full[i].chunk != full[j].chunk;
      }
    }
  }

  // ---- what an item says ------------------------------------------------------------------

  /** The first item of a ranking about a chunk. */
  function FirstIn(ranking: Ranking, chunk: nat): Option<Evidence> {
    if |ranking| == 0 then None
    else
      var earlier, last := FirstIn(ranking[..|ranking| - 1], chunk), ranking[|ranking| - 1];
      if earlier.Some? then earlier else if last.chunk == chunk then Some(last) else None
  }

  /** The first item about a chunk, ranking by ranking. */
  function FirstOf(rankings: seq<Ranking>, chunk: nat): Option<Evidence> {
    if |rankings| == 0 then None
    else
      var earlier := FirstOf(rankings[..|rankings| - 1], chunk);
      if earlier.Some? then earlier else FirstIn(rankings[|rankings| - 1], chunk)
  }

  function BestOf(t: Tally, chunk: nat): Option<Evidence> {
    if chunk in t.best then Some(t.best[chunk]) else None
  }

  lemma {:induction false} BestAfterRanking(t: Tally, ranking: Ranking, k: nat, chunk: nat)
    requires t.best.Keys == t.scores.Keys
    ensures BestOf(AddAll(t, ranking, k), chunk) == if chunk in t.best then Some(t.best[chunk]) else FirstIn(ranking, chunk)
  {
    if |ranking| > 0 {
      BestAfterRanking(t, ranking[..|ranking| - 1], k, chunk);
    }
  }

  lemma {:induction false} BestIsFirst(rankings: seq<Ranking>, k: nat, chunk: nat)
    ensures BestOf(Tallied(Postings(rankings), k), chunk) == FirstOf(rankings, chunk)
  {
    if |rankings| > 0 {
      var front, last := rankings[..|rankings| - 1], rankings[|rankings| - 1];
      BestIsFirst(front, k, chunk);
      AddAllTallies(Postings(front), last, k);
      BestAfterRanking(Tallied(Postings(front), k), last, k, chunk);
    }
  }

  lemma {:induction false} EmittedItems(t: Tally, ranked: seq<Scored>)
    requires forall x :: x in ranked ==> x.chunk in t.best
    ensures |Emitted(t, ranked)| == |ranked|
    ensures forall i :: 0 <= i < |ranked| ==>
              ranked[i].chunk in t.best && Emitted(t, ranked)[i] == t.best[ranked[i].chunk].(score := ranked[i].score)
  {
    if |ranked| > 0 {
      assert ranked[|ranked| - 1] in ranked;
      EmittedItems(t, ranked[..|ranked| - 1]);
    }
  }

  /** Apart from its score every fused item is the first one about its chunk. */
  lemma FusedAreTheFirst(rankings: seq<Ranking>, k: nat, limit: nat)
    ensures var fused := Fuse(rankings, k, limit);
            forall i :: 0 <= i < |fused| ==>
              FirstOf(rankings, fused[i].chunk).Some?
              && fused[i] == FirstOf(rankings, fused[i].chunk).value.(score := fused[i].score)
  {
    CutIsTallied(rankings, k, limit);
    var t, ranked, fused := Tallied(Postings(rankings), k), Cut(FullRanking(rankings, k), limit), Fuse(rankings, k, limit);
    EmittedItems(t, ranked);
    FusionIsExact(rankings, k, limit);
    forall i | 0 <= i < |fused|
      ensures FirstOf(rankings, fused[i].chunk).Some?
              && fused[i] == FirstOf(rankings, fused[i].chunk).value.(score := fused[i].score)
    {
      BestIsFirst(rankings, k, fused[i].chunk);
    }
  }
}
