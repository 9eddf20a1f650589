/**
 Whether the order of the rows matters to a search.  The queries sort by score alone, so rows
 with equal scores stand in whatever order the table gives them.
 */
module RowOrder {
  import opened Common
  import opened Embeddings
  import opened Knowledge
  import opened Retrieval
  import opened Sorting

  function StrictlyBetter(hits: seq<Hit>, score: real): nat {
    if |hits| == 0 then 0 else (if hits[0].score > score then 1 else 0) + StrictlyBetter(hits[1..], score)
  }

  /** No two different hits are tied with fewer than topK hits strictly better. */
  predicate NoTieInReach(hits: seq<Hit>, topK: int) {
    forall a, b :: a in hits && b in hits && a != b && a.score == b.score ==> StrictlyBetter(hits, a.score) >= topK
  }

  ghost predicate Rearranged<T>(a: seq<T>, b: seq<T>) {
    multiset(a) == multiset(b)
  }

  // ---- counting the better ones ------------------------------------------------------------

  lemma {:induction false} BetterInParts(a: seq<Hit>, b: seq<Hit>, score: real)
    ensures StrictlyBetter(a + b, score) == StrictlyBetter(a, score) + StrictlyBetter(b, score)
  {
    if |a| == 0 {
      assert a + b == b;
    } else {
      assert (a + b)[1..] == a[1..] + b;
      BetterInParts(a[1..], b, score);
    }
  }

  lemma TakeOut<T>(s: seq<T>, x: T) returns (j: nat)
    requires x in s
    ensures j < |s| && s[j] == x && s == s[..j] + [x] + s[j + 1..]
    ensures multiset(s[..j] + s[j + 1..]) == multiset(s) - multiset{x}
  {
    j :| 0 <= j < |s| && s[j] == x;
    assert s == s[..j] + [x] + s[j + 1..];
  }

  lemma {:induction false} BetterIgnoresOrder(a: seq<Hit>, b: seq<Hit>, score: real)
    requires Rearranged(a, b)
    ensures StrictlyBetter(a, score) == StrictlyBetter(b, score)
  {
    if |a| == 0 {
      SameMembersSameLength(a, b);
    } else {
      var x := a[0];
      TailLoses(a);
      assert x in multiset(b);
      var j := TakeOut(b, x);
      BetterIgnoresOrder(a[1..], b[..j] + b[j + 1..], score);
      BetterTakenOut(b[..j], x, b[j + 1..], score);
    }
  }

  lemma BetterTakenOut(before: seq<Hit>, x: Hit, after: seq<Hit>, score: real)
    ensures StrictlyBetter(before + [x] + after, score)
         == StrictlyBetter(before + after, score) + if x.score > score then 1 else 0
  {
    BetterInParts(before + [x], after, score);
    BetterInParts(before, [x], score);
    BetterInParts(before, after, score);
    assert StrictlyBetter([x], score) == if x.score > score then 1 else 0;
  }

  /** In a sorted list the strictly better ones come first, and nothing else does. */
  lemma {:induction false} BetterComeFirst(s: seq<Hit>, score: real, k: nat)
    requires Sorted(s, Better) && k < |s|
    ensures k < StrictlyBetter(s, score) <==> s[k].score > score
  {
    TailIsSorted(s, Better);
    if s[0].score > score {
      if k > 0 {
        BetterComeFirst(s[1..], score, k - 1);
      }
    } else {
      forall i | 0 <= i < |s| ensures s[i].score <= score {
        assert i > 0 ==> Better(s[0], s[i]);
      }
      NoneIsBetter(s, score);
    }
  }

  lemma {:induction false} NoneIsBetter(s: seq<Hit>, score: real)
    requires forall i :: 0 <= i < |s| ==> s[i].score <= score
    ensures StrictlyBetter(s, score) == 0
  {
    if |s| > 0 {
      NoneIsBetter(s[1..], score);
    }
  }

  lemma BetterIsPreorder()
    ensures Preorder(Better)
  {
  }

  // ---- the first topK of a list of hits ------------------------------------------------------

  lemma SortedAlike(hits: seq<Hit>, other: seq<Hit>)
    requires Rearranged(hits, other)
    ensures var s, t := Sort(hits, Better), Sort(other, Better);
            && Sorted(s, Better) && Sorted(t, Better) && Rearranged(s, hits) && Rearranged(t, hits) && |s| == |t| == |hits|
  {
    BetterIsPreorder();
    SortIsSorted(hits, Better);
    SortIsSorted(other, Better);
    SameMembersSameLength(Sort(hits, Better), Sort(other, Better));
  }

  lemma SameScoreEverywhere(s: seq<Hit>, t: seq<Hit>, i: nat)
    requires Sorted(s, Better) && Sorted(t, Better) && Rearranged(s, t) && i < |s| && i < |t|
    ensures s[i].score == t[i].score
  {
    BetterIgnoresOrder(s, t, s[i].score);
    BetterIgnoresOrder(s, t, t[i].score);
    BetterComeFirst(s, s[i].score, i);
    BetterComeFirst(t, s[i].score, i);
    BetterComeFirst(s, t[i].score, i);
    BetterComeFirst(t, t[i].score, i);
  }

  lemma MembersOf<T>(s: seq<T>, hits: seq<T>, x: T)
    requires Rearranged(s, hits) && x in s
    ensures x in hits
  {
    assert x in multiset(s);
  }

  lemma PlaceIsFixed(hits: seq<Hit>, s: seq<Hit>, t: seq<Hit>, topK: nat, i: nat)
    requires NoTieInReach(hits, topK) && Rearranged(s, hits) && Rearranged(t, hits)
    requires Sorted(s, Better) && Sorted(t, Better) && i < topK && i < |s| && i < |t|
    ensures s[i] == t[i]
  {
    SameScoreEverywhere(s, t, i);
    MembersOf(s, hits, s[i]);
    MembersOf(t, hits, t[i]);
    BetterIgnoresOrder(s, hits, s[i].score);
    BetterComeFirst(s, s[i].score, i);
  }

  lemma BestIsFixed(hits: seq<Hit>, other: seq<Hit>, topK: nat)
    requires NoTieInReach(hits, topK) && Rearranged(other, hits)
    ensures Best(other, topK) == Best(hits, topK)
  {
    SortedAlike(hits, other);
    var s, t := Sort(hits, Better), Sort(other, Better);
    forall i: nat | i < topK && i < |s| ensures s[i] == t[i] {
      PlaceIsFixed(hits, s, t, topK, i);
    }
    FirstsAgree(s, t, topK);
  }

  lemma FirstsAgree(s: seq<Hit>, t: seq<Hit>, topK: nat)
    requires |s| == |t| && forall i: nat :: i < topK && i < |s| ==> s[i] == t[i]
    ensures First(s, topK) == First(t, topK)
  {
  }

  function Swapped(s: seq<Hit>, i: nat, j: nat): seq<Hit>
    requires i < |s| && j < |s|
  {
    s[i := s[j]][j := s[i]]
  }

  lemma SwapRearranges(s: seq<Hit>, i: nat, j: nat)
    requires i < |s| && j < |s|
    ensures Rearranged(Swapped(s, i, j), s)
  {
  }

  lemma SwapStaysSorted(s: seq<Hit>, i: nat, j: nat)
    requires Sorted(s, Better) && i < |s| && j < |s| && s[i].score == s[j].score
    ensures Sorted(Swapped(s, i, j), Better)
  {
    var t := Swapped(s, i, j);
    assert forall k :: 0 <= k < |s| ==> t[k].score == s[k].score;
  }

  /**
   Where two different hits are tied within reach, two places hold different hits of one score, the
   first of them in reach.
   */
  lemma TiedPlaces(hits: seq<Hit>, topK: nat, a: Hit, b: Hit) returns (i: nat, j: nat)
    requires a in hits && b in hits && a != b && a.score == b.score && StrictlyBetter(hits, a.score) < topK
    ensures var s := Sort(hits, Better);
            i < |s| && j < |s| && i < topK && s[i] != s[j] && s[i].score == s[j].score
  {
    SortedAlike(hits, hits);
    var s := Sort(hits, Better);
    j := PlaceOf(hits, s, a);
    var k := PlaceOf(hits, s, b);
    i := StrictlyBetter(hits, a.score);
    BetterComeFirst(s, a.score, i);
    assert i < j ==> Better(s[i], s[j]);
    if s[i] == a {
      j := k;
    }
  }

  /** Some arrangement then puts another hit at that place. */
  lemma TieShows(hits: seq<Hit>, topK: nat, a: Hit, b: Hit) returns (other: seq<Hit>, i: nat)
    requires a in hits && b in hits && a != b && a.score == b.score && StrictlyBetter(hits, a.score) < topK
    ensures Rearranged(other, hits)
    ensures i < |Best(hits, topK)| == |Best(other, topK)|
    ensures Best(other, topK)[i] != Best(hits, topK)[i] && Best(other, topK)[i].score == Best(hits, topK)[i].score
  {
    var s, j := Sort(hits, Better), 0;
    i, j := TiedPlaces(hits, topK, a, b);
    SortedAlike(hits, hits);
    other := Swapped(s, i, j);
    SwapRearranges(s, i, j);
    SwapStaysSorted(s, i, j);
    SortedStays(other, Better);
    SwapShows(s, i, j, topK);
  }

  lemma SwapShows(s: seq<Hit>, i: nat, j: nat, topK: nat)
    requires i < |s| && j < |s| && i < topK && s[i] != s[j]
    ensures i < |First(s, topK)| == |First(Swapped(s, i, j), topK)|
    ensures First(s, topK)[i] == s[i] && First(Swapped(s, i, j), topK)[i] == s[j]
  {
  }

  lemma PlaceOf(hits: seq<Hit>, s: seq<Hit>, a: Hit) returns (j: nat)
    requires Rearranged(s, hits) && Sorted(s, Better) && a in hits
    ensures j < |s| && s[j] == a
    ensures StrictlyBetter(hits, a.score) == StrictlyBetter(s, a.score) <= j
  {
    MembersOf(hits, s, a);
    j :| 0 <= j < |s| && s[j] == a;
    BetterIgnoresOrder(s, hits, a.score);
    BetterComeFirst(s, a.score, j);
  }

  /** The first topK hits are the same in every arrangement if and only if no tie is within reach. */
  lemma BestIgnoresOrderIff(hits: seq<Hit>, topK: nat)
    ensures (forall other :: Rearranged(other, hits) ==> Best(other, topK) == Best(hits, topK)) <==> NoTieInReach(hits, topK)
  {
    if NoTieInReach(hits, topK) {
      forall other | Rearranged(other, hits) ensures Best(other, topK) == Best(hits, topK) {
        BestIsFixed(hits, other, topK);
      }
    } else {
      var a, b :| a in hits && b in hits && a != b && a.score == b.score && StrictlyBetter(hits, a.score) < topK;
      var other, i := TieShows(hits, topK, a, b);
      assert Rearranged(other, hits);
    }
  }

  // ---- the hits of a list of rows -------------------------------------------------------------

  lemma CountSnoc<T>(s: seq<T>, last: T, x: T)
    ensures multiset(s + [last])[x] == multiset(s)[x] + if x == last then 1 else 0
  {
  }

  lemma {:induction false} HitsCount(candidates: seq<Candidate>, f: Hitter, h: Hit)
    requires OwnHits(f)
    ensures multiset(Hits(candidates, f))[h]
         == if f(h.candidate) == Some(h) then multiset(candidates)[h.candidate] else 0
  {
    if |candidates| > 0 {
      var front, last := candidates[..|candidates| - 1], candidates[|candidates| - 1];
      HitsCount(front, f, h);
      assert candidates == front + [last];
      CountSnoc(front, last, h.candidate);
      var hit := f(last);
      if hit.Some? {
        CountSnoc(Hits(front, f), hit.value, h);
      }
    }
  }

  lemma HitsAreRearranged(a: seq<Candidate>, b: seq<Candidate>, f: Hitter)
    requires OwnHits(f)
    requires Rearranged(a, b)
    ensures Rearranged(Hits(a, f), Hits(b, f))
  {
    forall h ensures multiset(Hits(a, f))[h] == multiset(Hits(b, f))[h] {
      HitsCount(a, f, h);
      HitsCount(b, f, h);
    }
  }

  /** Each of them is the hit of its own row. */
  predicate Genuinely(hits: seq<Hit>, f: Hitter) {
    forall h :: h in hits ==> f(h.candidate) == Some(h)
  }

  lemma RearrangedHitsAreGenuine(candidates: seq<Candidate>, f: Hitter, hits: seq<Hit>)
    requires OwnHits(f)
    requires Rearranged(hits, Hits(candidates, f))
    ensures Genuinely(hits, f)
  {
    forall h | h in hits ensures f(h.candidate) == Some(h) {
      HitsCount(candidates, f, h);
      assert multiset(hits)[h] > 0;
    }
  }

  function RowsOfHits(hits: seq<Hit>): seq<Candidate> {
    if |hits| == 0 then [] else RowsOfHits(hits[..|hits| - 1]) + [hits[|hits| - 1].candidate]
  }

  /** The rows that are not hit. */
  function Misses(candidates: seq<Candidate>, f: Hitter): seq<Candidate> {
    if |candidates| == 0 then []
    else
      var last := candidates[|candidates| - 1];
      Misses(candidates[..|candidates| - 1], f) + if f(last).None? then [last] else []
  }

  lemma {:induction false} RowsOfHitsCount(hits: seq<Hit>, f: Hitter, c: Candidate)
    requires OwnHits(f)
    requires Genuinely(hits, f)
    ensures multiset(RowsOfHits(hits))[c] == Times(hits, f(c))
  {
    if |hits| > 0 {
      var front, last := hits[..|hits| - 1], hits[|hits| - 1];
      assert last in hits;
      RowsOfHitsCount(front, f, c);
      CountSnoc(RowsOfHits(front), last.candidate, c);
      TimesSnoc(front, last, f(c));
      assert hits == front + [last];
    }
  }

  function Times(hits: seq<Hit>, hit: Option<Hit>): nat {
    if hit.Some? then multiset(hits)[hit.value] else 0
  }

  lemma TimesSnoc(hits: seq<Hit>, last: Hit, hit: Option<Hit>)
    ensures Times(hits + [last], hit) == Times(hits, hit) + if hit == Some(last) then 1 else 0
  {
    if hit.Some? {
      CountSnoc(hits, last, hit.value);
    }
  }

  lemma {:induction false} MissesCount(candidates: seq<Candidate>, f: Hitter, c: Candidate)
    ensures multiset(Misses(candidates, f))[c]
         == if f(c).None? then multiset(candidates)[c] else 0
  {
    if |candidates| > 0 {
      var front, last := candidates[..|candidates| - 1], candidates[|candidates| - 1];
      MissesCount(front, f, c);
      MissesSnoc(Misses(front, f), front, last, c, f(last).None?, f(c).None?);
      assert candidates == front + [last];
    }
  }

  lemma MissesSnoc(misses: seq<Candidate>, front: seq<Candidate>, last: Candidate, c: Candidate, lastMissed: bool, missed: bool)
    requires c == last ==> lastMissed == missed
    requires multiset(misses)[c] == if missed then multiset(front)[c] else 0
    ensures multiset(misses + if lastMissed then [last] else [])[c] == if missed then multiset(front + [last])[c] else 0
  {
    CountSnoc(front, last, c);
    if lastMissed {
      CountSnoc(misses, last, c);
    }
  }

  lemma {:induction false} HitsInParts(a: seq<Candidate>, b: seq<Candidate>, f: Hitter)
    ensures Hits(a + b, f) == Hits(a, f) + Hits(b, f)
  {
    if |b| == 0 {
      assert a + b == a;
    } else {
      HitsInParts(a, b[..|b| - 1], f);
      assert (a + b)[..|a + b| - 1] == a + b[..|b| - 1];
    }
  }

  lemma {:induction false} HitsOfTheirRows(hits: seq<Hit>, f: Hitter)
    requires Genuinely(hits, f)
    ensures Hits(RowsOfHits(hits), f) == hits
  {
    if |hits| > 0 {
      var front, last := hits[..|hits| - 1], hits[|hits| - 1];
      assert last in hits;
      HitsOfTheirRows(front, f);
      HitsInParts(RowsOfHits(front), [last.candidate], f);
      OneHit(last, f);
      assert hits == front + [last];
    }
  }

  lemma OneHit(h: Hit, f: Hitter)
    requires f(h.candidate) == Some(h)
    ensures Hits([h.candidate], f) == [h]
  {
    var one := [h.candidate];
    assert |one[..0]| == 0;
  }

  lemma {:induction false} MissesAreNotHit(candidates: seq<Candidate>, f: Hitter)
    ensures |Hits(Misses(candidates, f), f)| == 0
  {
    if |candidates| > 0 {
      var front, last := candidates[..|candidates| - 1], candidates[|candidates| - 1];
      MissesAreNotHit(front, f);
      if f(last).None? {
        var earlier := Misses(front, f);
        var misses := earlier + [last];
        assert misses[..|misses| - 1] == earlier && misses[|misses| - 1] == last;
        assert Hits(misses, f) == Hits(earlier, f);
        assert Misses(candidates, f) == misses;
      } else {
        assert Misses(candidates, f) == Misses(front, f);
      }
    }
  }

  /** Every arrangement of the hits comes from some arrangement of the rows. */
  lemma RowsForHits(candidates: seq<Candidate>, f: Hitter, hits: seq<Hit>) returns (rows: seq<Candidate>)
    requires OwnHits(f)
    requires Rearranged(hits, Hits(candidates, f))
    ensures Rearranged(rows, candidates) && Hits(rows, f) == hits
  {
    var missed := Misses(candidates, f);
    rows := RowsOfHits(hits) + missed;
    RearrangedHitsAreGenuine(candidates, f, hits);
    HitsInParts(RowsOfHits(hits), missed, f);
    HitsOfTheirRows(hits, f);
    MissesAreNotHit(candidates, f);
    assert hits + Hits(missed, f) == hits;
    forall c ensures multiset(rows)[c] == multiset(candidates)[c] {
      RowCount(candidates, f, hits, c);
    }
  }

  lemma RowCount(candidates: seq<Candidate>, f: Hitter, hits: seq<Hit>, c: Candidate)
    requires OwnHits(f)
    requires Rearranged(hits, Hits(candidates, f)) && Genuinely(hits, f)
    ensures multiset(RowsOfHits(hits) + Misses(candidates, f))[c] == multiset(candidates)[c]
  {
    RowsOfHitsCount(hits, f, c);
    MissesCount(candidates, f, c);
    var hit := f(c);
    if hit.Some? {
      HitsCount(candidates, f, hit.value);
    }
  }

  // ---- searches ----------------------------------------------------------------------------------

  /** Ids are a primary key. */
  predicate IdsDiffer(candidates: seq<Candidate>) {
    forall a, b :: a in candidates && b in candidates && a.row.id == b.row.id ==> a == b
  }

  /** The search finds nothing, or no two different hits are tied within its first topK. */
  predicate OrderIsFixed(candidates: seq<Candidate>, probe: Probe, topK: int, engine: Engine) {
    LooksForNothing(probe) || NoTieInReach(HitsFor(candidates, probe, engine), topK)
  }

  lemma {:induction false} EvidenceAt(hits: seq<Hit>, i: nat)
    requires i < |hits|
    ensures |ToEvidence(hits)| == |hits| && ToEvidence(hits)[i].chunk == hits[i].candidate.row.id
  {
    var front := hits[..|hits| - 1];
    if i < |front| {
      EvidenceAt(front, i);
    } else if |front| > 0 {
      EvidenceAt(front, 0);
    }
  }

  lemma SearchIsFixed(candidates: seq<Candidate>, other: seq<Candidate>, probe: Probe, topK: int, engine: Engine)
    requires OrderIsFixed(candidates, probe, topK, engine) && Rearranged(other, candidates)
    ensures Search(other, probe, topK, engine) == Search(candidates, probe, topK, engine)
  {
    if topK > 0 && !LooksForNothing(probe) {
      HittersHitTheirOwn(probe, engine);
      HitsAreRearranged(other, candidates, HitterFor(probe, engine));
      BestIsFixed(HitsFor(candidates, probe, engine), HitsFor(other, probe, engine), topK);
    }
  }

  lemma TieShowsInSearch(candidates: seq<Candidate>, probe: Probe, topK: nat, engine: Engine) returns (other: seq<Candidate>)
    requires IdsDiffer(candidates) && topK > 0 && !OrderIsFixed(candidates, probe, topK, engine)
    ensures Rearranged(other, candidates) && Search(other, probe, topK, engine) != Search(candidates, probe, topK, engine)
  {
    var hits := HitsFor(candidates, probe, engine);
    var a, b :| a in hits && b in hits && a != b && a.score == b.score && StrictlyBetter(hits, a.score) < topK;
    var swapped, i := TieShows(hits, topK, a, b);
    HittersHitTheirOwn(probe, engine);
    other := RowsForHits(candidates, HitterFor(probe, engine), swapped);
    var x, y := Best(hits, topK)[i], Best(swapped, topK)[i];
    BestAreRows(candidates, probe, engine, hits, topK, x);
    BestAreRows(candidates, probe, engine, swapped, topK, y);
    EvidenceAt(Best(hits, topK), i);
    EvidenceAt(Best(swapped, topK), i);
  }

  lemma BestAreRows(candidates: seq<Candidate>, probe: Probe, engine: Engine, hits: seq<Hit>, topK: nat, h: Hit)
    requires Rearranged(hits, HitsFor(candidates, probe, engine)) && h in Best(hits, topK)
    ensures h.candidate in candidates
  {
    BetterIsPreorder();
    assert h in Sort(hits, Better);
    SortMembers(hits, Better, h);
    MembersOf(hits, HitsFor(candidates, probe, engine), h);
    HitsAreCandidates(candidates, probe, engine);
  }

  /** A search gives the same evidence for every order of the rows if and only if no tie is within its reach. */
  lemma SearchIgnoresOrderIff(candidates: seq<Candidate>, probe: Probe, topK: int, engine: Engine)
    requires IdsDiffer(candidates)
    ensures (forall other :: Rearranged(other, candidates) ==> Search(other, probe, topK, engine) == Search(candidates, probe, topK, engine))
            <==> OrderIsFixed(candidates, probe, topK, engine)
  {
    if OrderIsFixed(candidates, probe, topK, engine) {
      forall other | Rearranged(other, candidates) ensures Search(other, probe, topK, engine) == Search(candidates, probe, topK, engine) {
        SearchIsFixed(candidates, other, probe, topK, engine);
      }
    } else {
      assert topK > 0;
      var other := TieShowsInSearch(candidates, probe, topK, engine);
    }
  }

  /** What retrieval needs: no tie within the reach of the keyword search, nor of the vector search if that is run. */
  predicate EvidenceIsFixed(candidates: seq<Candidate>, query: string, vector: Vector, model: string, v: Verdict, engine: Engine) {
    var topK := DynamicTopK(v.topK, v.available);
    && OrderIsFixed(candidates, ByText(query), topK, engine)
    && (NeedsEmbedding(candidates, query, v, engine) ==> OrderIsFixed(candidates, ByVector(vector, model), topK, engine))
  }

  /**
   Two stores that hold the same rows a scope may see, in whatever order and beside whatever
   else, give it the same evidence, with any two genuine caches, unless two of the rows tie
   within the reach of a search that is run.
   */
  lemma RowOrderDoesNotMatter(
    a: Store, b: Store, scope: Scope, query: string, m: Model, warm: Rows, cold: Rows, model: string, v: Verdict, engine: Engine)
    requires Rearranged(Reachable(b.chunks, b, scope), Reachable(a.chunks, a, scope))
    requires EvidenceIsFixed(Reachable(a.chunks, a, scope), query, m.vector(query), model, v, engine)
    requires Insensitive(m) && Genuine(warm, m) && Genuine(cold, m)
    ensures Evidenced(Reachable(a.chunks, a, scope), query, QueryVector(warm, m, query), model, v, engine)
         == Evidenced(Reachable(b.chunks, b, scope), query, QueryVector(cold, m, query), model, v, engine)
  {
    CachedVectorIsTheProviders(warm, m, query);
    CachedVectorIsTheProviders(cold, m, query);
    var rows, others, topK := Reachable(a.chunks, a, scope), Reachable(b.chunks, b, scope), DynamicTopK(v.topK, v.available);
    SearchIsFixed(rows, others, ByText(query), topK, engine);
    if NeedsEmbedding(rows, query, v, engine) {
      SearchIsFixed(rows, others, ByVector(m.vector(query), model), topK, engine);
    }
  }

  /** A search finds equally many in every order of the rows. */
  lemma SearchLengthIsFixed(candidates: seq<Candidate>, other: seq<Candidate>, probe: Probe, topK: int, engine: Engine)
    requires Rearranged(other, candidates)
    ensures |Search(other, probe, topK, engine)| == |Search(candidates, probe, topK, engine)|
  {
    if topK > 0 && !LooksForNothing(probe) {
      var hits, others := HitsFor(candidates, probe, engine), HitsFor(other, probe, engine);
      HittersHitTheirOwn(probe, engine);
      HitsAreRearranged(other, candidates, HitterFor(probe, engine));
      SortedAlike(hits, others);
      EvidenceLength(Best(hits, topK));
      EvidenceLength(Best(others, topK));
    }
  }

  lemma {:induction false} EvidenceLength(hits: seq<Hit>)
    ensures |ToEvidence(hits)| == |hits|
  {
    if |hits| > 0 {
      EvidenceLength(hits[..|hits| - 1]);
    }
  }

  /**
   Where keywords suffice, so that nothing is fused, the evidence is the same for every order
   of the rows if and only if no tie is within the reach of the keyword search.
   */
  lemma KeywordEvidenceIgnoresOrderIff(
    candidates: seq<Candidate>, query: string, vector: Vector, model: string, v: Verdict, engine: Engine)
    requires IdsDiffer(candidates) && v.shouldRetrieve && !NeedsEmbedding(candidates, query, v, engine)
    ensures (forall other :: Rearranged(other, candidates) ==>
               Evidenced(other, query, vector, model, v, engine) == Evidenced(candidates, query, vector, model, v, engine))
            <==> OrderIsFixed(candidates, ByText(query), DynamicTopK(v.topK, v.available), engine)
  {
    var topK := DynamicTopK(v.topK, v.available);
    SearchIgnoresOrderIff(candidates, ByText(query), topK, engine);
    forall other | Rearranged(other, candidates)
      ensures Evidenced(other, query, vector, model, v, engine) == Search(other, ByText(query), topK, engine)
    {
      SearchLengthIsFixed(candidates, other, ByText(query), topK, engine);
    }
    assert Rearranged(candidates, candidates);
  }
}
