/**
 Scope-filtered retrieval: free keyword search first, then vector search and rank fusion.
 Cosine distance and full-text rank are arbitrary functions; rows come in table order, which
 also decides ties.
 */
module Retrieval {
  import opened Common
  import opened Embeddings
  import opened Knowledge
  import opened RankFusion
  import opened Sorting
  import opened Text

  const KEYWORD_SUFFICIENT_HITS := 3
  const AVG_CHUNK_TOKENS := 180
  const SNIPPET_CHARS := 400
  const RRF_K := 60

  // Distance of two vectors; rank of a text for a query, or none when it does not match.
  datatype Engine = Engine(distance: (Vector, Vector) -> real, rank: (string, string) -> Option<real>)

  datatype Candidate = Candidate(row: ChunkRow, title: string)
  datatype Hit = Hit(candidate: Candidate, score: real)

  predicate Live(store: Store, row: ChunkRow) {
    row.source in store.sources && !store.sources[row.source].deleted
  }

  /** The rows a query may rank: visible to the scope, with a source that is not deleted. */
  function Reachable(chunks: seq<ChunkRow>, store: Store, scope: Scope): seq<Candidate> {
    if |chunks| == 0 then []
    else
      var row := chunks[|chunks| - 1];
      Reachable(chunks[..|chunks| - 1], store, scope)
      + if Live(store, row) && Visible(scope, row.owner) then [Candidate(row, store.sources[row.source].title)] else []
  }

  // What a query looks for: rows near its vector among those of one model, or rows that match its text.
  datatype Probe = ByVector(vector: Vector, model: string) | ByText(query: string)

  /** A row embedded by the same model is hit with its similarity; a row that matches the text, with its rank. */
  function HitFor(c: Candidate, probe: Probe, engine: Engine): (hit: Option<Hit>)
    ensures hit.Some? ==> hit.value.candidate == c
  {
    match probe
    case ByVector(vector, model) =>
      if c.row.embedding.Some? && c.row.model == Some(model)
      then Some(Hit(c, 1.0 - engine.distance(c.row.embedding.value, vector)))
      else None
    case ByText(query) =>
      var rank := engine.rank(query, c.row.text);
      if rank.Some? then Some(Hit(c, rank.value)) else None
  }

  // How each row is hit, if it is.
  type Hitter = Candidate -> Option<Hit>

  function HitterFor(probe: Probe, engine: Engine): Hitter {
    (c: Candidate) => HitFor(c, probe, engine)
  }

  ghost predicate OwnHits(f: Hitter) {
    forall c :: f(c).Some? ==> f(c).value.candidate == c
  }

  function Hits(candidates: seq<Candidate>, f: Hitter): seq<Hit> {
    if |candidates| == 0 then []
    else
      var hit := f(candidates[|candidates| - 1]);
      Hits(candidates[..|candidates| - 1], f) + if hit.Some? then [hit.value] else []
  }

  function HitsFor(candidates: seq<Candidate>, probe: Probe, engine: Engine): seq<Hit> {
    Hits(candidates, HitterFor(probe, engine))
  }

  predicate Better(a: Hit, b: Hit) {
    a.score >= b.score
  }

  function First(hits: seq<Hit>, topK: nat): seq<Hit> {
    if topK < |hits| then hits[..topK] else hits
  }

  function Best(hits: seq<Hit>, topK: nat): seq<Hit> {
    First(Sort(hits, Better), topK)
  }

  function Snippet(text: string): string {
    if |text| > SNIPPET_CHARS then text[..SNIPPET_CHARS] else text
  }

  function ToEvidence(hits: seq<Hit>): seq<Evidence> {
    if |hits| == 0 then []
    else
      var last := hits[|hits| - 1];
      ToEvidence(hits[..|hits| - 1])
      + [Evidence(last.candidate.row.id, last.candidate.row.source, last.candidate.title, last.score, Snippet(last.candidate.row.text))]
  }

  predicate LooksForNothing(probe: Probe) {
    match probe
    case ByVector(vector, _) => |vector| == 0
    case ByText(query) => |Strip(query)| == 0
  }

  function Search(candidates: seq<Candidate>, probe: Probe, topK: int, engine: Engine): seq<Evidence> {
    if topK <= 0 || LooksForNothing(probe) then [] else ToEvidence(Best(HitsFor(candidates, probe, engine), topK))
  }

  function SimilaritySearch(candidates: seq<Candidate>, query: Vector, model: string, topK: int, engine: Engine): seq<Evidence> {
    Search(candidates, ByVector(query, model), topK, engine)
  }

  function KeywordSearch(candidates: seq<Candidate>, query: string, topK: int, engine: Engine): seq<Evidence> {
    Search(candidates, ByText(query), topK, engine)
  }

  function DynamicTopK(base: int, available: int): (k: nat)
    ensures k == 0 || (k <= base && 180 * k <= available)
    ensures base >= 1 && available >= 180 ==> k >= 1 && (k == base || 180 * (k + 1) > available)
  {
    if available <= 0 then 0
    else
      var affordable := available / AVG_CHUNK_TOKENS;
      var k := if base < affordable then base else affordable;
      if k < 0 then 0 else k
  }

  // What the policy decided and how many tokens are left for evidence.
  datatype Verdict = Verdict(shouldRetrieve: bool, topK: int, available: int)

  /** The evidence for a query, given the vector it embeds to. */
  function Evidenced(candidates: seq<Candidate>, query: string, vector: Vector, model: string, v: Verdict, engine: Engine): seq<Evidence> {
    var topK := DynamicTopK(v.topK, v.available);
    if !v.shouldRetrieve || topK <= 0 then []
    else
      var lexical := KeywordSearch(candidates, query, topK, engine);
      if |lexical| >= KEYWORD_SUFFICIENT_HITS then lexical
      else Fuse([SimilaritySearch(candidates, vector, model, topK, engine), lexical], RRF_K, topK)
  }

  /** Whether the query has to be embedded at all. */
  predicate NeedsEmbedding(candidates: seq<Candidate>, query: string, v: Verdict, engine: Engine) {
    var topK := DynamicTopK(v.topK, v.available);
    v.shouldRetrieve && topK > 0 && |KeywordSearch(candidates, query, topK, engine)| < KEYWORD_SUFFICIENT_HITS
  }

  /** The vector the cache gives for a query: its row, or what the provider says. */
  function QueryVector(rows: Rows, m: Model, query: string): Vector {
    if m.key(query) in rows then rows[m.key(query)] else m.vector(query)
  }

  class RetrievalService {
    const embeddings: EmbeddingStore
    const model: string
    const engine: Engine

    constructor (embeddings: EmbeddingStore, model: string, engine: Engine)
      ensures this.embeddings == embeddings && this.model == model && this.engine == engine
    {
      this.embeddings, this.model, this.engine := embeddings, model, engine;
    }

    method EmbedQuery(query: string) returns (vector: Vector, apiCalls: nat)
      modifies embeddings
      ensures vector == QueryVector(old(embeddings.rows), embeddings.m, query)
      ensures apiCalls == if embeddings.m.key(query) in old(embeddings.rows) then 0 else 1
      ensures embeddings.calls == old(embeddings.calls) + apiCalls
      ensures embeddings.rows == RowsAfter([query], old(embeddings.rows), embeddings.m)
    {
      ghost var before := embeddings.rows;
      var embedding := embeddings.EmbedWithCache([query]);
      OneQuery(embeddings.m, query, before, embeddings.rows, embedding);
      vector, apiCalls := embedding.vectors[0], embedding.apiCalls;
    }

    /** At most one provider call, and none when keywords suffice, the query is cached or nothing is to be retrieved. */
    method Retrieve(store: Store, scope: Scope, query: string, v: Verdict) returns (evidence: seq<Evidence>, apiCalls: nat)
      modifies embeddings
      ensures var candidates := Reachable(store.chunks, store, scope);
              && evidence == Evidenced(candidates, query, QueryVector(old(embeddings.rows), embeddings.m, query), model, v, engine)
              && apiCalls == (if NeedsEmbedding(candidates, query, v, engine) && embeddings.m.key(query) !in old(embeddings.rows)
                              then 1 else 0)
      ensures embeddings.calls == old(embeddings.calls) + apiCalls
      ensures embeddings.rows == if NeedsEmbedding(Reachable(store.chunks, store, scope), query, v, engine)
              then RowsAfter([query], old(embeddings.rows), embeddings.m) else old(embeddings.rows)
    {
      evidence, apiCalls := [], 0;
      if !v.shouldRetrieve {
        return;
      }
      var topK := DynamicTopK(v.topK, v.available);
      if topK <= 0 {
        return;
      }
      var candidates := Reachable(store.chunks, store, scope);
      var lexical := KeywordSearch(candidates, query, topK, engine);
      if |lexical| >= KEYWORD_SUFFICIENT_HITS {
        return lexical, 0;
      }
      var embedded, calls := EmbedQuery(query);
      var vector := SimilaritySearch(candidates, embedded, model, topK, engine);
      evidence := ReciprocalRankFusion([vector, lexical], RRF_K, topK);
      apiCalls := calls;
    }
  }

  /** A query is embedded exactly when something is to be retrieved and fewer than three hits come by keywords; else the vector is not used. */
  lemma EmbeddedOnlyIfNeeded(candidates: seq<Candidate>, query: string, one: Vector, other: Vector, model: string, v: Verdict, engine: Engine)
    ensures NeedsEmbedding(candidates, query, v, engine) <==>
              v.shouldRetrieve && v.topK >= 1 && v.available >= 180
              && |KeywordSearch(candidates, query, DynamicTopK(v.topK, v.available), engine)| < 3
    ensures !NeedsEmbedding(candidates, query, v, engine) ==>
              Evidenced(candidates, query, one, model, v, engine) == Evidenced(candidates, query, other, model, v, engine)
  {
  }

  /** What a call for one query gives, as a statement about the rows before and after it. */
  lemma OneQuery(m: Model, query: string, before: Rows, after: Rows, embedding: EmbeddingResult)
    requires after == RowsAfter([query], before, m)
    requires (forall k :: k in Keys(m, [query]) ==> k in after) && embedding.vectors == Lookup(Keys(m, [query]), after)
    requires embedding.apiCalls == BatchCalls(|MissingKeys(m, [query], before)|)
    ensures |embedding.vectors| == 1 && embedding.vectors[0] == QueryVector(before, m, query)
    ensures embedding.apiCalls == if m.key(query) in before then 0 else 1
  {
    OneMissing(m, query, before);
    OneText(m, query, before);
  }

  lemma OneMissing(m: Model, query: string, rows: Rows)
    ensures Keys(m, [query]) == [m.key(query)]
    ensures MissingKeys(m, [query], rows) == if m.key(query) in rows then [] else [m.key(query)]
  {
    var one, key := [query], [m.key(query)];
    assert |Keys(m, one[..0])| == 0 && |Unique(key[..0])| == 0 && |Missing(key[..0], rows)| == 0;
    assert Keys(m, one) == key;
    assert Unique(key) == key;
  }

  // ---- nothing but reachable rows ----------------------------------------------------

  predicate Backed(e: Evidence, candidates: seq<Candidate>) {
    exists i :: 0 <= i < |candidates| &&
      e.chunk == candidates[i].row.id && e.source == candidates[i].row.source && e.title == candidates[i].title
      && e.snippet == Snippet(candidates[i].row.text)
  }

  predicate AllBacked(es: seq<Evidence>, candidates: seq<Candidate>) {
    forall i :: 0 <= i < |es| ==> Backed(es[i], candidates)
  }

  predicate HitsAmong(hits: seq<Hit>, candidates: seq<Candidate>) {
    forall h :: h in hits ==> h.candidate in candidates
  }

  lemma HittersHitTheirOwn(probe: Probe, engine: Engine)
    ensures OwnHits(HitterFor(probe, engine))
  {
  }

  lemma {:induction false} HitsAreAmong(candidates: seq<Candidate>, f: Hitter)
    requires OwnHits(f)
    ensures HitsAmong(Hits(candidates, f), candidates)
  {
    if |candidates| > 0 {
      HitsAreAmong(candidates[..|candidates| - 1], f);
    }
  }

  lemma HitsAreCandidates(candidates: seq<Candidate>, probe: Probe, engine: Engine)
    ensures HitsAmong(HitsFor(candidates, probe, engine), candidates)
  {
    HittersHitTheirOwn(probe, engine);
    HitsAreAmong(candidates, HitterFor(probe, engine));
  }

  lemma {:induction false} EvidenceIsBacked(hits: seq<Hit>, candidates: seq<Candidate>)
    requires HitsAmong(hits, candidates)
    ensures |ToEvidence(hits)| == |hits| && AllBacked(ToEvidence(hits), candidates)
  {
    if |hits| > 0 {
      EvidenceIsBacked(hits[..|hits| - 1], candidates);
      assert hits[|hits| - 1].candidate in candidates;
    }
  }

  lemma BestIsBacked(hits: seq<Hit>, topK: nat, candidates: seq<Candidate>)
    requires HitsAmong(hits, candidates)
    ensures |ToEvidence(Best(hits, topK))| <= topK && AllBacked(ToEvidence(Best(hits, topK)), candidates)
  {
    forall h | h in Best(hits, topK) ensures h.candidate in candidates {
      assert h in Sort(hits, Better);
      SortMembers(hits, Better, h);
    }
    EvidenceIsBacked(Best(hits, topK), candidates);
  }

  /** Every fused item is, but for its score, an item of one of the rankings. */
  lemma FusedAreRanked(rankings: seq<Ranking>, k: nat, limit: nat, candidates: seq<Candidate>)
    requires forall r :: r in rankings ==> AllBacked(r, candidates)
    ensures AllBacked(Fuse(rankings, k, limit), candidates)
  {
    CutIsTallied(rankings, k, limit);
    var t := Tallied(Postings(rankings), k);
    PostingsAreBacked(rankings, candidates);
    TallyIsBacked(Postings(rankings), k, candidates);
    EmittedAreBacked(t, Cut(FullRanking(rankings, k), limit), candidates);
  }

  predicate PostingsBacked(postings: seq<Posting>, candidates: seq<Candidate>) {
    forall i :: 0 <= i < |postings| ==> Backed(postings[i].item, candidates)
  }

  lemma {:induction false} EnumeratedIsBacked(ranking: Ranking, candidates: seq<Candidate>)
    requires AllBacked(ranking, candidates)
    ensures PostingsBacked(Enumerated(ranking), candidates)
  {
    if |ranking| > 0 {
      EnumeratedIsBacked(ranking[..|ranking| - 1], candidates);
    }
  }

  lemma {:induction false} PostingsAreBacked(rankings: seq<Ranking>, candidates: seq<Candidate>)
    requires forall r :: r in rankings ==> AllBacked(r, candidates)
    ensures PostingsBacked(Postings(rankings), candidates)
  {
    if |rankings| > 0 {
      PostingsAreBacked(rankings[..|rankings| - 1], candidates);
      assert rankings[|rankings| - 1] in rankings;
      EnumeratedIsBacked(rankings[|rankings| - 1], candidates);
    }
  }

  lemma {:induction false} TallyIsBacked(postings: seq<Posting>, k: nat, candidates: seq<Candidate>)
    requires PostingsBacked(postings, candidates)
    ensures forall c :: c in Tallied(postings, k).best ==> Backed(Tallied(postings, k).best[c], candidates)
  {
    if |postings| > 0 {
      TallyIsBacked(postings[..|postings| - 1], k, candidates);
      assert Backed(postings[|postings| - 1].item, candidates);
    }
  }

  lemma {:induction false} EmittedAreBacked(t: Tally, ranked: seq<Scored>, candidates: seq<Candidate>)
    requires forall x :: x in ranked ==> x.chunk in t.best
    requires forall c :: c in t.best ==> Backed(t.best[c], candidates)
    ensures AllBacked(Emitted(t, ranked), candidates)
  {
    if |ranked| > 0 {
      var last := ranked[|ranked| - 1];
      assert last in ranked;
      EmittedAreBacked(t, ranked[..|ranked| - 1], candidates);
      BackedIgnoresScore(t.best[last.chunk], last.score, candidates);
    }
  }

  lemma BackedIgnoresScore(e: Evidence, score: real, candidates: seq<Candidate>)
    requires Backed(e, candidates)
    ensures Backed(e.(score := score), candidates)
  {
    var i :| 0 <= i < |candidates|
      && e.chunk == candidates[i].row.id && e.source == candidates[i].row.source && e.title == candidates[i].title
      && e.snippet == Snippet(candidates[i].row.text);
    assert e.(score := score).chunk == candidates[i].row.id;
  }

  lemma {:induction false} ReachableAreVisible(chunks: seq<ChunkRow>, store: Store, scope: Scope)
    ensures forall c :: c in Reachable(chunks, store, scope) ==>
              c.row in chunks && Live(store, c.row) && Visible(scope, c.row.owner) && c.title == store.sources[c.row.source].title
  {
    if |chunks| > 0 {
      ReachableAreVisible(chunks[..|chunks| - 1], store, scope);
    }
  }

  lemma {:induction false} ReachableIsComplete(chunks: seq<ChunkRow>, store: Store, scope: Scope, row: ChunkRow)
    requires row in chunks && Live(store, row) && Visible(scope, row.owner)
    ensures Candidate(row, store.sources[row.source].title) in Reachable(chunks, store, scope)
  {
    if row != chunks[|chunks| - 1] {
      assert row in chunks[..|chunks| - 1];
      ReachableIsComplete(chunks[..|chunks| - 1], store, scope, row);
    }
  }

  lemma EvidencedIsBacked(candidates: seq<Candidate>, query: string, vector: Vector, model: string, v: Verdict, engine: Engine)
    ensures AllBacked(Evidenced(candidates, query, vector, model, v, engine), candidates)
    ensures |Evidenced(candidates, query, vector, model, v, engine)| <= DynamicTopK(v.topK, v.available)
  {
    var topK := DynamicTopK(v.topK, v.available);
    HitsAreCandidates(candidates, ByText(query), engine);
    HitsAreCandidates(candidates, ByVector(vector, model), engine);
    BestIsBacked(HitsFor(candidates, ByText(query), engine), topK, candidates);
    BestIsBacked(HitsFor(candidates, ByVector(vector, model), engine), topK, candidates);
    var lexical, similar := KeywordSearch(candidates, query, topK, engine), SimilaritySearch(candidates, vector, model, topK, engine);
    var rankings := [similar, lexical];
    assert forall r :: r in rankings ==> AllBacked(r, candidates);
    FusedAreRanked(rankings, RRF_K, topK, candidates);
    FusionIsExact(rankings, RRF_K, topK);
  }

  /**
   Every item of evidence quotes a stored chunk that the scope may see and whose source is
   not deleted, and the evidence fits the tokens that were available for it.
   */
  lemma EvidenceIsVisible(store: Store, scope: Scope, query: string, vector: Vector, model: string, v: Verdict, engine: Engine, e: Evidence)
    requires e in Evidenced(Reachable(store.chunks, store, scope), query, vector, model, v, engine)
    ensures exists row ::
      && row in store.chunks && row.id == e.chunk && row.source == e.source
      && Visible(scope, row.owner) && Live(store, row)
      && e.title == store.sources[row.source].title && e.snippet == Snippet(row.text)
    ensures 180 * |Evidenced(Reachable(store.chunks, store, scope), query, vector, model, v, engine)| <= v.available
  {
    var candidates := Reachable(store.chunks, store, scope);
    EvidencedIsBacked(candidates, query, vector, model, v, engine);
    ReachableAreVisible(store.chunks, store, scope);
    assert Backed(e, candidates);
    var i :| 0 <= i < |candidates|
      && e.chunk == candidates[i].row.id && e.source == candidates[i].row.source && e.title == candidates[i].title
      && e.snippet == Snippet(candidates[i].row.text);
    assert candidates[i] in candidates;
    assert candidates[i].row in store.chunks;
  }

  // ---- nearest first, best ranked first ---------------------------------------------------

  /** The item is about the row: its id, source and title, and the first 400 characters of its text. */
  predicate Quotes(e: Evidence, c: Candidate) {
    && e.chunk == c.row.id && e.source == c.row.source && e.title == c.title
    && e.snippet == if |c.row.text| > 400 then c.row.text[..400] else c.row.text
  }

  lemma {:induction false} EvidenceQuotes(hits: seq<Hit>)
    ensures |ToEvidence(hits)| == |hits|
    ensures forall i :: 0 <= i < |hits| ==> Quotes(ToEvidence(hits)[i], hits[i].candidate) && ToEvidence(hits)[i].score == hits[i].score
  {
    if |hits| > 0 {
      EvidenceQuotes(hits[..|hits| - 1]);
    }
  }

  lemma {:induction false} HitsAre(candidates: seq<Candidate>, f: Hitter)
    requires OwnHits(f)
    ensures forall h :: h in Hits(candidates, f) ==> h.candidate in candidates && f(h.candidate) == Some(h)
    ensures forall c :: c in candidates && f(c).Some? ==> f(c).value in Hits(candidates, f)
  {
    if |candidates| > 0 {
      HitsAre(candidates[..|candidates| - 1], f);
      assert candidates == candidates[..|candidates| - 1] + [candidates[|candidates| - 1]];
    }
  }

  /** The best hits stand in order, and one is left out only when enough were taken that are no worse. */
  lemma BestAre(hits: seq<Hit>, topK: nat)
    ensures var best := Best(hits, topK);
            && |best| <= topK
            && (forall h :: h in best ==> h in hits)
            && (forall i, j :: 0 <= i < j < |best| ==> best[i].score >= best[j].score)
            && (forall h :: h in hits && h !in best ==> |best| == topK && forall i :: 0 <= i < |best| ==> best[i].score >= h.score)
  {
    var sorted, best := Sort(hits, Better), Best(hits, topK);
    SortIsSorted(hits, Better);
    forall h ensures h in sorted <==> h in hits {
      SortMembers(hits, Better, h);
    }
    forall h | h in hits && h !in best ensures |best| == topK && forall i :: 0 <= i < |best| ==> best[i].score >= h.score {
      var j :| 0 <= j < |sorted| && sorted[j] == h;
      assert j >= |best|;
      assert forall i :: 0 <= i < |best| ==> Better(sorted[i], sorted[j]);
    }
  }

  function CandidatesOf(hits: seq<Hit>): (cs: seq<Candidate>)
    ensures |cs| == |hits| && forall i :: 0 <= i < |hits| ==> cs[i] == hits[i].candidate
  {
    if |hits| == 0 then [] else CandidatesOf(hits[..|hits| - 1]) + [hits[|hits| - 1].candidate]
  }

  predicate AreQuoted(cs: seq<Candidate>, evidence: seq<Evidence>) {
    |cs| == |evidence| && forall i :: 0 <= i < |cs| ==> Quotes(evidence[i], cs[i])
  }

  /** The rows a search quotes, in order, with the score of each; the others are no better than any of them. */
  lemma SearchTakesTheBest(candidates: seq<Candidate>, probe: Probe, topK: nat, engine: Engine) returns (cs: seq<Candidate>)
    requires topK > 0 && !LooksForNothing(probe)
    ensures var evidence := Search(candidates, probe, topK, engine);
            && |cs| <= topK && AreQuoted(cs, evidence)
            && (forall i :: 0 <= i < |cs| ==>
                  && cs[i] in candidates
                  && HitFor(cs[i], probe, engine) == Some(Hit(cs[i], evidence[i].score)))
            && (forall i, j :: 0 <= i < j < |cs| ==> evidence[i].score >= evidence[j].score)
            && (forall c :: c in candidates && HitFor(c, probe, engine).Some? && c !in cs ==>
                  |cs| == topK && forall i :: 0 <= i < |cs| ==> evidence[i].score >= HitFor(c, probe, engine).value.score)
  {
    var f := HitterFor(probe, engine);
    var best := Best(Hits(candidates, f), topK);
    HittersHitTheirOwn(probe, engine);
    HitsAre(candidates, f);
    BestAre(Hits(candidates, f), topK);
    EvidenceQuotes(best);
    cs := CandidatesOf(best);
    forall i | 0 <= i < |cs| ensures cs[i] in candidates && f(cs[i]) == Some(best[i]) {
      assert best[i] in best;
    }
    forall c | c in candidates && f(c).Some? && c !in cs
      ensures |cs| == topK && forall i :: 0 <= i < |cs| ==> best[i].score >= f(c).value.score
    {
      assert f(c).value !in best;
    }
  }

  /** A row can be compared with a vector of a model that embedded it. */
  predicate Comparable(c: Candidate, model: string) {
    c.row.embedding.Some? && c.row.model == Some(model)
  }

  function DistanceOf(c: Candidate, vector: Vector, engine: Engine): real
    requires c.row.embedding.Some?
  {
    engine.distance(c.row.embedding.value, vector)
  }

  predicate NoneIsFarther(cs: seq<Candidate>, c: Candidate, vector: Vector, engine: Engine) {
    && c.row.embedding.Some?
    && forall i :: 0 <= i < |cs| ==>
         cs[i].row.embedding.Some? && DistanceOf(cs[i], vector, engine) <= DistanceOf(c, vector, engine)
  }

  /**
   A vector search quotes rows of its model only, the nearest first, each with one minus its
   distance for a score; it leaves a comparable row out only when as many as were asked for, none
   of them farther away, were taken.
   */
  lemma NearestAreQuoted(candidates: seq<Candidate>, vector: Vector, model: string, topK: nat, engine: Engine)
    returns (cs: seq<Candidate>)
    requires topK > 0 && |vector| > 0
    ensures var evidence := SimilaritySearch(candidates, vector, model, topK, engine);
            && |cs| <= topK && AreQuoted(cs, evidence)
            && (forall i :: 0 <= i < |cs| ==>
                  && cs[i] in candidates && Comparable(cs[i], model)
                  && evidence[i].score == 1.0 - DistanceOf(cs[i], vector, engine))
            && (forall i, j :: 0 <= i < j < |cs| ==> DistanceOf(cs[i], vector, engine) <= DistanceOf(cs[j], vector, engine))
            && (forall c :: c in candidates && Comparable(c, model) && c !in cs ==>
                  |cs| == topK && NoneIsFarther(cs, c, vector, engine))
  {
    cs := SearchTakesTheBest(candidates, ByVector(vector, model), topK, engine);
  }

  /** A keyword search quotes rows that match only, the best ranked first, with the rank for a score. */
  lemma BestRankedAreQuoted(candidates: seq<Candidate>, query: string, topK: nat, engine: Engine) returns (cs: seq<Candidate>)
    requires topK > 0 && |Strip(query)| > 0
    ensures var evidence := KeywordSearch(candidates, query, topK, engine);
            && |cs| <= topK && AreQuoted(cs, evidence)
            && (forall i :: 0 <= i < |cs| ==>
                  && cs[i] in candidates
                  && engine.rank(query, cs[i].row.text) == Some(evidence[i].score))
            && (forall i, j :: 0 <= i < j < |cs| ==> evidence[i].score >= evidence[j].score)
            && (forall c :: c in candidates && engine.rank(query, c.row.text).Some? && c !in cs ==>
                  |cs| == topK && forall i :: 0 <= i < |cs| ==> evidence[i].score >= engine.rank(query, c.row.text).value)
  {
    cs := SearchTakesTheBest(candidates, ByText(query), topK, engine);
  }

  lemma NothingIsLookedFor(candidates: seq<Candidate>, vector: Vector, query: string, model: string, topK: int, engine: Engine)
    ensures topK <= 0 || |vector| == 0 ==> |SimilaritySearch(candidates, vector, model, topK, engine)| == 0
    ensures topK <= 0 || |Strip(query)| == 0 ==> |KeywordSearch(candidates, query, topK, engine)| == 0
  {
  }

  /** Some evidence by the places of two rankings: its scores, its order, and what it leaves out. */
  ghost predicate ByPlaces(evidence: seq<Evidence>, a: Ranking, b: Ranking, limit: nat) {
    && |evidence| <= limit
    && (forall i :: 0 <= i < |evidence| ==> evidence[i].score == PlaceSum(a, 60, evidence[i].chunk) + PlaceSum(b, 60, evidence[i].chunk))
    && (forall i, j :: 0 <= i < j < |evidence| ==>
          Ahead(evidence[i].chunk, evidence[i].score, evidence[j].chunk, evidence[j].score))
    && (forall e :: e in a || e in b ==>
          IsAmong(evidence, e.chunk)
          || (|evidence| == limit && AllAhead(evidence, e.chunk, PlaceSum(a, 60, e.chunk) + PlaceSum(b, 60, e.chunk))))
  }

  lemma PlacesOfTwo(a: Ranking, b: Ranking, k: nat, chunk: nat)
    ensures Places([a, b], k, chunk) == PlaceSum(a, k, chunk) + PlaceSum(b, k, chunk)
  {
    var both, one := [a, b], [a];
    assert both[..1] == one && |one[..0]| == 0;
    assert Places(one, k, chunk) == 0.0 + PlaceSum(a, k, chunk);
  }

  lemma FusionOfTwo(a: Ranking, b: Ranking, limit: nat)
    ensures ByPlaces(Fuse([a, b], RRF_K, limit), a, b, limit)
  {
    var both := [a, b];
    FusedAreTheBestPlaced(both, 60, limit);
    forall chunk ensures Places(both, 60, chunk) == PlaceSum(a, 60, chunk) + PlaceSum(b, 60, chunk) {
      PlacesOfTwo(a, b, 60, chunk);
    }
    assert a in both && b in both;
  }

  /**
   The evidence by the two searches: nothing when nothing is to be retrieved or no token is left;
   the keyword hits alone when there are three; otherwise every item is scored by its places among
   the nearest and among the best ranked, one over 60 plus each, and a row of either list is left
   out only when the evidence is full of items that stand ahead.
   */
  lemma EvidenceByPlaces(candidates: seq<Candidate>, query: string, vector: Vector, model: string, v: Verdict, engine: Engine)
    ensures var evidence, k := Evidenced(candidates, query, vector, model, v, engine), DynamicTopK(v.topK, v.available);
            if !v.shouldRetrieve || k == 0 then |evidence| == 0
            else if |KeywordSearch(candidates, query, k, engine)| >= 3 then evidence == KeywordSearch(candidates, query, k, engine)
            else ByPlaces(evidence, SimilaritySearch(candidates, vector, model, k, engine), KeywordSearch(candidates, query, k, engine), k)
  {
    var k := DynamicTopK(v.topK, v.available);
    FusionOfTwo(SimilaritySearch(candidates, vector, model, k, engine), KeywordSearch(candidates, query, k, engine), k);
  }

  // ---- what the scope cannot see does not matter ---------------------------------------

  // A change of the tables: a row comes in, a row goes, or a source row is written.
  datatype Edit =
    | InsertRow(at: nat, row: ChunkRow)
    | RemoveRow(at: nat)
    | PutSource(id: nat, source: Source)

  function ApplyEdit(store: Store, edit: Edit): Store {
    match edit
    case InsertRow(at, row) =>
      if at <= |store.chunks| then store.(chunks := store.chunks[..at] + [row] + store.chunks[at..]) else store
    case RemoveRow(at) =>
      if at < |store.chunks| then store.(chunks := store.chunks[..at] + store.chunks[at + 1..]) else store
    case PutSource(id, source) => store.(sources := store.sources[id := source])
  }

  function ApplyEdits(store: Store, edits: seq<Edit>): Store {
    if |edits| == 0 then store else ApplyEdit(ApplyEdits(store, edits[..|edits| - 1]), edits[|edits| - 1])
  }

  /** The edit touches no row the scope may see, and no source of such a row. */
  predicate Hidden(store: Store, scope: Scope, edit: Edit) {
    match edit
    case InsertRow(_, row) => !Visible(scope, row.owner) || !Live(store, row)
    case RemoveRow(at) => at < |store.chunks| ==> !Visible(scope, store.chunks[at].owner) || !Live(store, store.chunks[at])
    case PutSource(id, _) => forall row :: row in store.chunks && row.source == id ==> !Visible(scope, row.owner)
  }

  predicate AllHidden(store: Store, scope: Scope, edits: seq<Edit>) {
    forall k :: 0 <= k < |edits| ==> Hidden(ApplyEdits(store, edits[..k]), scope, edits[k])
  }

  lemma {:induction false} ReachableJoins(front: seq<ChunkRow>, back: seq<ChunkRow>, store: Store, scope: Scope)
    ensures Reachable(front + back, store, scope) == Reachable(front, store, scope) + Reachable(back, store, scope)
  {
    if |back| == 0 {
      assert front + back == front;
    } else {
      ReachableJoins(front, back[..|back| - 1], store, scope);
      assert (front + back)[..|front + back| - 1] == front + back[..|back| - 1];
    }
  }

  lemma {:induction false} UnseenSourcesAreFree(chunks: seq<ChunkRow>, store: Store, id: nat, source: Source, scope: Scope)
    requires forall row :: row in chunks && row.source == id ==> !Visible(scope, row.owner)
    ensures Reachable(chunks, store.(sources := store.sources[id := source]), scope) == Reachable(chunks, store, scope)
  {
    if |chunks| > 0 {
      assert chunks[|chunks| - 1] in chunks;
      UnseenSourcesAreFree(chunks[..|chunks| - 1], store, id, source, scope);
    }
  }

  lemma HiddenRowAddsNothing(front: seq<ChunkRow>, row: ChunkRow, back: seq<ChunkRow>, store: Store, scope: Scope)
    requires !Visible(scope, row.owner) || !Live(store, row)
    ensures Reachable(front + [row] + back, store, scope) == Reachable(front + back, store, scope)
  {
    ReachableJoins(front + [row], back, store, scope);
    ReachableJoins(front, [row], store, scope);
    ReachableJoins(front, back, store, scope);
    assert |Reachable([row], store, scope)| == 0;
  }

  /** One hidden edit leaves the candidates as they were, row for row. */
  lemma HiddenEditIsUnseen(store: Store, scope: Scope, edit: Edit)
    requires Hidden(store, scope, edit)
    ensures var after := ApplyEdit(store, edit);
            Reachable(after.chunks, after, scope) == Reachable(store.chunks, store, scope)
  {
    var after := ApplyEdit(store, edit);
    match edit
    case InsertRow(at, row) =>
      if at <= |store.chunks| {
        assert store.chunks[..at] + store.chunks[at..] == store.chunks;
        HiddenRowAddsNothing(store.chunks[..at], row, store.chunks[at..], store, scope);
      }
      SameSources(after.chunks, after, store, scope);
    case RemoveRow(at) =>
      if at < |store.chunks| {
        assert store.chunks[..at] + [store.chunks[at]] + store.chunks[at + 1..] == store.chunks;
        HiddenRowAddsNothing(store.chunks[..at], store.chunks[at], store.chunks[at + 1..], store, scope);
      }
      SameSources(after.chunks, after, store, scope);
    case PutSource(id, source) =>
      UnseenSourcesAreFree(store.chunks, store, id, source, scope);
  }

  lemma {:induction false} SameSources(chunks: seq<ChunkRow>, a: Store, b: Store, scope: Scope)
    requires a.sources == b.sources
    ensures Reachable(chunks, a, scope) == Reachable(chunks, b, scope)
  {
    if |chunks| > 0 {
      SameSources(chunks[..|chunks| - 1], a, b, scope);
    }
  }

  lemma {:induction false} HiddenEditsAreUnseen(store: Store, scope: Scope, edits: seq<Edit>)
    requires AllHidden(store, scope, edits)
    ensures var after := ApplyEdits(store, edits);
            Reachable(after.chunks, after, scope) == Reachable(store.chunks, store, scope)
  {
    if |edits| > 0 {
      var front := edits[..|edits| - 1];
      forall k | 0 <= k < |front| ensures Hidden(ApplyEdits(store, front[..k]), scope, front[k]) {
        assert front[..k] == edits[..k];
      }
      HiddenEditsAreUnseen(store, scope, front);
      HiddenEditIsUnseen(ApplyEdits(store, front), scope, edits[|edits| - 1]);
    }
  }

  /**
   However the tables change outside what a scope may see, and whatever two embedding
   caches of one model already hold, the scope gets the same evidence.
   */
  lemma HiddenEditsDoNotMatter(
    store: Store, edits: seq<Edit>, scope: Scope, query: string, m: Model, warm: Rows, cold: Rows, model: string, v: Verdict,
    engine: Engine)
    requires AllHidden(store, scope, edits)
    requires Insensitive(m) && Genuine(warm, m) && Genuine(cold, m)
    ensures var after := ApplyEdits(store, edits);
            (Evidenced(Reachable(after.chunks, after, scope), query, QueryVector(warm, m, query), model, v, engine)
             == Evidenced(Reachable(store.chunks, store, scope), query, QueryVector(cold, m, query), model, v, engine))
  {
    HiddenEditsAreUnseen(store, scope, edits);
    CachedVectorIsTheProviders(warm, m, query);
    CachedVectorIsTheProviders(cold, m, query);
  }

  lemma CachedVectorIsTheProviders(rows: Rows, m: Model, query: string)
    requires Insensitive(m) && Genuine(rows, m)
    ensures QueryVector(rows, m, query) == m.vector(query)
  {
    if m.key(query) in rows {
      var t :| m.key(t) == m.key(query) && rows[m.key(query)] == m.vector(t);
    }
  }
}
