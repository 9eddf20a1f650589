/**
 Ingestion into the knowledge tables: ownership, lookup, insert under the unique
 constraint, deduplication, embedding.  The lookup compares content, visibility, subject,
 tutor and versions; it does not compare course or conversation.
 */
module Ingestion {
  import opened Common
  import opened Embeddings
  import opened Knowledge
  import Chunking
  import Retrieval

  const CHUNKER_VERSION := "structural-v1"

  datatype Request = Request(title: string, text: string, owner: Owner, parser: string)

  // The chunker, the embedding provider and its name.
  datatype Setting = Setting(chunker: string -> seq<Chunking.Chunk>, m: Model, model: string)

  // The tables, the embedding rows, and the next newId identifiers.
  datatype State = State(sources: map<nat, Source>, chunks: seq<ChunkRow>, rows: Rows, nextSource: nat, nextChunk: nat)

  datatype Receipt = Receipt(source: nat, created: nat, duplicates: nat, apiCalls: nat, cacheHits: nat, already: bool)

  datatype Error = OwnershipError | UniqueViolation

  predicate HasOwner(owner: Owner) {
    match owner.visibility
    case StudentPrivate => owner.subject.Some?
    case TutorMaterial => owner.tutor.Some?
    case CourseMaterial => owner.course.Some?
    case Conversation => owner.conversation.Some?
    case GlobalCurated => true
  }

  /** The columns that both the lookup and the unique constraint compare. */
  predicate SameContent(s: Source, r: Request, env: Setting) {
    && s.hash == env.m.key(r.text)
    && s.owner.visibility == r.owner.visibility
    && s.owner.subject == r.owner.subject
    && s.owner.tutor == r.owner.tutor
    && s.parser == r.parser
    && s.chunker == CHUNKER_VERSION
    && s.model == env.model
  }

  predicate Matches(sources: map<nat, Source>, id: nat, r: Request, env: Setting) {
    id in sources && SameContent(sources[id], r, env) && !sources[id].deleted
  }

  /** The unique constraint refuses an equal row; a NULL column never equals another. */
  predicate Collides(sources: map<nat, Source>, r: Request, env: Setting) {
    r.owner.subject.Some? && r.owner.tutor.Some? && exists id :: id in sources && SameContent(sources[id], r, env)
  }

  // ---- deduplication ------------------------------------------------------------------

  function KeyOf(chunk: Chunking.Chunk, m: Model): string {
    m.key(chunk.text)
  }

  function TextsOfChunks(chunks: seq<Chunking.Chunk>): seq<string> {
    if |chunks| == 0 then [] else TextsOfChunks(chunks[..|chunks| - 1]) + [chunks[|chunks| - 1].text]
  }

  function KeysOf(chunks: seq<Chunking.Chunk>, m: Model): seq<string> {
    if |chunks| == 0 then [] else KeysOf(chunks[..|chunks| - 1], m) + [KeyOf(chunks[|chunks| - 1], m)]
  }

  /** The first chunk of each key, in order. */
  function Deduplicated(chunks: seq<Chunking.Chunk>, m: Model): seq<Chunking.Chunk> {
    if |chunks| == 0 then []
    else
      var front, last := Deduplicated(chunks[..|chunks| - 1], m), chunks[|chunks| - 1];
      if KeyOf(last, m) in KeysOf(front, m) then front else front + [last]
  }

  lemma KeysSnoc(chunks: seq<Chunking.Chunk>, last: Chunking.Chunk, m: Model)
    ensures KeysOf(chunks + [last], m) == KeysOf(chunks, m) + [KeyOf(last, m)]
  {
    assert (chunks + [last])[..|chunks|] == chunks;
  }

  ghost predicate SeenAre(seen: set<string>, unique: seq<Chunking.Chunk>, m: Model) {
    forall k :: k in seen <==> k in KeysOf(unique, m)
  }

  lemma DeduplicatedSnoc(chunks: seq<Chunking.Chunk>, i: nat, m: Model)
    requires i < |chunks|
    ensures var front := Deduplicated(chunks[..i], m);
            Deduplicated(chunks[..i + 1], m) == if KeyOf(chunks[i], m) in KeysOf(front, m) then front else front + [chunks[i]]
  {
    var longer := chunks[..i + 1];
    assert longer[..|longer| - 1] == chunks[..i];
  }

  lemma SeenGrows(seen: set<string>, unique: seq<Chunking.Chunk>, last: Chunking.Chunk, m: Model)
    requires SeenAre(seen, unique, m)
    ensures SeenAre(seen + {KeyOf(last, m)}, unique + [last], m)
  {
    KeysSnoc(unique, last, m);
  }

  method Deduplicate(chunks: seq<Chunking.Chunk>, m: Model) returns (unique: seq<Chunking.Chunk>, duplicates: nat)
    ensures unique == Deduplicated(chunks, m)
    ensures |unique| + duplicates == |chunks|
  {
    var seen: set<string> := {};
    unique, duplicates := [], 0;
    for i := 0 to |chunks|
      invariant unique == Deduplicated(chunks[..i], m)
      invariant |unique| + duplicates == i
      invariant SeenAre(seen, unique, m)
    {
      DeduplicatedSnoc(chunks, i, m);
      var key := KeyOf(chunks[i], m);
      if key in seen {
        duplicates := duplicates + 1;
        continue;
      }
      SeenGrows(seen, unique, chunks[i], m);
      seen := seen + {key};
      unique := unique + [chunks[i]];
    }
    assert chunks[..|chunks|] == chunks;
  }

  lemma {:induction false} DeduplicatedKeys(chunks: seq<Chunking.Chunk>, m: Model)
    ensures KeysOf(Deduplicated(chunks, m), m) == Unique(KeysOf(chunks, m))
  {
    if |chunks| > 0 {
      var front, last := chunks[..|chunks| - 1], chunks[|chunks| - 1];
      DeduplicatedKeys(front, m);
      KeysSnoc(Deduplicated(front, m), last, m);
      var keys := KeysOf(chunks, m);
      assert keys[..|keys| - 1] == KeysOf(front, m);
    }
  }

  /** Deduplication keeps exactly the distinct normalized contents of the chunks, one chunk each. */
  lemma {:induction false} DeduplicationIsExact(chunks: seq<Chunking.Chunk>, m: Model)
    ensures Distinct(KeysOf(Deduplicated(chunks, m), m))
    ensures forall k :: k in KeysOf(Deduplicated(chunks, m), m) <==> k in KeysOf(chunks, m)
  {
    DeduplicatedKeys(chunks, m);
    UniqueIsExact(KeysOf(chunks, m));
  }

  /** No earlier chunk has the same key. */
  predicate IsFirst(chunks: seq<Chunking.Chunk>, m: Model, j: nat) {
    j < |chunks| && forall h :: 0 <= h < j ==> KeyOf(chunks[h], m) != KeyOf(chunks[j], m)
  }

  /** Where the first chunk of each key stands. */
  function FirstPlaces(chunks: seq<Chunking.Chunk>, m: Model): seq<nat> {
    if |chunks| == 0 then []
    else
      var i := |chunks| - 1;
      FirstPlaces(chunks[..i], m) + if KeyOf(chunks[i], m) in KeysOf(chunks[..i], m) then [] else [i]
  }

  predicate Increasing(places: seq<nat>) {
    forall i, j :: 0 <= i < j < |places| ==> places[i] < places[j]
  }

  lemma IsFirstInFront(chunks: seq<Chunking.Chunk>, m: Model, j: nat)
    requires |chunks| > 0
    ensures var i := |chunks| - 1;
            IsFirst(chunks, m, j) <==> IsFirst(chunks[..i], m, j) || (j == i && KeyOf(chunks[i], m) !in KeysOf(chunks[..i], m))
  {
    var i := |chunks| - 1;
    KeysOfTexts(chunks[..i], m);
    if j == i && !IsFirst(chunks, m, j) {
      var h :| 0 <= h < i && KeyOf(chunks[h], m) == KeyOf(chunks[i], m);
      assert chunks[..i][h] == chunks[h] && KeysOf(chunks[..i], m)[h] in KeysOf(chunks[..i], m);
    }
  }

  lemma {:induction false} FirstPlacesAre(chunks: seq<Chunking.Chunk>, m: Model)
    ensures Increasing(FirstPlaces(chunks, m))
    ensures forall j: nat :: j in FirstPlaces(chunks, m) <==> IsFirst(chunks, m, j)
  {
    if |chunks| > 0 {
      FirstPlacesAre(chunks[..|chunks| - 1], m);
      var front := FirstPlaces(chunks[..|chunks| - 1], m);
      forall k | 0 <= k < |front| ensures front[k] < |chunks| - 1 {
        assert front[k] in front;
      }
      forall j: nat ensures j in FirstPlaces(chunks, m) <==> IsFirst(chunks, m, j) {
        IsFirstInFront(chunks, m, j);
      }
    }
  }

  /** The chunks at some places. */
  predicate StandAt(kept: seq<Chunking.Chunk>, chunks: seq<Chunking.Chunk>, places: seq<nat>) {
    |kept| == |places| && forall i :: 0 <= i < |kept| ==> places[i] < |chunks| && kept[i] == chunks[places[i]]
  }

  lemma StandAtGrows(kept: seq<Chunking.Chunk>, chunks: seq<Chunking.Chunk>, places: seq<nat>, i: nat)
    requires i < |chunks| && StandAt(kept, chunks[..i], places)
    ensures StandAt(kept, chunks, places) && StandAt(kept + [chunks[i]], chunks, places + [i])
  {
  }

  /** What deduplication keeps are the chunks that come first under their key, in their order. */
  lemma {:induction false} KeptAreTheFirst(chunks: seq<Chunking.Chunk>, m: Model)
    ensures StandAt(Deduplicated(chunks, m), chunks, FirstPlaces(chunks, m))
  {
    if |chunks| > 0 {
      var i := |chunks| - 1;
      var front := chunks[..i];
      var kept, places := Deduplicated(front, m), FirstPlaces(front, m);
      KeptAreTheFirst(front, m);
      SameKeysKept(front, m, KeyOf(chunks[i], m));
      StandAtGrows(kept, chunks, places, i);
    }
  }

  lemma SameKeysKept(chunks: seq<Chunking.Chunk>, m: Model, key: string)
    ensures key in KeysOf(Deduplicated(chunks, m), m) <==> key in KeysOf(chunks, m)
  {
    DeduplicationIsExact(chunks, m);
  }

  lemma {:induction false} KeysOfTexts(chunks: seq<Chunking.Chunk>, m: Model)
    ensures Keys(m, TextsOfChunks(chunks)) == KeysOf(chunks, m) && |KeysOf(chunks, m)| == |chunks|
    ensures forall i :: 0 <= i < |chunks| ==> KeysOf(chunks, m)[i] == KeyOf(chunks[i], m)
  {
    if |chunks| > 0 {
      var front := chunks[..|chunks| - 1];
      KeysOfTexts(front, m);
      var texts := TextsOfChunks(chunks);
      assert texts[..|texts| - 1] == TextsOfChunks(front);
    }
  }

  // ---- ingesting ------------------------------------------------------------------------

  /** The rows of one source, in ordinal order. */
  function RowsOf(chunks: seq<ChunkRow>, source: nat): seq<ChunkRow> {
    if |chunks| == 0 then []
    else
      var last := chunks[|chunks| - 1];
      RowsOf(chunks[..|chunks| - 1], source) + if last.source == source then [last] else []
  }

  lemma EmbeddedKeys(unique: seq<Chunking.Chunk>, rows: Rows, m: Model)
    ensures forall k :: k in KeysOf(unique, m) ==> k in RowsAfter(TextsOfChunks(unique), rows, m)
  {
    KeysOfTexts(unique, m);
    RowsAfterAre(TextsOfChunks(unique), rows, m);
  }

  function Looked(rows: Rows, key: string): Option<Vector> {
    if key in rows then Some(rows[key]) else None
  }

  function RowFor(chunk: Chunking.Chunk, i: nat, owner: Owner, source: nat, firstId: nat, rows: Rows, env: Setting): ChunkRow {
    var key := KeyOf(chunk, env.m);
    ChunkRow(firstId + i, source, i, chunk.text, key, owner, Looked(rows, key), Some(env.model))
  }

  /** The rows that index some chunks under a new source. */
  function NewRows(unique: seq<Chunking.Chunk>, owner: Owner, source: nat, firstId: nat, rows: Rows, env: Setting): seq<ChunkRow> {
    if |unique| == 0 then []
    else
      var i := |unique| - 1;
      NewRows(unique[..i], owner, source, firstId, rows, env) + [RowFor(unique[i], i, owner, source, firstId, rows, env)]
  }

  function NewSource(r: Request, env: Setting, count: nat): Source {
    Source(r.title, r.owner, env.m.key(r.text), r.parser, CHUNKER_VERSION, env.model, count,
           if count == 0 then Empty else Ready, false)
  }

  function AddedRows(s: State, r: Request, env: Setting): seq<ChunkRow> {
    var unique := Deduplicated(env.chunker(r.text), env.m);
    NewRows(unique, r.owner, s.nextSource, s.nextChunk, RowsAfter(TextsOfChunks(unique), s.rows, env.m), env)
  }

  /** The state after a request that found no live copy of its content. */
  function Inserted(s: State, r: Request, env: Setting): State {
    var unique := Deduplicated(env.chunker(r.text), env.m);
    var rows := RowsAfter(TextsOfChunks(unique), s.rows, env.m);
    State(s.sources[s.nextSource := NewSource(r, env, |unique|)],
          s.chunks + AddedRows(s, r, env), rows, s.nextSource + 1, s.nextChunk + |unique|)
  }

  /** Refused without an owner; answered by a live copy; refused by the constraint; or inserted. */
  ghost function Ingest(s: State, r: Request, env: Setting): Result<(State, Receipt), Error> {
    if !HasOwner(r.owner) then Err(OwnershipError)
    else if exists id :: Matches(s.sources, id, r, env) then
      var id :| Matches(s.sources, id, r, env);
      Ok((s, Receipt(id, 0, 0, 0, 0, true)))
    else if Collides(s.sources, r, env) then Err(UniqueViolation)
    else Ok((Inserted(s, r, env), NewReceipt(s, r, env)))
  }

  lemma {:induction false} UniqueOfDistinct(keys: seq<string>)
    requires Distinct(keys)
    ensures Unique(keys) == keys
  {
    if |keys| > 0 {
      var front, last := keys[..|keys| - 1], keys[|keys| - 1];
      UniqueOfDistinct(front);
      assert keys == front + [last];
      assert forall i :: 0 <= i < |front| ==> front[i] == keys[i] && keys[i] != keys[|keys| - 1];
    }
  }

  lemma DistinctTexts(unique: seq<Chunking.Chunk>, m: Model)
    requires Distinct(KeysOf(unique, m))
    ensures |Unique(Keys(m, TextsOfChunks(unique)))| == |unique|
  {
    KeysOfTexts(unique, m);
    UniqueOfDistinct(KeysOf(unique, m));
  }

  function NewReceipt(s: State, r: Request, env: Setting): Receipt {
    var chunks := env.chunker(r.text);
    var unique := Deduplicated(chunks, env.m);
    var missing := MissingKeys(env.m, TextsOfChunks(unique), s.rows);
    DeduplicatedIsShorter(chunks, env.m);
    DeduplicationIsExact(chunks, env.m);
    DistinctTexts(unique, env.m);
    MissingKeysAre(env.m, TextsOfChunks(unique), s.rows);
    Receipt(s.nextSource, |unique|, |chunks| - |unique|, BatchCalls(|missing|), |unique| - |missing|, false)
  }

  lemma {:induction false} DeduplicatedIsShorter(chunks: seq<Chunking.Chunk>, m: Model)
    ensures |Deduplicated(chunks, m)| <= |chunks|
    ensures |chunks| > 0 ==> |Deduplicated(chunks, m)| > 0
  {
    if |chunks| > 0 {
      DeduplicatedIsShorter(chunks[..|chunks| - 1], m);
    }
  }

  function SoftDeleted(s: State, id: nat): State {
    if id !in s.sources then s
    else s.(sources := s.sources[id := s.sources[id].(status := Deleted, deleted := true)])
  }

  function Without(chunks: seq<ChunkRow>, source: nat): seq<ChunkRow> {
    if |chunks| == 0 then []
    else
      var last := chunks[|chunks| - 1];
      Without(chunks[..|chunks| - 1], source) + if last.source == source then [] else [last]
  }

  /** The source goes, and its chunks with it. */
  function Purged(s: State, id: nat): State {
    s.(sources := s.sources - {id}, chunks := Without(s.chunks, id))
  }

  // ---- what every run keeps --------------------------------------------------------------

  /** Equal in every column of the unique constraint. */
  predicate SameColumns(a: Source, b: Source) {
    && a.hash == b.hash && a.owner.visibility == b.owner.visibility
    && a.owner.subject == b.owner.subject && a.owner.tutor == b.owner.tutor
    && a.parser == b.parser && a.chunker == b.chunker && a.model == b.model
  }

  ghost predicate LiveOnce(sources: map<nat, Source>) {
    forall i, j ::
      (i in sources && j in sources && !sources[i].deleted && !sources[j].deleted && SameColumns(sources[i], sources[j]))
      ==> i == j
  }

  ghost predicate ConstraintHolds(sources: map<nat, Source>) {
    forall i, j ::
      (i in sources && j in sources && SameColumns(sources[i], sources[j])
       && sources[i].owner.subject.Some? && sources[i].owner.tutor.Some?)
      ==> i == j
  }

  predicate Chained(c: ChunkRow, sources: map<nat, Source>) {
    c.source in sources && c.owner == sources[c.source].owner
  }

  /** Ordinals 0, 1, 2, ..., one row for each of some distinct keys, as many as the source states. */
  predicate WellIndexed(rows: seq<ChunkRow>, count: nat) {
    && |rows| == count
    && (forall i :: 0 <= i < |rows| ==> rows[i].ordinal == i)
    && (forall i, j :: 0 <= i < j < |rows| ==> rows[i].key != rows[j].key)
  }

  predicate AllChained(chunks: seq<ChunkRow>, sources: map<nat, Source>) {
    forall c :: c in chunks ==> Chained(c, sources)
  }

  predicate AllIndexed(chunks: seq<ChunkRow>, sources: map<nat, Source>) {
    forall id :: id in sources ==> WellIndexed(RowsOf(chunks, id), sources[id].chunkCount)
  }

  ghost predicate Consistent(s: State) {
    && (forall id :: id in s.sources ==> id < s.nextSource)
    && AllChained(s.chunks, s.sources)
    && LiveOnce(s.sources)
    && ConstraintHolds(s.sources)
    && AllIndexed(s.chunks, s.sources)
  }

  lemma {:induction false} RowsOfAppend(a: seq<ChunkRow>, b: seq<ChunkRow>, source: nat)
    ensures RowsOf(a + b, source) == RowsOf(a, source) + RowsOf(b, source)
  {
    if |b| == 0 {
      assert a + b == a;
    } else {
      RowsOfAppend(a, b[..|b| - 1], source);
      assert (a + b)[..|a + b| - 1] == a + b[..|b| - 1];
    }
  }

  lemma {:induction false} RowsOfOther(chunks: seq<ChunkRow>, source: nat)
    requires forall c :: c in chunks ==> c.source != source
    ensures |RowsOf(chunks, source)| == 0
  {
    if |chunks| > 0 {
      assert chunks[|chunks| - 1] in chunks;
      RowsOfOther(chunks[..|chunks| - 1], source);
    }
  }

  lemma {:induction false} RowsOfAre(chunks: seq<ChunkRow>, source: nat)
    ensures forall c :: c in RowsOf(chunks, source) <==> c in chunks && c.source == source
  {
    if |chunks| > 0 {
      RowsOfAre(chunks[..|chunks| - 1], source);
    }
  }

  lemma {:induction false} NewRowsAre(unique: seq<Chunking.Chunk>, owner: Owner, source: nat, firstId: nat, rows: Rows, env: Setting)
    ensures var added := NewRows(unique, owner, source, firstId, rows, env);
            && |added| == |unique|
            && RowsOf(added, source) == added
            && (forall i :: 0 <= i < |added| ==> added[i] == RowFor(unique[i], i, owner, source, firstId, rows, env))
  {
    if |unique| > 0 {
      var i := |unique| - 1;
      NewRowsAre(unique[..i], owner, source, firstId, rows, env);
      var front, added := NewRows(unique[..i], owner, source, firstId, rows, env), NewRows(unique, owner, source, firstId, rows, env);
      assert added[..|added| - 1] == front;
    }
  }

  /** The rows of a new source are one per distinct normalized content, in order, without a gap. */
  lemma NewRowsAreWellIndexed(unique: seq<Chunking.Chunk>, owner: Owner, source: nat, firstId: nat, rows: Rows, env: Setting)
    requires Distinct(KeysOf(unique, env.m))
    ensures WellIndexed(NewRows(unique, owner, source, firstId, rows, env), |unique|)
  {
    NewRowsAre(unique, owner, source, firstId, rows, env);
    KeysOfTexts(unique, env.m);
    var keys, added := KeysOf(unique, env.m), NewRows(unique, owner, source, firstId, rows, env);
    forall i, j | 0 <= i < j < |added| ensures added[i].key != added[j].key {
      assert keys[i] == added[i].key && keys[j] == added[j].key;
    }
  }

  lemma InsertKeepsSources(s: State, r: Request, env: Setting)
    requires Consistent(s) && (forall id :: !Matches(s.sources, id, r, env)) && !Collides(s.sources, r, env)
    ensures LiveOnce(Inserted(s, r, env).sources) && ConstraintHolds(Inserted(s, r, env).sources)
  {
    var after, newId := Inserted(s, r, env), s.nextSource;
    forall id | id in s.sources && SameColumns(after.sources[newId], s.sources[id])
      ensures s.sources[id].deleted && !(r.owner.subject.Some? && r.owner.tutor.Some?)
    {
      assert SameContent(s.sources[id], r, env);
      assert !Matches(s.sources, id, r, env);
    }
  }

  lemma AddedRowsAre(s: State, r: Request, env: Setting)
    ensures var added, unique := AddedRows(s, r, env), Deduplicated(env.chunker(r.text), env.m);
            && RowsOf(added, s.nextSource) == added
            && WellIndexed(added, |unique|)
            && (forall c :: c in added ==> c.source == s.nextSource && c.owner == r.owner)
  {
    var unique := Deduplicated(env.chunker(r.text), env.m);
    var rows := RowsAfter(TextsOfChunks(unique), s.rows, env.m);
    NewRowsAre(unique, r.owner, s.nextSource, s.nextChunk, rows, env);
    DeduplicationIsExact(env.chunker(r.text), env.m);
    NewRowsAreWellIndexed(unique, r.owner, s.nextSource, s.nextChunk, rows, env);
  }

  /** The new source gets the added rows; every other source keeps its own. */
  lemma RowsAfterInsert(s: State, r: Request, env: Setting, id: nat)
    requires Consistent(s) && (id in s.sources || id == s.nextSource)
    ensures RowsOf(Inserted(s, r, env).chunks, id) == if id == s.nextSource then AddedRows(s, r, env) else RowsOf(s.chunks, id)
  {
    var added := AddedRows(s, r, env);
    AddedRowsAre(s, r, env);
    RowsOfAppend(s.chunks, added, id);
    if id == s.nextSource {
      forall c | c in s.chunks ensures c.source != id {
        assert Chained(c, s.sources);
      }
      RowsOfOther(s.chunks, id);
    } else {
      RowsOfOther(added, id);
    }
  }

  lemma InsertKeepsRows(s: State, r: Request, env: Setting)
    requires Consistent(s)
    ensures AllChained(Inserted(s, r, env).chunks, Inserted(s, r, env).sources)
    ensures AllIndexed(Inserted(s, r, env).chunks, Inserted(s, r, env).sources)
  {
    var after := Inserted(s, r, env);
    AddedRowsAre(s, r, env);
    forall c | c in after.chunks ensures Chained(c, after.sources) {
      assert c in s.chunks ==> Chained(c, s.sources);
    }
    forall id | id in after.sources ensures WellIndexed(RowsOf(after.chunks, id), after.sources[id].chunkCount) {
      RowsAfterInsert(s, r, env, id);
    }
  }

  lemma IngestKeepsConsistent(s: State, r: Request, env: Setting)
    requires Consistent(s) && Ingest(s, r, env).Ok?
    ensures Consistent(Ingest(s, r, env).value.0)
  {
    if forall id :: !Matches(s.sources, id, r, env) {
      InsertKeepsSources(s, r, env);
      InsertKeepsRows(s, r, env);
    }
  }

  lemma SoftDeleteKeepsSources(s: State, id: nat)
    requires Consistent(s) && id in s.sources
    ensures LiveOnce(SoftDeleted(s, id).sources) && ConstraintHolds(SoftDeleted(s, id).sources)
  {
    var after := SoftDeleted(s, id).sources;
    forall i, j | i in s.sources && j in s.sources && SameColumns(after[i], after[j])
      ensures SameColumns(s.sources[i], s.sources[j])
    {
    }
  }

  lemma SoftDeleteKeepsConsistent(s: State, id: nat)
    requires Consistent(s)
    ensures Consistent(SoftDeleted(s, id))
  {
    if id in s.sources {
      var after := SoftDeleted(s, id).sources;
      SoftDeleteKeepsSources(s, id);
      forall c | c in s.chunks ensures Chained(c, after) {
        assert Chained(c, s.sources);
      }
    }
  }

  lemma {:induction false} WithoutAre(chunks: seq<ChunkRow>, source: nat, id: nat)
    ensures forall c :: c in Without(chunks, source) <==> c in chunks && c.source != source
    ensures id != source ==> RowsOf(Without(chunks, source), id) == RowsOf(chunks, id)
  {
    if |chunks| > 0 {
      var front, last := chunks[..|chunks| - 1], chunks[|chunks| - 1];
      WithoutAre(front, source, id);
      var kept := Without(front, source);
      assert (kept + [last])[..|kept|] == kept;
      if last.source == source {
        assert Without(chunks, source) == kept;
        if id != source {
          assert RowsOf(chunks, id) == RowsOf(front, id);
        }
      }
    }
  }

  lemma PurgeKeepsConsistent(s: State, id: nat)
    requires Consistent(s)
    ensures Consistent(Purged(s, id))
  {
    var after := Purged(s, id);
    WithoutAre(s.chunks, id, id);
    forall c | c in after.chunks ensures Chained(c, after.sources) {
      assert Chained(c, s.sources);
    }
    forall i | i in after.sources ensures WellIndexed(RowsOf(after.chunks, i), after.sources[i].chunkCount) {
      WithoutAre(s.chunks, id, i);
    }
  }

  // ---- any run -----------------------------------------------------------------------------

  datatype Op = Ask(request: Request) | SoftDelete(id: nat) | Purge(id: nat)

  /** A request that fails leaves the tables as they were. */
  ghost function Apply(s: State, op: Op, env: Setting): State {
    match op
    case Ask(r) => if Ingest(s, r, env).Ok? then Ingest(s, r, env).value.0 else s
    case SoftDelete(id) => SoftDeleted(s, id)
    case Purge(id) => Purged(s, id)
  }

  const NOTHING_STORED := State(map[], [], map[], 0, 0)

  ghost function Run(ops: seq<Op>, env: Setting): State {
    if |ops| == 0 then NOTHING_STORED else Apply(Run(ops[..|ops| - 1], env), ops[|ops| - 1], env)
  }

  /**
   Over any run: at most one live source per content, owner and version, and every source indexed
   without gaps or repeats.
   */
  lemma {:induction false} RunsAreConsistent(ops: seq<Op>, env: Setting)
    ensures Consistent(Run(ops, env))
  {
    if |ops| > 0 {
      var s := Run(ops[..|ops| - 1], env);
      RunsAreConsistent(ops[..|ops| - 1], env);
      match ops[|ops| - 1] {
        case Ask(r) =>
          if Ingest(s, r, env).Ok? {
            IngestKeepsConsistent(s, r, env);
          }
        case SoftDelete(id) => SoftDeleteKeepsConsistent(s, id);
        case Purge(id) => PurgeKeepsConsistent(s, id);
      }
    }
  }

  // ---- what ingestion promises ----------------------------------------------------------------

  /** A request answered by a live copy: that source, no chunk, no call, and the tables as they were. */
  ghost predicate IsFree(s: State, r: Request, env: Setting, source: nat) {
    Ingest(s, r, env) == Ok((s, Receipt(source, 0, 0, 0, 0, true)))
  }

  /** Asking again for the same content returns the same source, changes nothing and calls no provider. */
  lemma RepeatIsFree(s: State, r: Request, env: Setting)
    requires Consistent(s) && Ingest(s, r, env).Ok?
    ensures var (after, receipt) := Ingest(s, r, env).value; IsFree(after, r, env, receipt.source)
  {
    var (after, receipt) := Ingest(s, r, env).value;
    IngestKeepsConsistent(s, r, env);
    assert Matches(after.sources, receipt.source, r, env);
    forall id | Matches(after.sources, id, r, env) ensures id == receipt.source {
      assert SameColumns(after.sources[id], after.sources[receipt.source]);
    }
  }

  /**
   A request is refused as unowned exactly when its visibility names an owner that is not set; curated
   content needs none.
   */
  lemma RefusedIffUnowned(s: State, r: Request, env: Setting)
    ensures Ingest(s, r, env) == Err(OwnershipError) <==>
            || (r.owner.visibility == StudentPrivate && r.owner.subject == None)
            || (r.owner.visibility == TutorMaterial && r.owner.tutor == None)
            || (r.owner.visibility == CourseMaterial && r.owner.course == None)
            || (r.owner.visibility == Conversation && r.owner.conversation == None)
  {
  }

  predicate HasKey(rows: seq<ChunkRow>, key: string) {
    exists i :: 0 <= i < |rows| && rows[i].key == key
  }

  predicate AllEmbedded(rows: seq<ChunkRow>, vectors: Rows) {
    forall i :: 0 <= i < |rows| ==> rows[i].key in vectors && rows[i].embedding == Some(vectors[rows[i].key])
  }

  lemma RowKey(unique: seq<Chunking.Chunk>, owner: Owner, source: nat, firstId: nat, vectors: Rows, env: Setting, i: nat)
    requires i < |unique|
    ensures var rows, keys := NewRows(unique, owner, source, firstId, vectors, env), KeysOf(unique, env.m);
            && |rows| == |keys| == |unique|
            && rows[i].key == keys[i] && keys[i] in keys
            && rows[i].embedding == Looked(vectors, keys[i])
  {
    NewRowsAre(unique, owner, source, firstId, vectors, env);
    KeysOfTexts(unique, env.m);
  }

  lemma RowsCarryKeysAndVectors(unique: seq<Chunking.Chunk>, owner: Owner, source: nat, firstId: nat, vectors: Rows, env: Setting)
    requires forall k :: k in KeysOf(unique, env.m) ==> k in vectors
    ensures var rows := NewRows(unique, owner, source, firstId, vectors, env);
            (forall k :: k in KeysOf(unique, env.m) <==> HasKey(rows, k)) && AllEmbedded(rows, vectors)
  {
    var keys, rows := KeysOf(unique, env.m), NewRows(unique, owner, source, firstId, vectors, env);
    NewRowsAre(unique, owner, source, firstId, vectors, env);
    KeysOfTexts(unique, env.m);
    forall i | 0 <= i < |rows| ensures rows[i].key == keys[i] && rows[i].embedding == Looked(vectors, keys[i]) {
      RowKey(unique, owner, source, firstId, vectors, env, i);
    }
    KeyedRowsHold(keys, rows, vectors);
  }

  lemma KeyedRowsHold(keys: seq<string>, rows: seq<ChunkRow>, vectors: Rows)
    requires |rows| == |keys| && forall i :: 0 <= i < |rows| ==> rows[i].key == keys[i] && rows[i].embedding == Looked(vectors, keys[i])
    requires forall k :: k in keys ==> k in vectors
    ensures (forall k :: k in keys <==> HasKey(rows, k)) && AllEmbedded(rows, vectors)
  {
    forall i | 0 <= i < |rows| ensures rows[i].key in keys {
      assert keys[i] in keys;
    }
    forall k | k in keys ensures HasKey(rows, k) {
      var i :| 0 <= i < |keys| && keys[i] == k;
      assert rows[i].key == k;
    }
  }

  /** One row for each chunk that comes first under its key, with its text and key, in their order. */
  predicate InFirstOrder(rows: seq<ChunkRow>, chunks: seq<Chunking.Chunk>, m: Model, places: seq<nat>) {
    && |rows| == |places|
    && Increasing(places)
    && forall i :: 0 <= i < |rows| ==>
         IsFirst(chunks, m, places[i]) && rows[i].text == chunks[places[i]].text && rows[i].key == KeyOf(chunks[places[i]], m)
  }

  /** The i-th row has the i-th key. */
  predicate KeyedBy(rows: seq<ChunkRow>, keys: seq<string>) {
    |rows| == |keys| && forall i :: 0 <= i < |rows| ==> rows[i].key == keys[i]
  }

  predicate FollowsFirsts(rows: seq<ChunkRow>, chunks: seq<Chunking.Chunk>, m: Model) {
    InFirstOrder(rows, chunks, m, FirstPlaces(chunks, m)) && KeyedBy(rows, Unique(KeysOf(chunks, m)))
  }

  /** The i-th row has the text and key of the i-th chunk. */
  predicate Carries(rows: seq<ChunkRow>, chunks: seq<Chunking.Chunk>, m: Model) {
    |rows| == |chunks| && forall i :: 0 <= i < |rows| ==> rows[i].text == chunks[i].text && rows[i].key == KeyOf(chunks[i], m)
  }

  lemma AddedRowsCarryChunks(s: State, r: Request, env: Setting)
    ensures Carries(AddedRows(s, r, env), Deduplicated(env.chunker(r.text), env.m), env.m)
  {
    var unique := Deduplicated(env.chunker(r.text), env.m);
    NewRowsAre(unique, r.owner, s.nextSource, s.nextChunk, RowsAfter(TextsOfChunks(unique), s.rows, env.m), env);
  }

  lemma CarriersFollowFirsts(rows: seq<ChunkRow>, chunks: seq<Chunking.Chunk>, m: Model)
    requires Carries(rows, Deduplicated(chunks, m), m)
    ensures FollowsFirsts(rows, chunks, m)
  {
    var unique, places := Deduplicated(chunks, m), FirstPlaces(chunks, m);
    KeptAreTheFirst(chunks, m);
    FirstPlacesAre(chunks, m);
    DeduplicatedKeys(chunks, m);
    KeysOfTexts(unique, m);
    forall i | 0 <= i < |unique| ensures IsFirst(chunks, m, places[i]) {
      assert places[i] in places;
    }
  }

  /** So many rows, one for each of the keys, each with the vector of its key. */
  ghost predicate Indexes(rows: seq<ChunkRow>, count: nat, keys: seq<string>, vectors: Rows) {
    WellIndexed(rows, count) && (forall k :: k in keys <==> HasKey(rows, k)) && AllEmbedded(rows, vectors)
  }

  lemma AddedRowsCarryContent(s: State, r: Request, env: Setting)
    ensures var rows, chunks := AddedRows(s, r, env), env.chunker(r.text);
            Indexes(rows, |Deduplicated(chunks, env.m)|, KeysOf(chunks, env.m), Inserted(s, r, env).rows)
  {
    var unique := Deduplicated(env.chunker(r.text), env.m);
    AddedRowsAre(s, r, env);
    DeduplicationIsExact(env.chunker(r.text), env.m);
    EmbeddedKeys(unique, s.rows, env.m);
    RowsCarryKeysAndVectors(unique, r.owner, s.nextSource, s.nextChunk, RowsAfter(TextsOfChunks(unique), s.rows, env.m), env);
  }

  ghost predicate IsIndexed(s: State, receipt: Receipt, chunks: seq<Chunking.Chunk>, m: Model) {
    && receipt.created + receipt.duplicates == |chunks|
    && Indexes(RowsOf(s.chunks, receipt.source), receipt.created, KeysOf(chunks, m), s.rows)
  }

  /**
   New content: chunks stored and duplicates add up to the chunks produced, and what is
   stored is each distinct normalized content once, with its cached vector.
   */
  lemma NewContentIsIndexed(s: State, r: Request, env: Setting)
    requires Consistent(s) && Ingest(s, r, env).Ok? && forall id :: !Matches(s.sources, id, r, env)
    ensures var (after, receipt) := Ingest(s, r, env).value; IsIndexed(after, receipt, env.chunker(r.text), env.m)
  {
    RowsAfterInsert(s, r, env, s.nextSource);
    AddedRowsCarryContent(s, r, env);
  }

  /** And these contents stand in the order, and with the text, of their first occurrence. */
  lemma NewContentIsInOrder(s: State, r: Request, env: Setting)
    requires Consistent(s) && Ingest(s, r, env).Ok? && forall id :: !Matches(s.sources, id, r, env)
    ensures var (after, receipt) := Ingest(s, r, env).value;
            var rows, chunks := RowsOf(after.chunks, receipt.source), env.chunker(r.text);
            FollowsFirsts(rows, chunks, env.m)
  {
    AddedRowsCarryChunks(s, r, env);
    CarriersFollowFirsts(AddedRows(s, r, env), env.chunker(r.text), env.m);
    RowsAfterInsert(s, r, env, s.nextSource);
  }

  function StoreOf(s: State): Store {
    Store(s.sources, s.chunks)
  }

  /** The scope of whoever the content belongs to; the viewer stands in where no subject is named. */
  function OwnScope(owner: Owner, viewer: nat): Scope {
    Scope(if owner.subject.Some? then owner.subject.value else viewer,
          owner.tutor,
          if owner.course.Some? then {owner.course.value} else {},
          owner.conversation,
          true)
  }

  /** The owner column that the lookup does not compare agrees too. */
  predicate SameAudience(stored: Owner, asked: Owner) {
    match asked.visibility
    case CourseMaterial => stored.course == asked.course
    case Conversation => stored.conversation == asked.conversation
    case _ => true
  }

  ghost predicate AllReachable(s: State, source: nat, scope: Scope) {
    forall c :: c in RowsOf(s.chunks, source) && source in s.sources ==>
      Retrieval.Candidate(c, s.sources[source].title) in Retrieval.Reachable(s.chunks, StoreOf(s), scope)
  }

  lemma ReceiptMatches(s: State, r: Request, env: Setting)
    requires Consistent(s) && Ingest(s, r, env).Ok?
    ensures var (after, receipt) := Ingest(s, r, env).value; Matches(after.sources, receipt.source, r, env)
  {
  }

  lemma VisibleIffSameAudience(stored: Owner, asked: Owner, viewer: nat)
    requires stored.visibility == asked.visibility && stored.subject == asked.subject && stored.tutor == asked.tutor
    requires HasOwner(asked)
    ensures Visible(OwnScope(asked, viewer), stored) <==> SameAudience(stored, asked)
  {
  }

  /**
   After a request is granted, the chunks of the source it names can be retrieved from its
   owner's scope if and only if that source is for the same course or conversation, or the
   visibility is neither of these: always for private, tutor and curated content.
   */
  lemma ReachableAfterwardsIffSameAudience(s: State, r: Request, env: Setting, viewer: nat)
    requires Consistent(s) && Ingest(s, r, env).Ok?
    ensures var (after, receipt) := Ingest(s, r, env).value;
            AllReachable(after, receipt.source, OwnScope(r.owner, viewer))
            <==> |RowsOf(after.chunks, receipt.source)| == 0 || SameAudience(after.sources[receipt.source].owner, r.owner)
  {
    var (after, receipt) := Ingest(s, r, env).value;
    var source, scope := receipt.source, OwnScope(r.owner, viewer);
    ReceiptMatches(s, r, env);
    IngestKeepsConsistent(s, r, env);
    RowsOfAre(after.chunks, source);
    VisibleIffSameAudience(after.sources[source].owner, r.owner, viewer);
    forall c | c in RowsOf(after.chunks, source)
      ensures Retrieval.Candidate(c, after.sources[source].title) in Retrieval.Reachable(after.chunks, StoreOf(after), scope)
              <==> SameAudience(after.sources[source].owner, r.owner)
    {
      assert Chained(c, after.sources);
      if Visible(scope, c.owner) {
        Retrieval.ReachableIsComplete(after.chunks, StoreOf(after), scope, c);
      } else {
        Retrieval.ReachableAreVisible(after.chunks, StoreOf(after), scope);
      }
    }
    if |RowsOf(after.chunks, source)| > 0 {
      assert RowsOf(after.chunks, source)[0] in RowsOf(after.chunks, source);
    }
  }

  // ---- what is on record, and how it is found ---------------------------------------------

  /** The source has the title, owner, content hash and versions asked for, and is ready if it has chunks and empty if not. */
  predicate OnRecord(source: Source, r: Request, env: Setting, count: nat) {
    && source.title == r.title && source.owner == r.owner && source.hash == env.m.key(r.text)
    && source.parser == r.parser && source.chunker == "structural-v1" && source.model == env.model
    && source.chunkCount == count && source.status == (if count > 0 then Ready else Empty) && !source.deleted
  }

  /** New content goes on record under a new source; every other source and every stored row stays as it was. */
  lemma NewContentIsOnRecord(s: State, r: Request, env: Setting)
    requires Consistent(s) && Ingest(s, r, env).Ok? && forall id :: !Matches(s.sources, id, r, env)
    ensures var (after, receipt) := Ingest(s, r, env).value;
            && receipt.source !in s.sources && after.sources.Keys == s.sources.Keys + {receipt.source}
            && OnRecord(after.sources[receipt.source], r, env, receipt.created)
            && (receipt.created > 0 <==> |env.chunker(r.text)| > 0)
            && (forall id :: id in s.sources ==> after.sources[id] == s.sources[id])
            && s.chunks <= after.chunks && RowsOf(after.chunks, receipt.source) == after.chunks[|s.chunks|..]
  {
    DeduplicatedIsShorter(env.chunker(r.text), env.m);
    RowsAfterInsert(s, r, env, s.nextSource);
    var after := Inserted(s, r, env);
    assert after.chunks[|s.chunks|..] == AddedRows(s, r, env);
  }

  /** The row has the vector of its key, under the name of the model that made it. */
  predicate IsSearchable(row: ChunkRow, vectors: Rows, model: string) {
    row.model == Some(model) && row.key in vectors && row.embedding == Some(vectors[row.key])
  }

  lemma RowIsEmbedded(s: State, r: Request, env: Setting, i: nat)
    requires i < |AddedRows(s, r, env)|
    ensures var row := AddedRows(s, r, env)[i];
            row.id == s.nextChunk + i && row.owner == r.owner && IsSearchable(row, Inserted(s, r, env).rows, env.model)
  {
    var unique := Deduplicated(env.chunker(r.text), env.m);
    NewRowsAre(unique, r.owner, s.nextSource, s.nextChunk, RowsAfter(TextsOfChunks(unique), s.rows, env.m), env);
    AddedRowsCarryContent(s, r, env);
  }

  /**
   Its rows have new ids, the owner and the vectors of the model asked for, and stand among the
   candidates of the owner's searches.
   */
  lemma NewRowsAreSearchable(s: State, r: Request, env: Setting, viewer: nat, i: nat)
    requires Consistent(s) && Ingest(s, r, env).Ok? && forall id :: !Matches(s.sources, id, r, env)
    requires i < |RowsOf(Ingest(s, r, env).value.0.chunks, Ingest(s, r, env).value.1.source)|
    ensures var (after, receipt) := Ingest(s, r, env).value;
            var row := RowsOf(after.chunks, receipt.source)[i];
            && row.id == s.nextChunk + i && row.owner == r.owner && IsSearchable(row, after.rows, env.model)
            && Retrieval.Candidate(row, r.title) in Retrieval.Reachable(after.chunks, StoreOf(after), OwnScope(r.owner, viewer))
  {
    var (after, receipt) := Ingest(s, r, env).value;
    RowsAfterInsert(s, r, env, s.nextSource);
    RowIsEmbedded(s, r, env, i);
    ReachableAfterwardsIffSameAudience(s, r, env, viewer);
    assert RowsOf(after.chunks, receipt.source)[i] in RowsOf(after.chunks, receipt.source);
  }

  /**
   A vector search for the model finds them: each is quoted, or as many rows as were asked for are,
   none of them farther away.
   */
  lemma NewContentIsFound(
    s: State, r: Request, env: Setting, viewer: nat, i: nat, vector: Vector, topK: nat, engine: Retrieval.Engine)
    returns (quoted: seq<Retrieval.Candidate>)
    requires Consistent(s) && Ingest(s, r, env).Ok? && forall id :: !Matches(s.sources, id, r, env)
    requires i < |RowsOf(Ingest(s, r, env).value.0.chunks, Ingest(s, r, env).value.1.source)| && topK > 0 && |vector| > 0
    ensures var (after, receipt) := Ingest(s, r, env).value;
            var candidates := Retrieval.Reachable(after.chunks, StoreOf(after), OwnScope(r.owner, viewer));
            var c := Retrieval.Candidate(RowsOf(after.chunks, receipt.source)[i], r.title);
            && Retrieval.AreQuoted(quoted, Retrieval.SimilaritySearch(candidates, vector, env.model, topK, engine))
            && (c in quoted || (|quoted| == topK && Retrieval.NoneIsFarther(quoted, c, vector, engine)))
  {
    var (after, receipt) := Ingest(s, r, env).value;
    NewRowsAreSearchable(s, r, env, viewer, i);
    var candidates := Retrieval.Reachable(after.chunks, StoreOf(after), OwnScope(r.owner, viewer));
    var c := Retrieval.Candidate(RowsOf(after.chunks, receipt.source)[i], r.title);
    quoted := Retrieval.NearestAreQuoted(candidates, vector, env.model, topK, engine);
  }

  /** The family of inputs for which it fails: content stored for one course is not found from another. */
  lemma OtherCourseSeesNothing(s: State, r: Request, other: nat, env: Setting, viewer: nat)
    requires Consistent(s) && Ingest(s, r, env).Ok? && r.owner.visibility == CourseMaterial
    requires Ingest(s, r, env).value.0.sources[Ingest(s, r, env).value.1.source].owner.course != Some(other)
    requires |RowsOf(Ingest(s, r, env).value.0.chunks, Ingest(s, r, env).value.1.source)| > 0
    ensures var (after, receipt) := Ingest(s, r, env).value;
            var again := r.(owner := r.owner.(course := Some(other)));
            && IsFree(after, again, env, receipt.source)
            && !AllReachable(after, receipt.source, OwnScope(again.owner, viewer))
  {
    var (after, receipt) := Ingest(s, r, env).value;
    var again := r.(owner := r.owner.(course := Some(other)));
    IngestKeepsConsistent(s, r, env);
    ReceiptMatches(s, r, env);
    assert Matches(after.sources, receipt.source, again, env);
    forall id | Matches(after.sources, id, again, env) ensures id == receipt.source {
      assert SameColumns(after.sources[id], after.sources[receipt.source]);
    }
    ReachableAfterwardsIffSameAudience(after, again, env, viewer);
  }

  /** A deleted source has the same content under the columns of the constraint. */
  predicate WasDeleted(sources: map<nat, Source>, r: Request, env: Setting) {
    exists id :: id in sources && sources[id].deleted && SameContent(sources[id], r, env)
  }

  /**
   In any state runs can reach, an owned request is refused by the constraint if and only if no
   live copy answers it, both subject and tutor are set, and a deleted copy is still there.
   */
  lemma IngestCollidesIff(s: State, r: Request, env: Setting)
    requires Consistent(s) && HasOwner(r.owner)
    ensures Ingest(s, r, env) == Err(UniqueViolation)
            <==> (forall id :: !Matches(s.sources, id, r, env))
                 && r.owner.subject.Some? && r.owner.tutor.Some? && WasDeleted(s.sources, r, env)
  {
    if forall id :: !Matches(s.sources, id, r, env) {
      if id :| id in s.sources && SameContent(s.sources[id], r, env) {
        assert !Matches(s.sources, id, r, env);
        assert s.sources[id].deleted;
      }
    }
  }

  /** Uploading again what was soft-deleted is refused by the constraint exactly when both subject and tutor are set. */
  lemma ReuploadAfterDeleteCollidesIff(s: State, r: Request, env: Setting)
    requires Consistent(s) && Ingest(s, r, env).Ok?
    ensures var (after, receipt) := Ingest(s, r, env).value;
            Ingest(SoftDeleted(after, receipt.source), r, env) == Err(UniqueViolation)
            <==> r.owner.subject.Some? && r.owner.tutor.Some?
  {
    var (after, receipt) := Ingest(s, r, env).value;
    IngestKeepsConsistent(s, r, env);
    ReceiptMatches(s, r, env);
    var deleted := SoftDeleted(after, receipt.source);
    assert SameContent(deleted.sources[receipt.source], r, env);
    forall id ensures !Matches(deleted.sources, id, r, env) {
      if Matches(deleted.sources, id, r, env) {
        assert SameColumns(after.sources[id], after.sources[receipt.source]);
      }
    }
  }

  /** Once a source is deleted no scope reaches its chunks; once it is purged its rows are gone. */
  lemma DeletedIsUnreachable(s: State, id: nat, scope: Scope)
    requires Consistent(s)
    ensures forall c :: c in Retrieval.Reachable(s.chunks, StoreOf(SoftDeleted(s, id)), scope) ==> c.row.source != id
    ensures SoftDeleted(s, id).chunks == s.chunks && SoftDeleted(s, id).sources.Keys == s.sources.Keys
    ensures id in s.sources ==> SoftDeleted(s, id).sources[id].status == Deleted
    ensures forall other :: other in s.sources && other != id ==> SoftDeleted(s, id).sources[other] == s.sources[other]
    ensures Purged(s, id).sources == map other | other in s.sources && other != id :: s.sources[other]
    ensures id !in Purged(s, id).sources && |RowsOf(Purged(s, id).chunks, id)| == 0
    ensures forall other :: other != id ==> RowsOf(Purged(s, id).chunks, other) == RowsOf(s.chunks, other)
  {
    Retrieval.ReachableAreVisible(s.chunks, StoreOf(SoftDeleted(s, id)), scope);
    WithoutAre(s.chunks, id, id);
    RowsOfOther(Without(s.chunks, id), id);
    forall other | other != id ensures RowsOf(Purged(s, id).chunks, other) == RowsOf(s.chunks, other) {
      WithoutAre(s.chunks, id, other);
    }
  }

  // ---- the tables --------------------------------------------------------------------------------

  lemma UpdatedTwice(sources: map<nat, Source>, id: nat, a: Source, b: Source)
    ensures sources[id := a][id := b] == sources[id := b]
  {
  }

  class KnowledgeBase {
    const env: Setting
    const embeddings: EmbeddingStore
    var sources: map<nat, Source>
    var chunks: seq<ChunkRow>
    var nextSource: nat
    var nextChunk: nat

    ghost function AsState(): State
      reads this, embeddings
    {
      State(sources, chunks, embeddings.rows, nextSource, nextChunk)
    }

    ghost predicate Valid()
      reads this, embeddings
    {
      embeddings.m == env.m && Consistent(AsState())
    }

    constructor (env: Setting)
      ensures Valid() && AsState() == NOTHING_STORED && this.env == env && fresh(embeddings)
    {
      this.env := env;
      embeddings := new EmbeddingStore(env.m);
      sources, chunks, nextSource, nextChunk := map[], [], 0, 0;
    }

    method IndexRows(unique: seq<Chunking.Chunk>, owner: Owner, source: nat)
      requires embeddings.m == env.m
      modifies this`chunks, this`nextChunk
      ensures chunks == old(chunks) + NewRows(unique, owner, source, old(nextChunk), embeddings.rows, env)
      ensures nextChunk == old(nextChunk) + |unique|
    {
      var firstId := nextChunk;
      assert chunks + NewRows(unique[..0], owner, source, nextChunk, embeddings.rows, env) == chunks;
      for ordinal := 0 to |unique|
        invariant chunks == old(chunks) + NewRows(unique[..ordinal], owner, source, old(nextChunk), embeddings.rows, env)
        invariant nextChunk == old(nextChunk) + ordinal
      {
        assert unique[..ordinal + 1][..ordinal] == unique[..ordinal];
        chunks := chunks + [RowFor(unique[ordinal], ordinal, owner, source, firstId, embeddings.rows, env)];
        nextChunk := nextChunk + 1;
      }
      assert unique[..|unique|] == unique;
    }

    method IndexSource(unique: seq<Chunking.Chunk>, owner: Owner, source: nat) returns (apiCalls: nat, cacheHits: nat)
      requires embeddings.m == env.m && Distinct(KeysOf(unique, env.m))
      modifies this`chunks, this`nextChunk, embeddings
      ensures embeddings.rows == RowsAfter(TextsOfChunks(unique), old(embeddings.rows), env.m)
      ensures chunks == old(chunks) + NewRows(unique, owner, source, old(nextChunk), embeddings.rows, env)
      ensures nextChunk == old(nextChunk) + |unique|
      ensures apiCalls == BatchCalls(|MissingKeys(env.m, TextsOfChunks(unique), old(embeddings.rows))|)
      ensures cacheHits + |MissingKeys(env.m, TextsOfChunks(unique), old(embeddings.rows))| == |unique|
      ensures embeddings.calls == old(embeddings.calls) + apiCalls
    {
      DistinctTexts(unique, env.m);
      var embedding := embeddings.EmbedWithCache(TextsOfChunks(unique));
      IndexRows(unique, owner, source);
      apiCalls, cacheHits := embedding.apiCalls, embedding.cacheHits;
    }

    method Insert(r: Request) returns (receipt: Receipt)
      requires embeddings.m == env.m
      modifies this`sources, this`chunks, this`nextSource, this`nextChunk, embeddings
      ensures AsState() == Inserted(old(AsState()), r, env)
      ensures receipt == NewReceipt(old(AsState()), r, env)
      ensures embeddings.calls == old(embeddings.calls) + receipt.apiCalls
    {
      var source := nextSource;
      sources := sources[source := Source(r.title, r.owner, env.m.key(r.text), r.parser, CHUNKER_VERSION, env.model, 0, Ingesting, false)];
      nextSource := nextSource + 1;
      var pieces := env.chunker(r.text);
      var unique, duplicates := Deduplicate(pieces, env.m);
      DeduplicationIsExact(pieces, env.m);
      var apiCalls, cacheHits := IndexSource(unique, r.owner, source);
      var status := if |unique| == 0 then Empty else Ready;
      UpdatedTwice(old(sources), source, sources[source], sources[source].(chunkCount := |unique|, status := status));
      sources := sources[source := sources[source].(chunkCount := |unique|, status := status)];
      receipt := Receipt(source, |unique|, duplicates, apiCalls, cacheHits, false);
    }

    /** Idempotent: refused, answered by the live copy, or indexed. */
    method IngestRequest(r: Request) returns (result: Result<Receipt, Error>)
      requires Valid()
      modifies this, embeddings
      ensures Valid()
      ensures var expected := Ingest(old(AsState()), r, env);
              if expected.Ok? then result == Ok(expected.value.1) && AsState() == expected.value.0
              else result == Err(expected.error) && AsState() == old(AsState())
      ensures embeddings.calls == old(embeddings.calls) + if result.Ok? then result.value.apiCalls else 0
    {
      ghost var before := AsState();
      if !HasOwner(r.owner) {
        return Err(OwnershipError);
      }
      if id :| id in sources && SameContent(sources[id], r, env) && !sources[id].deleted {
        assert Matches(sources, id, r, env);
        forall other | Matches(sources, other, r, env) ensures other == id {
          assert SameColumns(sources[other], sources[id]);
        }
        return Ok(Receipt(id, 0, 0, 0, 0, true));
      }
      assert forall id :: !Matches(sources, id, r, env);
      if r.owner.subject.Some? && r.owner.tutor.Some? {
        if id :| id in sources && SameContent(sources[id], r, env) {
          return Err(UniqueViolation);
        }
      }
      IngestKeepsConsistent(before, r, env);
      var receipt := Insert(r);
      result := Ok(receipt);
    }

    method SoftDeleteSource(id: nat)
      requires Valid()
      modifies this`sources
      ensures Valid() && AsState() == SoftDeleted(old(AsState()), id)
    {
      SoftDeleteKeepsConsistent(AsState(), id);
      if id in sources {
        sources := sources[id := sources[id].(status := Deleted, deleted := true)];
      }
    }

    method PurgeSource(id: nat)
      requires Valid()
      modifies this`sources, this`chunks
      ensures Valid() && AsState() == Purged(old(AsState()), id)
    {
      PurgeKeepsConsistent(AsState(), id);
      sources := sources - {id};
      chunks := Without(chunks, id);
    }
  }
}
