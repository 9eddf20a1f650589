/**
 The embedding cache in front of a paid provider.  Rows are keyed by the canonical form of
 a text; the hash of that form is taken to be injective.  The provider is a function of the
 text alone.
 */
module Embeddings {
  type Vector = seq<real>
  type Rows = map<string, Vector>

  // A provider of vectors, and the key under which the cache files a text.
  datatype Model = Model(key: string -> string, vector: string -> Vector)

  const MAX_BATCH := 96

  function Vectors(m: Model, texts: seq<string>): seq<Vector> {
    if |texts| == 0 then [] else Vectors(m, texts[..|texts| - 1]) + [m.vector(texts[|texts| - 1])]
  }

  function BatchCalls(n: nat): (calls: nat)
    ensures 96 * calls >= n > 96 * (calls - 1)
  {
    (n + MAX_BATCH - 1) / MAX_BATCH
  }

  lemma NextBatch(start: nat, n: nat)
    requires start % MAX_BATCH == 0 && start < n
    ensures var end := if start + MAX_BATCH < n then start + MAX_BATCH else n;
            BatchCalls(end) == BatchCalls(start) + 1 && (end % MAX_BATCH == 0 || end == n)
  {
  }

  lemma {:induction false} VectorsAppend(m: Model, a: seq<string>, b: seq<string>)
    ensures Vectors(m, a + b) == Vectors(m, a) + Vectors(m, b)
  {
    if |b| == 0 {
      assert a + b == a;
    } else {
      var front, last := b[..|b| - 1], b[|b| - 1];
      VectorsAppend(m, a, front);
      assert (a + b)[..|a + b| - 1] == a + front;
    }
  }

  lemma {:induction false} VectorsAre(m: Model, texts: seq<string>)
    ensures |Vectors(m, texts)| == |texts|
    ensures forall i :: 0 <= i < |texts| ==> Vectors(m, texts)[i] == m.vector(texts[i])
  {
    if |texts| > 0 {
      VectorsAre(m, texts[..|texts| - 1]);
    }
  }

  // ---- keys -----------------------------------------------------------------------

  function Keys(m: Model, texts: seq<string>): seq<string> {
    if |texts| == 0 then [] else Keys(m, texts[..|texts| - 1]) + [m.key(texts[|texts| - 1])]
  }

  /** The distinct members, in the order of their first occurrence. */
  function Unique(keys: seq<string>): seq<string> {
    if |keys| == 0 then []
    else
      var front, last := Unique(keys[..|keys| - 1]), keys[|keys| - 1];
      if last in front then front else front + [last]
  }

  /** The last text of each key. */
  function KeyToText(m: Model, texts: seq<string>): map<string, string> {
    if |texts| == 0 then map[]
    else KeyToText(m, texts[..|texts| - 1])[m.key(texts[|texts| - 1]) := texts[|texts| - 1]]
  }

  function Missing(keys: seq<string>, rows: Rows): seq<string> {
    if |keys| == 0 then []
    else Missing(keys[..|keys| - 1], rows) + (if keys[|keys| - 1] in rows then [] else [keys[|keys| - 1]])
  }

  function TextsOf(keys: seq<string>, texts: map<string, string>): seq<string>
    requires forall k :: k in keys ==> k in texts
  {
    if |keys| == 0 then [] else TextsOf(keys[..|keys| - 1], texts) + [texts[keys[|keys| - 1]]]
  }

  predicate Distinct(s: seq<string>) {
    forall i, j :: 0 <= i < j < |s| ==> s[i] != s[j]
  }

  lemma {:induction false} KeysAre(m: Model, texts: seq<string>)
    ensures |Keys(m, texts)| == |texts|
    ensures forall i :: 0 <= i < |texts| ==> Keys(m, texts)[i] == m.key(texts[i])
    ensures forall k :: k in Keys(m, texts) <==> k in KeyToText(m, texts)
    ensures forall k :: k in KeyToText(m, texts) ==> KeyToText(m, texts)[k] in texts && m.key(KeyToText(m, texts)[k]) == k
  {
    if |texts| > 0 {
      KeysAre(m, texts[..|texts| - 1]);
    }
  }

  lemma DistinctSnoc(s: seq<string>, last: string)
    requires Distinct(s) && last !in s
    ensures Distinct(s + [last])
  {
    assert forall i :: 0 <= i < |s| ==> s[i] in s;
  }

  lemma {:induction false} UniqueIsExact(keys: seq<string>)
    ensures Distinct(Unique(keys)) && forall k :: k in Unique(keys) <==> k in keys
  {
    if |keys| > 0 {
      UniqueIsExact(keys[..|keys| - 1]);
      var front, last := Unique(keys[..|keys| - 1]), keys[|keys| - 1];
      if last !in front {
        DistinctSnoc(front, last);
      }
    }
  }

  lemma {:induction false} MissingIsExact(keys: seq<string>, rows: Rows)
    requires Distinct(keys)
    ensures Distinct(Missing(keys, rows)) && |Missing(keys, rows)| <= |keys|
    ensures forall k :: k in Missing(keys, rows) <==> k in keys && k !in rows
  {
    if |keys| > 0 {
      MissingIsExact(keys[..|keys| - 1], rows);
      var front := Missing(keys[..|keys| - 1], rows);
      assert forall i :: 0 <= i < |front| ==> front[i] in front;
      assert forall i :: 0 <= i < |keys| - 1 ==> keys[..|keys| - 1][i] == keys[i];
    }
  }

  // ---- one call --------------------------------------------------------------------

  datatype EmbeddingResult = EmbeddingResult(vectors: seq<Vector>, apiCalls: nat, cacheHits: nat, textsEmbedded: nat)

  function MissingKeys(m: Model, texts: seq<string>, rows: Rows): seq<string> {
    Missing(Unique(Keys(m, texts)), rows)
  }

  lemma MissingKeysAre(m: Model, texts: seq<string>, rows: Rows)
    ensures Distinct(MissingKeys(m, texts, rows)) && |MissingKeys(m, texts, rows)| <= |Unique(Keys(m, texts))|
    ensures forall k :: k in MissingKeys(m, texts, rows) <==> k in Keys(m, texts) && k !in rows
    ensures forall k :: k in MissingKeys(m, texts, rows) ==> k in KeyToText(m, texts)
  {
    UniqueIsExact(Keys(m, texts));
    MissingIsExact(Unique(Keys(m, texts)), rows);
    KeysAre(m, texts);
  }

  /** The rows after some new keys were embedded from the given texts. */
  function Filled(rows: Rows, keys: seq<string>, texts: map<string, string>, m: Model): Rows
    requires forall k :: k in keys ==> k in texts
  {
    if |keys| == 0 then rows
    else
      var last := keys[|keys| - 1];
      var front := Filled(rows, keys[..|keys| - 1], texts, m);
      if last in front then front else front[last := m.vector(texts[last])]
  }

  function RowsAfter(texts: seq<string>, rows: Rows, m: Model): Rows {
    MissingKeysAre(m, texts, rows);
    Filled(rows, MissingKeys(m, texts, rows), KeyToText(m, texts), m)
  }

  lemma {:induction false} FilledAdds(rows: Rows, keys: seq<string>, texts: map<string, string>, m: Model)
    requires forall k :: k in keys ==> k in texts && k !in rows
    ensures var after := Filled(rows, keys, texts, m);
            && (forall k :: k in after <==> k in rows || k in keys)
            && (forall k :: k in rows ==> after[k] == rows[k])
            && (forall k :: k in keys ==> after[k] == m.vector(texts[k]))
  {
    if |keys| > 0 {
      FilledAdds(rows, keys[..|keys| - 1], texts, m);
      assert keys[|keys| - 1] in keys;
    }
  }

  /** What a call leaves behind: old rows as they were, and one new row per key that had none. */
  lemma RowsAfterAre(texts: seq<string>, rows: Rows, m: Model)
    ensures var after := RowsAfter(texts, rows, m);
            && (forall k :: k in after <==> k in rows || k in Keys(m, texts))
            && (forall k :: k in rows ==> after[k] == rows[k])
            && (forall k :: k in Keys(m, texts) && k !in rows ==> k in KeyToText(m, texts) && after[k] == m.vector(KeyToText(m, texts)[k]))
  {
    MissingKeysAre(m, texts, rows);
    FilledAdds(rows, MissingKeys(m, texts, rows), KeyToText(m, texts), m);
  }

  function Lookup(keys: seq<string>, rows: Rows): (vectors: seq<Vector>)
    requires forall k :: k in keys ==> k in rows
    ensures |vectors| == |keys| && forall i :: 0 <= i < |keys| ==> keys[i] in rows && vectors[i] == rows[keys[i]]
  {
    if |keys| == 0 then [] else
      assert keys[|keys| - 1] in keys;
      Lookup(keys[..|keys| - 1], rows) + [rows[keys[|keys| - 1]]]
  }

  class EmbeddingStore {
    const m: Model
    var rows: Rows
    var calls: nat
    ghost var sent: seq<string>

    constructor (m: Model)
      ensures this.m == m && rows == map[] && calls == 0 && sent == []
    {
      this.m, rows, calls, sent := m, map[], 0, [];
    }

    /** Batches of at most 96 give what one batch would, in as few calls as that allows. */
    method Embed(texts: seq<string>) returns (vectors: seq<Vector>)
      modifies this`calls
      ensures vectors == Vectors(m, texts)
      ensures calls == old(calls) + BatchCalls(|texts|)
    {
      vectors := [];
      var start := 0;
      while start < |texts|
        invariant start % MAX_BATCH == 0 || start == |texts|
        invariant 0 <= start <= |texts|
        invariant vectors == Vectors(m, texts[..start])
        invariant calls == old(calls) + BatchCalls(start)
      {
        NextBatch(start, |texts|);
        var end := if start + MAX_BATCH < |texts| then start + MAX_BATCH else |texts|;
        var batch := texts[start..end];
        calls := calls + 1;
        VectorsAppend(m, texts[..start], batch);
        assert texts[..start] + batch == texts[..end];
        vectors := vectors + Vectors(m, batch);
        start := end;
      }
      assert texts[..start] == texts;
    }

    /** Sends the texts of keys that have no row, and inserts their rows. */
    method Fill(missing: seq<string>, texts: map<string, string>)
      requires forall k :: k in missing ==> k in texts
      modifies this
      ensures rows == Filled(old(rows), missing, texts, m)
      ensures sent == old(sent) + missing
      ensures calls == old(calls) + BatchCalls(|missing|)
    {
      var toEmbed := TextsOf(missing, texts);
      var made := Embed(toEmbed);
      sent := sent + missing;
      TextsOfAre(missing, texts);
      VectorsAre(m, toEmbed);
      for i := 0 to |missing|
        invariant forall k :: k in missing[..i] ==> k in texts
        invariant rows == Filled(old(rows), missing[..i], texts, m)
        invariant calls == old(calls) + BatchCalls(|missing|) && sent == old(sent) + missing
      {
        assert missing[..i + 1][..i] == missing[..i];
        assert made[i] == m.vector(toEmbed[i]) == m.vector(texts[missing[i]]);
        if missing[i] !in rows {
          rows := rows[missing[i] := made[i]];
        }
      }
      assert missing[..|missing|] == missing;
    }

    method EmbedWithCache(texts: seq<string>) returns (result: EmbeddingResult)
      modifies this
      ensures rows == RowsAfter(texts, old(rows), m)
      ensures sent == old(sent) + MissingKeys(m, texts, old(rows))
      ensures calls == old(calls) + result.apiCalls
      ensures result.apiCalls == BatchCalls(|MissingKeys(m, texts, old(rows))|)
      ensures result.textsEmbedded == |MissingKeys(m, texts, old(rows))|
      ensures result.cacheHits + result.textsEmbedded == |Unique(Keys(m, texts))|
      ensures (forall k :: k in Keys(m, texts) ==> k in rows) && result.vectors == Lookup(Keys(m, texts), rows)
    {
      var keys := Keys(m, texts);
      var unique := Unique(keys);
      var missing := Missing(unique, rows);
      MissingKeysAre(m, texts, rows);
      RowsAfterAre(texts, rows, m);
      var before := calls;
      if |missing| > 0 {
        Fill(missing, KeyToText(m, texts));
      }
      result := EmbeddingResult(Lookup(keys, rows), calls - before, |unique| - |missing|, |missing|);
    }
  }

  lemma {:induction false} TextsOfAre(keys: seq<string>, texts: map<string, string>)
    requires forall k :: k in keys ==> k in texts
    ensures |TextsOf(keys, texts)| == |keys|
    ensures forall i :: 0 <= i < |keys| ==> keys[i] in texts && TextsOf(keys, texts)[i] == texts[keys[i]]
  {
    if |keys| > 0 {
      assert keys[|keys| - 1] in keys;
      TextsOfAre(keys[..|keys| - 1], texts);
      assert forall i :: 0 <= i < |keys| ==> keys[i] in keys;
    }
  }

  // ---- any sequence of calls -----------------------------------------------------------

  datatype History = History(rows: Rows, sent: seq<string>)

  function AfterCall(h: History, texts: seq<string>, m: Model): History {
    History(RowsAfter(texts, h.rows, m), h.sent + MissingKeys(m, texts, h.rows))
  }

  /** Rows and keys sent after the first n calls, from an empty table. */
  function After(calls: seq<seq<string>>, m: Model, n: nat): History
    requires n <= |calls|
  {
    if n == 0 then History(map[], []) else AfterCall(After(calls, m, n - 1), calls[n - 1], m)
  }

  predicate Asked(m: Model, calls: seq<seq<string>>, n: nat, key: string)
    requires n <= |calls|
  {
    exists i :: 0 <= i < n && key in Keys(m, calls[i])
  }

  /** Every row is the provider's vector for some text of that key. */
  ghost predicate Genuine(rows: Rows, m: Model) {
    forall k :: k in rows ==> exists t :: m.key(t) == k && rows[k] == m.vector(t)
  }

  lemma AppendDistinct(a: seq<string>, b: seq<string>)
    requires Distinct(a) && Distinct(b) && forall k :: k in b ==> k !in a
    ensures Distinct(a + b)
  {
    forall i, j | 0 <= i < |a| && 0 <= j < |b| ensures a[i] != b[j] {
      assert b[j] in b && a[i] in a;
    }
  }

  lemma AskedByCall(m: Model, calls: seq<seq<string>>, n: nat, key: string)
    requires n < |calls|
    ensures Asked(m, calls, n + 1, key) <==> Asked(m, calls, n, key) || key in Keys(m, calls[n])
  {
    if Asked(m, calls, n, key) {
      var i :| 0 <= i < n && key in Keys(m, calls[i]);
    }
  }

  ghost predicate SentOnce(h: History) {
    Distinct(h.sent) && forall k :: k in h.sent <==> k in h.rows
  }

  lemma CallSendsNewKeys(m: Model, texts: seq<string>, h: History)
    requires SentOnce(h)
    ensures SentOnce(AfterCall(h, texts, m))
    ensures forall k :: k in AfterCall(h, texts, m).sent <==> k in h.sent || k in Keys(m, texts)
  {
    MissingKeysAre(m, texts, h.rows);
    RowsAfterAre(texts, h.rows, m);
    AppendDistinct(h.sent, MissingKeys(m, texts, h.rows));
  }

  ghost predicate SentAreAsked(m: Model, calls: seq<seq<string>>, n: nat, sent: seq<string>)
    requires n <= |calls|
  {
    forall k :: k in sent <==> Asked(m, calls, n, k)
  }

  /** The keys sent in the first n calls are exactly the keys asked for, each once. */
  ghost predicate SentSoFar(calls: seq<seq<string>>, m: Model, n: nat)
    requires n <= |calls|
  {
    SentOnce(After(calls, m, n)) && SentAreAsked(m, calls, n, After(calls, m, n).sent)
  }

  lemma NothingIsSent(calls: seq<seq<string>>, m: Model)
    ensures SentSoFar(calls, m, 0)
  {
  }

  lemma OneMoreCall(calls: seq<seq<string>>, m: Model, n: nat)
    requires 0 < n <= |calls| && SentSoFar(calls, m, n - 1)
    ensures SentSoFar(calls, m, n)
  {
    var h := After(calls, m, n - 1);
    CallSendsNewKeys(m, calls[n - 1], h);
    forall k ensures k in AfterCall(h, calls[n - 1], m).sent <==> Asked(m, calls, n, k) {
      AskedByCall(m, calls, n - 1, k);
    }
  }

  /** Over any sequence of calls, the keys sent to the provider are exactly the keys asked for, each once ever. */
  lemma {:induction false} EachKeyIsSentOnce(calls: seq<seq<string>>, m: Model, n: nat)
    requires n <= |calls|
    ensures SentSoFar(calls, m, n)
  {
    if n == 0 {
      NothingIsSent(calls, m);
    } else {
      EachKeyIsSentOnce(calls, m, n - 1);
      OneMoreCall(calls, m, n);
    }
  }

  lemma {:induction false} RowsAreGenuine(calls: seq<seq<string>>, m: Model, n: nat)
    requires n <= |calls|
    ensures Genuine(After(calls, m, n).rows, m)
  {
    if n > 0 {
      RowsAreGenuine(calls, m, n - 1);
      RowsAfterAre(calls[n - 1], After(calls, m, n - 1).rows, m);
      KeysAre(m, calls[n - 1]);
    }
  }

  /** The vector a call returns for a text, which its own rows hold. */
  function Returned(calls: seq<seq<string>>, m: Model, n: nat, i: nat): Vector
    requires n < |calls| && i < |calls[n]|
  {
    RowsAfterAre(calls[n], After(calls, m, n).rows, m);
    KeysAre(m, calls[n]);
    assert Keys(m, calls[n])[i] in Keys(m, calls[n]);
    After(calls, m, n + 1).rows[m.key(calls[n][i])]
  }

  /** Texts with the same canonical form get the same vector. */
  ghost predicate Insensitive(m: Model) {
    forall a, b :: m.key(a) == m.key(b) ==> m.vector(a) == m.vector(b)
  }

  ghost predicate Agrees(calls: seq<seq<string>>, m: Model) {
    forall n, i :: 0 <= n < |calls| && 0 <= i < |calls[n]| ==> Returned(calls, m, n, i) == m.vector(calls[n][i])
  }

  lemma ReturnedAgrees(calls: seq<seq<string>>, m: Model, n: nat, i: nat)
    requires Insensitive(m) && n < |calls| && i < |calls[n]|
    ensures Returned(calls, m, n, i) == m.vector(calls[n][i])
  {
    var rows, text := After(calls, m, n + 1).rows, calls[n][i];
    RowsAreGenuine(calls, m, n + 1);
    RowsAfterAre(calls[n], After(calls, m, n).rows, m);
    KeysAre(m, calls[n]);
    assert Keys(m, calls[n])[i] in Keys(m, calls[n]);
    var t :| m.key(t) == m.key(text) && rows[m.key(text)] == m.vector(t);
  }

  lemma OneText(m: Model, text: string, rows: Rows)
    ensures m.key(text) in RowsAfter([text], rows, m)
    ensures RowsAfter([text], rows, m)[m.key(text)] == if m.key(text) in rows then rows[m.key(text)] else m.vector(text)
  {
    RowsAfterAre([text], rows, m);
    KeysAre(m, [text]);
    assert Keys(m, [text])[0] in Keys(m, [text]);
    assert KeyToText(m, [text])[m.key(text)] in [text];
  }

  /** Asking for a and then for b returns the vector of a both times, when their keys are equal. */
  lemma TwoCallsShareARow(m: Model, a: string, b: string)
    requires m.key(a) == m.key(b)
    ensures var calls := [[a], [b]]; Returned(calls, m, 0, 0) == Returned(calls, m, 1, 0) == m.vector(a)
  {
    var calls := [[a], [b]];
    OneText(m, a, After(calls, m, 0).rows);
    OneText(m, b, After(calls, m, 1).rows);
  }

  /** The cache is the provider, for every sequence of calls, exactly when the provider ignores what the key ignores. */
  lemma CacheAgreesIffInsensitive(m: Model)
    ensures Insensitive(m) <==> forall calls :: Agrees(calls, m)
  {
    if Insensitive(m) {
      forall calls, n, i | 0 <= n < |calls| && 0 <= i < |calls[n]|
        ensures Returned(calls, m, n, i) == m.vector(calls[n][i])
      {
        ReturnedAgrees(calls, m, n, i);
      }
    }
    if forall calls :: Agrees(calls, m) {
      forall a, b | m.key(a) == m.key(b) ensures m.vector(a) == m.vector(b) {
        TwoCallsShareARow(m, a, b);
        assert Agrees([[a], [b]], m);
      }
    }
  }
}
