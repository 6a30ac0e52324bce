/**
 Ingesting a document: its chunks are embedded and upserted, in one transaction, under keys printed
 from the document's ID and the chunk's index.
 */
module Ingest {

  import opened Wrappers
  import opened Text
  import opened Chunker
  import opened Embedding

  // ---------- the printed key ----------

  /** `%d` of a number that is not negative. */
  function Decimal(n: nat): string {
    if n < 10 then [Digit(n)] else Decimal(n / 10) + [Digit(n % 10)]
  }

  function Digit(d: nat): char
    requires d < 10
  {
    ('0' as int + d) as char
  }

  predicate IsDigit(c: char) {
    '0' <= c <= '9'
  }

  /** The number that a string of digits prints. */
  function Value(s: string): int
    requires forall c <- s :: IsDigit(c)
  {
    if s == "" then 0 else 10 * Value(s[..|s| - 1]) + (s[|s| - 1] as int - '0' as int)
  }

  /** `fmt.Sprintf("%s-chunk-%d", id, i)`. */
  function Key(id: string, i: nat): string {
    id + "-chunk-" + Decimal(i)
  }

  /** The key is the ID, the word and the index's digits, of which only zero begins with a zero. */
  lemma KeyIsPrinted(id: string, i: nat)
    ensures var k := Key(id, i);
            && id + "-chunk-" <= k
            && (var digits := k[|id| + 7..];
                && digits != "" && (forall c <- digits :: IsDigit(c)) && Value(digits) == i
                && (digits[0] == '0' ==> digits == "0"))
  {
    assert Key(id, i)[|id| + 7..] == Decimal(i);
    DecimalIsDigits(i);
    NoLeadingZero(i);
  }

  lemma {:induction false} NoLeadingZero(n: nat)
    ensures Decimal(n) != "" && (Decimal(n)[0] == '0' ==> n == 0)
  {
    if n >= 10 {
      NoLeadingZero(n / 10);
    }
  }

  lemma {:induction false} DecimalIsDigits(n: nat)
    ensures forall c <- Decimal(n) :: IsDigit(c)
    ensures Value(Decimal(n)) == n
  {
    if n >= 10 {
      DecimalIsDigits(n / 10);
      assert Decimal(n)[..|Decimal(n)| - 1] == Decimal(n / 10);
    }
  }

  /** Whatever the IDs contain, two keys are equal only for the same document and index. */
  lemma KeyIsInjective(id: string, i: nat, id': string, j: nat)
    requires Key(id, i) == Key(id', j)
    ensures id == id' && i == j
  {
    DecimalIsDigits(i);
    DecimalIsDigits(j);
    if |Decimal(i)| < |Decimal(j)| {
      DashIsNoDigit(id, Decimal(i), id', Decimal(j));
    } else if |Decimal(j)| < |Decimal(i)| {
      DashIsNoDigit(id', Decimal(j), id, Decimal(i));
    }
    var k := Key(id, i);
    assert |id| == |id'|;
    assert k[..|id|] == id && k[..|id'|] == id';
    assert k[|id| + 7..] == Decimal(i) && k[|id'| + 7..] == Decimal(j);
  }

  lemma DashIsNoDigit(a: string, short: string, b: string, long: string)
    requires |short| < |long| && forall c <- long :: IsDigit(c)
    ensures a + "-chunk-" + short != b + "-chunk-" + long
  {
    var s, t := a + "-chunk-" + short, b + "-chunk-" + long;
    if |s| == |t| {
      var at := |s| - |short| - 1;
      assert s[at] == '-';
      assert t[at] == long[at - |b| - 7];
      assert long[at - |b| - 7] in long;
    }
  }

  // ---------- the vector store ----------

  datatype Metadata = Metadata(documentId: string, title: string, source: string, chunkIndex: nat)

  datatype Vector<V> = Vector(id: string, collection: string, content: string, embedding: V, metadata: Metadata)

  datatype Row<V> = Row(collection: string, content: string, embedding: V, metadata: Metadata)

  /** The ID a vector is stored under: a generated one when it has none. */
  function StoredId<V>(v: Vector<V>, newId: string): string {
    if v.id == "" then newId else v.id
  }

  /** INSERT ... ON CONFLICT (id) DO UPDATE: an existing row keeps its collection. */
  function Upsert<V>(rows: map<string, Row<V>>, id: string, v: Vector<V>): map<string, Row<V>> {
    var collection := if id in rows then rows[id].collection else v.collection;
    rows[id := Row(collection, v.content, v.embedding, v.metadata)]
  }

  function Upserts<V>(rows: map<string, Row<V>>, vectors: seq<Vector<V>>, newIds: seq<string>, k: nat)
    : map<string, Row<V>>
    requires k <= |vectors| == |newIds|
  {
    if k == 0 then rows
    else Upsert(Upserts(rows, vectors, newIds, k - 1), StoredId(vectors[k - 1], newIds[k - 1]), vectors[k - 1])
  }

  /** The vector's row holds the vector, in the row's old collection if there was a row. */
  ghost predicate IsStored<V>(rows: map<string, Row<V>>, after: map<string, Row<V>>, id: string, v: Vector<V>) {
    id in after && after[id] == Row(if id in rows then rows[id].collection else v.collection,
                                    v.content, v.embedding, v.metadata)
  }

  ghost predicate SameRow<V>(rows: map<string, Row<V>>, after: map<string, Row<V>>, id: string) {
    (id in after <==> id in rows) && (id in rows ==> after[id] == rows[id])
  }

  lemma {:induction false} UpsertsKeep<V>(rows: map<string, Row<V>>, vectors: seq<Vector<V>>, newIds: seq<string>,
                                          k: nat, id: string)
    requires k <= |vectors| == |newIds|
    requires forall i | 0 <= i < k :: StoredId(vectors[i], newIds[i]) != id
    ensures SameRow(rows, Upserts(rows, vectors, newIds, k), id)
  {
    if k > 0 {
      UpsertsKeep(rows, vectors, newIds, k - 1, id);
    }
  }

  lemma {:induction false} UpsertsStore<V>(rows: map<string, Row<V>>, vectors: seq<Vector<V>>, newIds: seq<string>,
                                           k: nat, i: nat)
    requires i < k <= |vectors| == |newIds|
    requires forall j | 0 <= j < k && j != i :: StoredId(vectors[j], newIds[j]) != StoredId(vectors[i], newIds[i])
    ensures var id := if vectors[i].id == "" then newIds[i] else vectors[i].id;
            IsStored(rows, Upserts(rows, vectors, newIds, k), id, vectors[i])
  {
    if i == k - 1 {
      UpsertsKeep(rows, vectors, newIds, k - 1, StoredId(vectors[i], newIds[i]));
    } else {
      UpsertsStore(rows, vectors, newIds, k - 1, i);
    }
  }

  class PgVector<V> {
    var rows: map<string, Row<V>>

    constructor ()
      ensures rows == map[]
    {
      rows := map[];
    }

    /** All or nothing: statement `failAt` (or the commit, when it is the number of vectors) may fail. */
    method UpsertBatch(vectors: seq<Vector<V>>, newIds: seq<string>, failAt: Option<nat>) returns (ok: bool)
      requires |newIds| == |vectors|
      modifies this
      ensures ok <==> !(failAt.Some? && failAt.value <= |vectors|)
      ensures rows == if ok then Upserts(old(rows), vectors, newIds, |vectors|) else old(rows)
    {
      var tx := rows;
      for i := 0 to |vectors|
        invariant rows == old(rows) && tx == Upserts(rows, vectors, newIds, i)
        invariant !(failAt.Some? && failAt.value < i)
      {
        if failAt == Some(i) {
          return false;
        }
        tx := Upsert(tx, StoredId(vectors[i], newIds[i]), vectors[i]);
      }
      if failAt == Some(|vectors|) {
        return false;
      }
      rows := tx;
      return true;
    }
  }

  // ---------- ingest ----------

  const COLLECTION_DOCUMENTS := "documents"

  class Document {
    var id: string
    const title: string
    const content: string
    const source: string

    constructor (id: string, title: string, content: string, source: string)
      ensures this.id == id && this.title == title && this.content == content && this.source == source
    {
      this.id, this.title, this.content, this.source := id, title, content, source;
    }
  }

  function TextSet(texts: seq<string>): set<string> {
    set t <- texts
  }

  /** A document as it is stored: its chunks. */
  datatype Version = Version(id: string, title: string, source: string, chunks: seq<string>) {

    function VectorAt<V>(i: nat, embeddings: seq<V>): Vector<V>
      requires i < |chunks| == |embeddings|
    {
      Vector(Key(id, i), COLLECTION_DOCUMENTS, chunks[i], embeddings[i], Metadata(id, title, source, i))
    }

    /** The store after this version was stored with these embeddings. */
    ghost predicate IsStoredWith<V>(rows: map<string, Row<V>>, after: map<string, Row<V>>, embeddings: seq<V>) {
      && |embeddings| == |chunks|
      && (forall i: nat | i < |chunks| :: HasRow(rows, after, i, embeddings[i]))
      && (forall key | (forall i: nat | i < |chunks| :: key != Key(id, i)) :: SameRow(rows, after, key))
    }

    ghost predicate HasRow<V>(rows: map<string, Row<V>>, after: map<string, Row<V>>, i: nat, embedding: V)
      requires i < |chunks|
    {
      var key := Key(id, i);
      && key in after
      && after[key].content == chunks[i]
      && after[key].embedding == embedding
      && after[key].metadata == Metadata(id, title, source, i)
      && after[key].collection == if key in rows then rows[key].collection else COLLECTION_DOCUMENTS
    }

    /** The store after this version was ingested: stored with the provider's embeddings. */
    ghost predicate IsIngested<V>(m: Model<V>, rows: map<string, Row<V>>, after: map<string, Row<V>>) {
      IsStoredWith(rows, after, seq(|chunks|, i requires 0 <= i < |chunks| => m.embed(chunks[i])))
    }

    lemma StoringVectors<V>(rows: map<string, Row<V>>, embeddings: seq<V>, vectors: seq<Vector<V>>, newIds: seq<string>)
      requires |chunks| == |embeddings| == |vectors| == |newIds|
      requires forall i | 0 <= i < |chunks| :: vectors[i] == VectorAt(i, embeddings)
      ensures IsStoredWith(rows, Upserts(rows, vectors, newIds, |vectors|), embeddings)
    {
      var n := |vectors|;
      var after := Upserts(rows, vectors, newIds, n);
      forall i: nat | i < n ensures HasRow(rows, after, i, embeddings[i]) {
        KeyIsNoneOf(id, i);
        UpsertsStore(rows, vectors, newIds, n, i);
      }
      forall key | (forall i: nat | i < n :: key != Key(id, i)) ensures SameRow(rows, after, key) {
        UpsertsKeep(rows, vectors, newIds, n, key);
      }
    }

    /** What the embedder answered from a correct cache are the provider's embeddings. */
    lemma CorrectCacheIngests<V>(m: Model<V>, cache: map<string, V>, call: Call,
                                 rows: map<string, Row<V>>, after: map<string, Row<V>>)
      requires call.texts == chunks && m.IsCorrect(cache, TextSet(chunks)) && call.Answers(m, cache).Some?
      requires IsStoredWith(rows, after, call.Answers(m, cache).value)
      ensures IsIngested(m, rows, after)
    {
      call.AnswersAreTheProviders(m, cache, TextSet(chunks));
      assert call.Answers(m, cache).value == seq(|chunks|, i requires 0 <= i < |chunks| => m.embed(chunks[i]));
    }

    /** What `Ingest` stores: the embedder's answers, which are the provider's when the cache was correct. */
    lemma StoringAnswers<V>(m: Model<V>, cache: map<string, V>, call: Call, rows: map<string, Row<V>>,
                            vectors: seq<Vector<V>>, newIds: seq<string>)
      requires call.texts == chunks && call.Answers(m, cache).Some? && |call.Answers(m, cache).value| == |chunks|
      requires |chunks| == |vectors| == |newIds|
      requires forall i | 0 <= i < |chunks| :: vectors[i] == VectorAt(i, call.Answers(m, cache).value)
      ensures var after := Upserts(rows, vectors, newIds, |vectors|);
              && IsStoredWith(rows, after, call.Answers(m, cache).value)
              && (m.IsCorrect(cache, TextSet(chunks)) ==> IsIngested(m, rows, after))
    {
      StoringVectors(rows, call.Answers(m, cache).value, vectors, newIds);
      if m.IsCorrect(cache, TextSet(chunks)) {
        CorrectCacheIngests(m, cache, call, rows, Upserts(rows, vectors, newIds, |vectors|));
      }
    }

    /** Ingesting one document leaves every row of every other document as it was. */
    lemma OtherDocumentsAreUntouched<V>(rows: map<string, Row<V>>, after: map<string, Row<V>>, embeddings: seq<V>,
                                        other: string, j: nat)
      requires IsStoredWith(rows, after, embeddings) && other != id
      ensures SameRow(rows, after, Key(other, j))
    {
      forall i: nat | i < |chunks| ensures Key(other, j) != Key(id, i) {
        if Key(other, j) == Key(id, i) {
          KeyIsInjective(other, j, id, i);
        }
      }
    }

    /** The stored rows hold every visible character of the document, in order. */
    lemma StoredTextIsTheDocuments<V>(rows: map<string, Row<V>>, after: map<string, Row<V>>, embeddings: seq<V>,
                                      content: string, contents: seq<string>)
      requires chunks == Chunks(content)
      requires IsStoredWith(rows, after, embeddings) && |contents| == |chunks|
      requires forall i: nat | i < |chunks| :: Key(id, i) in after && contents[i] == after[Key(id, i)].content
      ensures Visible(Concat(contents)) == Visible(content)
    {
      forall i: nat | i < |chunks| ensures contents[i] == chunks[i] {
        assert HasRow(rows, after, i, embeddings[i]);
      }
      assert contents == chunks;
      NothingVisibleIsLost(content);
    }
  }

  /** No row of a document is left over from an earlier version: they stop at the last chunk. */
  ghost predicate OnlyCurrent<V>(v: Version, rows: map<string, Row<V>>) {
    forall i: nat | i >= |v.chunks| :: Key(v.id, i) !in rows
  }

  /** Ingesting a version removes no row and adds none past its last chunk: what was stale stays. */
  lemma StaleRowsStay<V>(v: Version, rows: map<string, Row<V>>, after: map<string, Row<V>>, embeddings: seq<V>)
    requires v.IsStoredWith(rows, after, embeddings)
    ensures OnlyCurrent(v, after) <==> OnlyCurrent(v, rows)
  {
    forall i: nat ensures Key(v.id, i) in after <==> Key(v.id, i) in rows || i < |v.chunks| {
      RowsAfter(v, rows, after, embeddings, v.id, i);
    }
  }

  /** Which rows of a document there are after one ingest, of it or of another one. */
  lemma RowsAfter<V>(v: Version, rows: map<string, Row<V>>, after: map<string, Row<V>>, embeddings: seq<V>,
                     id: string, i: nat)
    requires v.IsStoredWith(rows, after, embeddings)
    ensures Key(id, i) in after <==> Key(id, i) in rows || (v.id == id && i < |v.chunks|)
  {
    if v.id != id {
      v.OtherDocumentsAreUntouched(rows, after, embeddings, id, i);
    } else if i < |v.chunks| {
      assert v.HasRow(rows, after, i, embeddings[i]);
    } else {
      KeyIsNoneOf(id, i);
      assert SameRow(rows, after, Key(id, i));
    }
  }

  /** A history of successful ingests of any documents: each takes one state of the table to the next. */
  ghost predicate IsHistory<V>(versions: seq<Version>, embeddings: seq<seq<V>>, stores: seq<map<string, Row<V>>>) {
    && |embeddings| == |versions| && |stores| == |versions| + 1
    && forall k | 0 <= k < |versions| :: versions[k].IsStoredWith(stores[k], stores[k + 1], embeddings[k])
  }

  /** After `n` ingests: the rows there were at the start, and one for each chunk that any version had. */
  lemma {:induction false} RowsOfHistory<V>(versions: seq<Version>, embeddings: seq<seq<V>>,
                                            stores: seq<map<string, Row<V>>>, n: nat, id: string, i: nat)
    requires IsHistory(versions, embeddings, stores) && n <= |versions|
    ensures Key(id, i) in stores[n] <==>
              Key(id, i) in stores[0] || exists k :: 0 <= k < n && versions[k].id == id && i < |versions[k].chunks|
  {
    if n > 0 {
      RowsOfHistory(versions, embeddings, stores, n - 1, id, i);
      assert versions[n - 1].IsStoredWith(stores[n - 1], stores[n - 1 + 1], embeddings[n - 1]);
      RowsAfter(versions[n - 1], stores[n - 1], stores[n], embeddings[n - 1], id, i);
    }
  }

  /**
   After any history of ingests, from any table, the document ingested last has no row past its last
   chunk if and only if the table had none at the start and no earlier version of it had more chunks:
   no ingest deletes a row.
   */
  lemma ReingestLeavesNoStaleRowsIff<V>(versions: seq<Version>, embeddings: seq<seq<V>>,
                                        stores: seq<map<string, Row<V>>>)
    requires IsHistory(versions, embeddings, stores) && versions != []
    ensures var n := |versions|;
            var last := versions[n - 1];
            OnlyCurrent(last, stores[n]) <==>
              && OnlyCurrent(last, stores[0])
              && forall k | 0 <= k < n && versions[k].id == last.id :: |versions[k].chunks| <= |last.chunks|
  {
    var n := |versions|;
    var last := versions[n - 1];
    forall i: nat
      ensures Key(last.id, i) in stores[n] <==>
                Key(last.id, i) in stores[0]
                || exists k :: 0 <= k < n && versions[k].id == last.id && i < |versions[k].chunks|
    {
      RowsOfHistory(versions, embeddings, stores, n, last.id, i);
    }
    forall k | 0 <= k < n && versions[k].id == last.id && |versions[k].chunks| > |last.chunks|
      ensures Key(last.id, |last.chunks|) in stores[n]
    {
    }
  }

  lemma KeyIsNoneOf(id: string, i: nat)
    ensures forall k: nat | k != i :: Key(id, i) != Key(id, k)
  {
    forall k: nat | k != i ensures Key(id, i) != Key(id, k) {
      if Key(id, i) == Key(id, k) {
        KeyIsInjective(id, i, id, k);
      }
    }
  }

  class Pipeline<V(0)> {
    const embedder: Service<V>
    const store: PgVector<V>

    constructor (embedder: Service<V>, store: PgVector<V>)
      ensures this.embedder == embedder && this.store == store
    {
      this.embedder, this.store := embedder, store;
    }

    /** The loop of `Ingest` that makes one vector of each chunk. */
    method VectorsOf(doc: Document, chunks: seq<string>, embeddings: seq<V>) returns (vectors: seq<Vector<V>>)
      requires |embeddings| == |chunks|
      ensures |vectors| == |chunks|
      ensures var version := Version(doc.id, doc.title, doc.source, chunks);
              forall i | 0 <= i < |chunks| :: vectors[i] == version.VectorAt(i, embeddings)
    {
      ghost var version := Version(doc.id, doc.title, doc.source, chunks);
      vectors := [];
      for i := 0 to |chunks|
        invariant |vectors| == i
        invariant forall k | 0 <= k < i :: vectors[k] == version.VectorAt(k, embeddings)
      {
        vectors := vectors + [Vector(Key(doc.id, i), COLLECTION_DOCUMENTS, chunks[i], embeddings[i],
                                     Metadata(doc.id, doc.title, doc.source, i))];
      }
    }

    /**
     `newId` is the generated document ID; `lost`, `unwritten` and `down` are the embedder's faults,
     `failAt` the store's.
     */
    method Ingest(doc: Document, newId: string, lost: set<nat>, unwritten: set<nat>, down: bool, failAt: Option<nat>)
      returns (ok: bool)
      requires newId != ""
      modifies doc`id, embedder, embedder.provider, store
      ensures doc.id == if old(doc.id) == "" then newId else old(doc.id)
      ensures var call := Call(Chunks(doc.content), lost, unwritten, down);
              && (ok <==> !call.Fails(embedder.m, old(embedder.cache))
                          && !(failAt.Some? && failAt.value <= |Chunks(doc.content)|))
              && embedder.cache == call.CacheAfter(embedder.m, old(embedder.cache))
      ensures ok ==>
                var answers := Call(Chunks(doc.content), lost, unwritten, down).Answers(embedder.m, old(embedder.cache));
                && answers.Some?
                && Version(doc.id, doc.title, doc.source, Chunks(doc.content))
                     .IsStoredWith(old(store.rows), store.rows, answers.value)
      ensures ok && embedder.m.IsCorrect(old(embedder.cache), TextSet(Chunks(doc.content))) ==>
                Version(doc.id, doc.title, doc.source, Chunks(doc.content))
                  .IsIngested(embedder.m, old(store.rows), store.rows)
      ensures !ok ==> store.rows == old(store.rows)
    {
      if doc.id == "" {
        doc.id := newId;
      }
      var chunks := ChunkText(doc.content);
      var texts := chunks;
      var call := Call(texts, lost, unwritten, down);
      ghost var cache := embedder.cache;
      var embeddings := embedder.Embed(call);
      if embeddings.None? {
        return false;
      }
      call.AnswerEach(embedder.m, cache);
      var vectors := VectorsOf(doc, chunks, embeddings.value);
      var newIds := seq(|vectors|, _ => newId);
      ghost var version := Version(doc.id, doc.title, doc.source, chunks);
      version.StoringAnswers(embedder.m, cache, call, store.rows, vectors, newIds);
      ok := store.UpsertBatch(vectors, newIds, failAt);
    }
  }
}
