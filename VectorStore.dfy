/**
 * `MilvusVectorStore`: a single cached collection handle over a Milvus
 * server, chunk insertion as four parallel columns, and the flattening of
 * grouped search hits.
 *
 * The server is seen through its catalog (`utility.has_collection`,
 * `Collection(name, schema)`, `create_index`, `insert`, `load`); the ranking
 * performed by `collection.search` is an uninterpreted function of the
 * collection and the request. `uuid.uuid4()` is an uninterpreted function
 * from the number of draws made so far to a 128-bit value.
 */
module VectorStore {
  import opened Common

  // ---------------------------------------------------------------------
  // Identifiers: str(uuid.uuid4())
  // ---------------------------------------------------------------------

  function Pow16(k: nat): nat {
    if k == 0 then 1 else 16 * Pow16(k - 1)
  }

  lemma {:induction false} Pow16Add(a: nat, b: nat)
    ensures Pow16(a + b) == Pow16(a) * Pow16(b)
  {
    if a > 0 { Pow16Add(a - 1, b); }
  }

  /** 32 hexadecimal digits cover exactly the 128-bit values. */
  lemma Pow16Is2To128()
    ensures Pow16(32) == 0x1_0000_0000_0000_0000_0000_0000_0000_0000
  {
    assert Pow16(4) == 0x1_0000;
    Pow16Add(4, 4);
    Pow16Add(8, 8);
    Pow16Add(16, 16);
  }

  /** The value of a UUID: 128 bits. */
  type U128 = n: nat | n < 0x1_0000_0000_0000_0000_0000_0000_0000_0000

  function HexDigit(d: nat): (c: char)
    requires d < 16
    ensures HexValue(c) == d
  {
    if d < 10 then (48 + d) as char else (87 + d) as char
  }

  /** The digit that a lower-case hexadecimal character stands for (0 for any other character). */
  function HexValue(c: char): nat {
    if '0' <= c <= '9' then c as int - 48
    else if 'a' <= c <= 'f' then c as int - 87
    else 0
  }

  /** `n` as exactly `k` lower-case hexadecimal digits, most significant first. */
  function HexString(n: nat, k: nat): (s: string)
    ensures |s| == k
  {
    if k == 0 then "" else HexString(n / 16, k - 1) + [HexDigit(n % 16)]
  }

  /** Reads hexadecimal digits back into a number. */
  function ParseHex(s: string): nat {
    if s == [] then 0 else 16 * ParseHex(s[..|s| - 1]) + HexValue(s[|s| - 1])
  }

  /** Printing a number that fits in `k` digits and reading it back gives the number. */
  lemma {:induction false} ParseHexString(n: nat, k: nat)
    requires n < Pow16(k)
    ensures ParseHex(HexString(n, k)) == n
  {
    if k > 0 {
      var s := HexString(n, k);
      assert s[..|s| - 1] == HexString(n / 16, k - 1);
      assert n / 16 < Pow16(k - 1);
      ParseHexString(n / 16, k - 1);
    }
  }

  /** `str(uuid)`: the 32 digits grouped 8-4-4-4-12 by hyphens. */
  function UuidString(u: U128): (s: string)
    ensures |s| == 36
    ensures s[8] == '-' && s[13] == '-' && s[18] == '-' && s[23] == '-'
  {
    var h := HexString(u, 32);
    h[..8] + "-" + h[8..12] + "-" + h[12..16] + "-" + h[16..20] + "-" + h[20..]
  }

  /** The digits of a 36-character UUID string, hyphens removed. */
  function Undash(s: string): string
    requires |s| == 36
  {
    s[..8] + s[9..13] + s[14..18] + s[19..23] + s[24..]
  }

  /** Parsing the string form of a UUID gives back its value. */
  lemma UuidStringRoundTrip(u: U128)
    ensures ParseHex(Undash(UuidString(u))) == u
  {
    var h := HexString(u, 32);
    var s := UuidString(u);
    assert s[..8] == h[..8] && s[9..13] == h[8..12] && s[14..18] == h[12..16];
    assert s[19..23] == h[16..20] && s[24..] == h[20..];
    assert h == h[..8] + h[8..12] + h[12..16] + h[16..20] + h[20..];
    Pow16Is2To128();
    ParseHexString(u, 32);
  }

  /** Two UUIDs have the same string form exactly when they are equal. */
  lemma UuidStringInjective(a: U128, b: U128)
    ensures UuidString(a) == UuidString(b) <==> a == b
  {
    UuidStringRoundTrip(a);
    UuidStringRoundTrip(b);
  }

  // ---------------------------------------------------------------------
  // Collections as the server holds them
  // ---------------------------------------------------------------------

  datatype DataType = VarChar | FloatVector

  datatype FieldSchema = FieldSchema(name: string, dtype: DataType, isPrimary: bool,
                                     maxLength: Option<nat>, dim: Option<nat>)

  datatype Metric = Cosine
  datatype IndexKind = Hnsw
  datatype IndexParams = IndexParams(metric: Metric, kind: IndexKind, m: nat, efConstruction: nat)
  datatype Index = Index(fieldName: string, params: IndexParams)

  /** One stored entity. */
  datatype Row = Row(id: string, text: string, source: string, embedding: Embedding)

  datatype CollectionState = CollectionState(schema: seq<FieldSchema>, indexes: seq<Index>,
                                             rows: seq<Row>, loaded: bool)

  /** The argument of `collection.insert`: `[ids, texts, sources, embeddings]`. */
  datatype Columns = Columns(ids: seq<string>, texts: seq<string>, sources: seq<string>,
                             embeddings: seq<Embedding>)

  /** One hit of `collection.search`, with the requested output fields. */
  datatype Hit = Hit(text: string, source: string, score: real)

  datatype SearchRequest = SearchRequest(data: seq<Embedding>, annsField: string, metric: Metric,
                                         ef: nat, limit: nat, outputFields: seq<string>)

  /** The four fields every collection this code creates has. */
  function CollectionSchema(dim: nat): seq<FieldSchema> {
    [ FieldSchema("id", VarChar, true, Some(36), None),
      FieldSchema("text", VarChar, false, Some(65535), None),
      FieldSchema("source", VarChar, false, Some(255), None),
      FieldSchema("embedding", FloatVector, false, None, Some(dim)) ]
  }

  /** The index built on a freshly created collection. */
  const EmbeddingIndex := Index("embedding", IndexParams(Cosine, Hnsw, 8, 64))

  /** The request `search_similar_chunks` sends for one query vector. */
  function SearchParams(query: Embedding, topK: nat): SearchRequest {
    SearchRequest([query], "embedding", Cosine, 32, topK, ["text", "source"])
  }

  /** What the server does with `insert(columns)`: one row per position. */
  function ColumnsToRows(c: Columns): (rows: seq<Row>)
    requires |c.texts| == |c.ids| && |c.sources| == |c.ids| && |c.embeddings| == |c.ids|
    ensures |rows| == |c.ids|
  {
    seq(|c.ids|, i requires 0 <= i < |c.ids| => Row(c.ids[i], c.texts[i], c.sources[i], c.embeddings[i]))
  }

  /** The server's view of a store: the cached handle, the catalog and the uuid draws made. */
  datatype StoreState = StoreState(collection: Option<string>, catalog: map<string, CollectionState>,
                                   drawn: nat)
  {
    /** A cached handle always names a collection the server has. */
    predicate Valid() {
      collection.Some? ==> collection.value in catalog
    }

    /** The collection the handle is bound to. */
    function Bound(): CollectionState
      requires Valid() && collection.Some?
    {
      catalog[collection.value]
    }
  }

  // ---------------------------------------------------------------------
  // Record shaping
  // ---------------------------------------------------------------------

  /** The four parallel columns built from the chunks and the ids drawn for them. */
  function ToColumns(ids: seq<string>, chunks: seq<Chunk>): (c: Columns)
    requires |ids| == |chunks| && AllEmbedded(chunks)
    ensures c.ids == ids
    ensures |c.texts| == |chunks| && |c.sources| == |chunks| && |c.embeddings| == |chunks|
    ensures forall i :: 0 <= i < |chunks| ==>
      c.texts[i] == chunks[i].text && c.sources[i] == chunks[i].metadata.source
      && Some(c.embeddings[i]) == chunks[i].embedding
  {
    Columns(ids,
            seq(|chunks|, i requires 0 <= i < |chunks| => chunks[i].text),
            seq(|chunks|, i requires 0 <= i < |chunks| => chunks[i].metadata.source),
            seq(|chunks|, i requires 0 <= i < |chunks| => chunks[i].embedding.value))
  }

  /** Transposing the columns back gives one row per chunk, in chunk order. */
  lemma InsertedRows(ids: seq<string>, chunks: seq<Chunk>, i: nat)
    requires |ids| == |chunks| && AllEmbedded(chunks) && i < |chunks|
    ensures |ColumnsToRows(ToColumns(ids, chunks))| == |chunks|
    ensures ColumnsToRows(ToColumns(ids, chunks))[i]
         == Row(ids[i], chunks[i].text, chunks[i].metadata.source, chunks[i].embedding.value)
  {
  }

  /** A hit as `{text, source, score}`. */
  function ToRecord(h: Hit): SearchResult {
    SearchResult(h.text, h.source, h.score)
  }

  function HitRecords(hits: seq<Hit>): (r: seq<SearchResult>)
    ensures |r| == |hits|
  {
    seq(|hits|, i requires 0 <= i < |hits| => ToRecord(hits[i]))
  }

  /** All hits of all groups, group after group, in hit order within a group. */
  function FlattenHits(groups: seq<seq<Hit>>): seq<SearchResult>
    decreases |groups|
  {
    if groups == [] then [] else FlattenHits(groups[..|groups| - 1]) + HitRecords(groups[|groups| - 1])
  }

  /** The number of hits over all groups. */
  function TotalHits(groups: seq<seq<Hit>>): nat
    decreases |groups|
  {
    if groups == [] then 0 else TotalHits(groups[..|groups| - 1]) + |groups[|groups| - 1]|
  }

  /** Hit `h` of group `g` becomes record number `TotalHits(groups[..g]) + h`, unchanged. */
  lemma {:induction false} FlattenHitsAt(groups: seq<seq<Hit>>, g: nat, h: nat)
    requires g < |groups| && h < |groups[g]|
    ensures |FlattenHits(groups)| == TotalHits(groups)
    ensures TotalHits(groups[..g]) + h < TotalHits(groups)
    ensures FlattenHits(groups)[TotalHits(groups[..g]) + h] == ToRecord(groups[g][h])
    decreases |groups|
  {
    var n := |groups|;
    var init := groups[..n - 1];
    if g == n - 1 {
      assert groups[..g] == init;
      FlattenHitsLength(init);
    } else {
      FlattenHitsAt(init, g, h);
      assert init[..g] == groups[..g];
    }
  }

  lemma {:induction false} FlattenHitsLength(groups: seq<seq<Hit>>)
    ensures |FlattenHits(groups)| == TotalHits(groups)
    decreases |groups|
  {
    if groups != [] { FlattenHitsLength(groups[..|groups| - 1]); }
  }

  /** Every record comes from some hit of some group: there is one record per hit and no other. */
  lemma {:induction false} FlattenHitsFrom(groups: seq<seq<Hit>>, k: nat)
    requires k < |FlattenHits(groups)|
    ensures exists g, h :: 0 <= g < |groups| && 0 <= h < |groups[g]|
                        && k == TotalHits(groups[..g]) + h
                        && FlattenHits(groups)[k] == ToRecord(groups[g][h])
    decreases |groups|
  {
    var n := |groups|;
    var init := groups[..n - 1];
    FlattenHitsLength(init);
    if k < |FlattenHits(init)| {
      FlattenHitsFrom(init, k);
      var g, h :| 0 <= g < |init| && 0 <= h < |init[g]| && k == TotalHits(init[..g]) + h
                  && FlattenHits(init)[k] == ToRecord(init[g][h]);
      assert init[..g] == groups[..g];
    } else {
      var h := k - TotalHits(init);
      assert groups[..n - 1] == init;
      assert FlattenHits(groups)[k] == ToRecord(groups[n - 1][h]);
    }
  }

  // ---------------------------------------------------------------------
  // The store
  // ---------------------------------------------------------------------

  class MilvusVectorStore {
    /** `self.dim`, the width of the OpenAI embedding vectors. */
    const dim: nat := 1536
    /** The value of the `n`-th `uuid.uuid4()` call. */
    const uuid4: nat -> U128
    /** The hits `collection.search` returns, one group per query vector. */
    const annSearch: (CollectionState, SearchRequest) -> seq<seq<Hit>>

    /** `self.collection`: the cached handle, named by its collection. */
    var collection: Option<string>
    /** The collections the Milvus server holds. */
    var catalog: map<string, CollectionState>
    /** How many uuids were drawn so far. */
    var drawn: nat

    function State(): StoreState
      reads this
    {
      StoreState(collection, catalog, drawn)
    }

    predicate Valid()
      reads this
    {
      State().Valid()
    }

    /** Connects to a server that already holds `serverCatalog`; no handle is cached yet. */
    constructor (uuid4: nat -> U128, annSearch: (CollectionState, SearchRequest) -> seq<seq<Hit>>,
                 serverCatalog: map<string, CollectionState>)
      ensures this.uuid4 == uuid4 && this.annSearch == annSearch && dim == 1536
      ensures State() == StoreState(None, serverCatalog, 0) && Valid()
    {
      this.uuid4 := uuid4;
      this.annSearch := annSearch;
      collection := None;
      catalog := serverCatalog;
      drawn := 0;
    }

    /** A new collection with the four-field schema and the COSINE/HNSW index. */
    function NewCollection(): CollectionState {
      CollectionState(CollectionSchema(dim), [EmbeddingIndex], [], false)
    }

    /** The state `_create_collection_if_not_exists(sessionId)` leaves behind. */
    function EnsureCollection(st: StoreState, sessionId: string): (r: StoreState)
      requires st.Valid()
      ensures r.Valid() && r.collection.Some? && r.drawn == st.drawn
    {
      if st.collection.Some? then st
      else if sessionId in st.catalog then st.(collection := Some(sessionId))
      else st.(collection := Some(sessionId), catalog := st.catalog[sessionId := NewCollection()])
    }

    /** The ids drawn for `n` chunks when `from` uuids were drawn before. */
    function NewIds(from: nat, n: nat): (ids: seq<string>)
      ensures |ids| == n
      ensures forall i :: 0 <= i < n ==> |ids[i]| == 36 && ids[i] == UuidString(uuid4(from + i))
    {
      var ids := seq(n, i requires 0 <= i < n => UuidString(uuid4(from + i)));
      assert forall i :: 0 <= i < n ==> ids[i] == UuidString(uuid4(from + i));
      ids
    }

    /** The count and the state `insert_chunks(chunks, sessionId)` ends with. */
    function InsertOutcome(st: StoreState, chunks: seq<Chunk>, sessionId: string): (r: (Result<nat>, StoreState))
      requires st.Valid()
      ensures r.1.Valid()
    {
      var bound := EnsureCollection(st, sessionId);
      var ids := NewIds(bound.drawn, |chunks|);
      var drawnAfter := bound.(drawn := bound.drawn + |chunks|);
      if !AllEmbedded(chunks) then (Err(KeyError("embedding")), drawnAfter)
      else
        var name := bound.collection.value;
        var c := bound.catalog[name];
        var c' := c.(rows := c.rows + ColumnsToRows(ToColumns(ids, chunks)), loaded := true);
        (Ok(|chunks|), drawnAfter.(catalog := bound.catalog[name := c']))
    }

    /** The records and the state `search_similar_chunks(query, topK, sessionId)` ends with. */
    function SearchOutcome(st: StoreState, query: Embedding, topK: nat, sessionId: string)
      : (r: (seq<SearchResult>, StoreState))
      requires st.Valid()
      ensures r.1.Valid()
    {
      var bound := EnsureCollection(st, sessionId);
      var name := bound.collection.value;
      var loaded := bound.(catalog := bound.catalog[name := bound.catalog[name].(loaded := true)]);
      (FlattenHits(annSearch(loaded.catalog[name], SearchParams(query, topK))), loaded)
    }

    method CreateCollectionIfNotExists(sessionId: string)
      requires Valid()
      modifies this
      ensures Valid()
      ensures State() == EnsureCollection(old(State()), sessionId)
    {
      if collection.None? {
        if sessionId in catalog {
          collection := Some(sessionId);
        } else {
          catalog := catalog[sessionId := CollectionState(CollectionSchema(dim), [], [], false)];
          collection := Some(sessionId);
          var c := catalog[sessionId];
          catalog := catalog[sessionId := c.(indexes := c.indexes + [EmbeddingIndex])];
          assert [] + [EmbeddingIndex] == [EmbeddingIndex];
        }
      }
    }

    method InsertChunks(chunks: seq<Chunk>, sessionId: string) returns (r: Result<nat>)
      requires Valid()
      modifies this
      ensures Valid()
      ensures (r, State()) == InsertOutcome(old(State()), chunks, sessionId)
    {
      ghost var expected := InsertOutcome(old(State()), chunks, sessionId);
      CreateCollectionIfNotExists(sessionId);
      var ids := NewIds(drawn, |chunks|);
      drawn := drawn + |chunks|;
      if !AllEmbedded(chunks) {
        assert State() == expected.1;
        return Err(KeyError("embedding"));
      }
      var entities := ToColumns(ids, chunks);
      var name := collection.value;
      var c := catalog[name];
      catalog := catalog[name := c.(rows := c.rows + ColumnsToRows(entities))];
      catalog := catalog[name := catalog[name].(loaded := true)];
      assert catalog[name] == c.(rows := c.rows + ColumnsToRows(entities), loaded := true);
      assert State() == expected.1;
      r := Ok(|chunks|);
    }

    method SearchSimilarChunks(query: Embedding, topK: nat, sessionId: string)
      returns (chunks: seq<SearchResult>)
      requires Valid()
      modifies this
      ensures Valid()
      ensures (chunks, State()) == SearchOutcome(old(State()), query, topK, sessionId)
    {
      CreateCollectionIfNotExists(sessionId);
      var name := collection.value;
      catalog := catalog[name := catalog[name].(loaded := true)];
      var results := annSearch(catalog[name], SearchParams(query, topK));
      chunks := [];
      var g := 0;
      while g < |results|
        invariant 0 <= g <= |results|
        invariant chunks == FlattenHits(results[..g])
      {
        var hits := results[g];
        var h := 0;
        while h < |hits|
          invariant 0 <= h <= |hits|
          invariant chunks == FlattenHits(results[..g]) + HitRecords(hits[..h])
        {
          chunks := chunks + [ToRecord(hits[h])];
          h := h + 1;
          assert HitRecords(hits[..h]) == HitRecords(hits[..h - 1]) + [ToRecord(hits[h - 1])];
        }
        assert results[..g + 1][..g] == results[..g];
        assert hits[..h] == hits;
        g := g + 1;
      }
      assert results[..g] == results;
    }
  }

  // ---------------------------------------------------------------------
  // Properties of the cached handle, the insert and the ids
  // ---------------------------------------------------------------------

  /**
   * A cached handle is never replaced and nothing else happens; otherwise
   * the handle is bound to the session's collection, which is created with
   * the schema and exactly one index when the server lacks it. No other
   * collection is added or changed.
   */
  lemma EnsureCollectionSpec(s: MilvusVectorStore, st: StoreState, sessionId: string)
    requires st.Valid()
    ensures var r := s.EnsureCollection(st, sessionId);
      && (st.collection.Some? ==> r == st)
      && (st.collection.None? ==> r.collection == Some(sessionId))
      && r.catalog.Keys == st.catalog.Keys + (if st.collection.None? then {sessionId} else {})
      && (forall n :: n in st.catalog ==> r.catalog[n] == st.catalog[n])
      && (st.collection.None? && sessionId !in st.catalog ==>
            r.catalog[sessionId] == CollectionState(CollectionSchema(1536), [EmbeddingIndex], [], false))
  {
  }

  /** Calling `_create_collection_if_not_exists` again, with any session, changes nothing. */
  lemma EnsureCollectionIdempotent(s: MilvusVectorStore, st: StoreState, a: string, b: string)
    requires st.Valid()
    ensures s.EnsureCollection(s.EnsureCollection(st, a), b) == s.EnsureCollection(st, a)
  {
  }

  /**
   * Once bound to collection `a`, an insert under another session `b` lands in `a`:
   * `b`'s collection is neither created nor written.
   */
  lemma InsertIgnoresLaterSession(s: MilvusVectorStore, st: StoreState, chunks: seq<Chunk>, a: string, b: string)
    requires st.Valid() && st.collection == Some(a) && a != b && AllEmbedded(chunks)
    ensures var (r, st') := s.InsertOutcome(st, chunks, b);
      && r == Ok(|chunks|)
      && st'.collection == Some(a)
      && st'.catalog[a].rows == st.catalog[a].rows + ColumnsToRows(ToColumns(s.NewIds(st.drawn, |chunks|), chunks))
      && (b in st'.catalog <==> b in st.catalog)
      && (b in st.catalog ==> st'.catalog[b] == st.catalog[b])
  {
  }

  /**
   * `insert_chunks` returns `len(chunks)` exactly when every chunk has an
   * embedding; otherwise it raises `KeyError` after binding the handle and
   * drawing the ids, and writes nothing.
   */
  lemma InsertCount(s: MilvusVectorStore, st: StoreState, chunks: seq<Chunk>, sessionId: string)
    requires st.Valid()
    ensures var (r, st') := s.InsertOutcome(st, chunks, sessionId);
      var bound := s.EnsureCollection(st, sessionId);
      && (r.Ok? <==> AllEmbedded(chunks))
      && (r.Ok? ==> r.value == |chunks|)
      && (r.Err? ==> r.error == KeyError("embedding") && st'.catalog == bound.catalog)
      && st'.collection == bound.collection
      && st'.drawn == st.drawn + |chunks|
  {
  }

  /** The insert writes to the collection bound before it and to no other. */
  lemma InsertTouchesOnlyBound(s: MilvusVectorStore, st: StoreState, chunks: seq<Chunk>, sessionId: string)
    requires st.Valid()
    ensures var (r, st') := s.InsertOutcome(st, chunks, sessionId);
      var bound := s.EnsureCollection(st, sessionId);
      && st'.catalog.Keys == bound.catalog.Keys
      && forall n :: n in bound.catalog && Some(n) != bound.collection ==> st'.catalog[n] == bound.catalog[n]
  {
  }

  /** A successful insert appends one row per chunk, in chunk order, after the rows already there. */
  lemma InsertAppendsOneRowPerChunk(s: MilvusVectorStore, st: StoreState, chunks: seq<Chunk>, sessionId: string, i: nat)
    requires st.Valid() && AllEmbedded(chunks) && i < |chunks|
    ensures var (r, st') := s.InsertOutcome(st, chunks, sessionId);
      var bound := s.EnsureCollection(st, sessionId).Bound();
      var after := st'.catalog[st'.collection.value];
      && |after.rows| == |bound.rows| + |chunks|
      && after.rows[..|bound.rows|] == bound.rows
      && after.rows[|bound.rows| + i]
         == Row(s.NewIds(st.drawn, |chunks|)[i], chunks[i].text, chunks[i].metadata.source, chunks[i].embedding.value)
  {
    var ids := s.NewIds(st.drawn, |chunks|);
    var bound := s.EnsureCollection(st, sessionId).Bound();
    var added := ColumnsToRows(ToColumns(ids, chunks));
    InsertedRows(ids, chunks, i);
    assert (bound.rows + added)[|bound.rows| + i] == added[i];
    assert (bound.rows + added)[..|bound.rows|] == bound.rows;
  }

  /** The draws `[from, from + n)` of `uuid4` are pairwise different. */
  ghost predicate DistinctDraws(s: MilvusVectorStore, from: nat, n: nat) {
    forall i, j :: from <= i < j < from + n ==> s.uuid4(i) != s.uuid4(j)
  }

  /** The ids of one insert are pairwise distinct exactly when the uuid draws behind them are. */
  lemma NewIdsDistinct(s: MilvusVectorStore, from: nat, n: nat)
    ensures (forall i, j :: 0 <= i < j < n ==> s.NewIds(from, n)[i] != s.NewIds(from, n)[j])
            <==> DistinctDraws(s, from, n)
  {
    var ids := s.NewIds(from, n);
    forall i, j | 0 <= i < j < n
      ensures ids[i] == ids[j] <==> s.uuid4(from + i) == s.uuid4(from + j)
    {
      UuidStringInjective(s.uuid4(from + i), s.uuid4(from + j));
    }
    if DistinctDraws(s, from, n) {
      forall i, j | 0 <= i < j < n ensures ids[i] != ids[j] {
        assert s.uuid4(from + i) != s.uuid4(from + j);
      }
    } else {
      var i, j :| from <= i < j < from + n && s.uuid4(i) == s.uuid4(j);
      assert ids[i - from] == ids[j - from];
    }
  }

  /** When no uuid value repeats, an insert's ids differ from every id drawn before it. */
  lemma NewIdsFresh(s: MilvusVectorStore, from: nat, n: nat, earlier: nat, i: nat)
    requires DistinctDraws(s, 0, from + n)
    requires earlier < from && i < n
    ensures s.NewIds(from, n)[i] != UuidString(s.uuid4(earlier))
  {
    UuidStringInjective(s.uuid4(from + i), s.uuid4(earlier));
  }
}
