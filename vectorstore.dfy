/** The vector store wrapper (`VectorStore`): an optional FAISS index that is
    built lazily by the first `add`, extended by every later `add`, and
    queried by `search`. The embedding model and FAISS itself are not part of
    this model: they appear as function values, and an index is represented
    by the texts and vectors it holds. */
module VectorStores {

  datatype Option<T> = None | Some(value: T)

  /** The outcome of a call that can raise (the embedding model is a remote
      service). */
  datatype Result<T> = Ok(value: T) | Failure

  /** An embedding vector; its entries are never inspected. */
  type Vector = seq<real>

  /** A document returned by a similarity search; only its text is used. */
  datatype Document = Document(pageContent: string)

  /** The embedding model behind `EmbeddingGenerator`: `embed` sends a list of
      texts to `embed_documents`, `embed_query` sends one query. */
  datatype Embedder = Embedder(documents: seq<string> -> Result<seq<Vector>>,
                               query: string -> Result<Vector>)

  /** One request to the embedding model, as recorded in a store's call log. */
  datatype EmbedCall = EmbedDocuments(texts: seq<string>) | EmbedQuery(text: string)

  /** A FAISS index, represented by the texts it holds (in insertion order)
      and the vectors stored with them. */
  datatype Index = Index(texts: seq<string>, vectors: seq<Vector>)

  /** `similarity_search_by_vector(vector, k=…)` on an index. */
  type Nearest = (Index, Vector, nat) -> seq<Document>

  /** The default `top_k` of `search`. */
  const DefaultTopK: nat := 5

  /** The texts held by a store, none while it is uninitialised. */
  function EntriesOf(store: Option<Index>): seq<string> {
    if store.None? then [] else store.value.texts
  }

  /** The vectors held by a store, none while it is uninitialised. */
  function VectorsOf(store: Option<Index>): seq<Vector> {
    if store.None? then [] else store.value.vectors
  }

  /** The index after an `add` of `texts` whose embedding returned `vs`: the
      first call builds it from `texts` alone (`FAISS.from_texts`), a later
      one appends to it (`add_texts`). */
  function Extended(store: Option<Index>, texts: seq<string>, vs: seq<Vector>): (r: Index)
    ensures r.texts == EntriesOf(store) + texts
    ensures r.vectors == VectorsOf(store) + vs
    ensures store.None? ==> r == Index(texts, vs)
  {
    match store
    case None => Index(texts, vs)
    case Some(i) => Index(i.texts + texts, i.vectors + vs)
  }

  /** The requests `add(texts)` sends to the embedding model: `embed(texts)`
      always, then, when that succeeded and the index does not exist yet, the
      embedding that `FAISS.from_texts` computes itself. */
  function AddCalls(store: Option<Index>, e: Embedder, texts: seq<string>): (r: seq<EmbedCall>)
    ensures |r| >= 1 && r[0] == EmbedDocuments(texts)
    ensures forall i :: 0 <= i < |r| ==> r[i] == EmbedDocuments(texts)
    ensures |r| == 2 <==> store.None? && e.documents(texts).Ok?
  {
    [EmbedDocuments(texts)] + (if store.None? && e.documents(texts).Ok? then [EmbedDocuments(texts)] else [])
  }

  /** `[doc.page_content for doc in docs]`. */
  function PageContents(docs: seq<Document>): (r: seq<string>)
    ensures |r| == |docs|
    ensures forall i :: 0 <= i < |docs| ==> r[i] == docs[i].pageContent
  {
    if docs == [] then [] else [docs[0].pageContent] + PageContents(docs[1..])
  }

  /** What `search(query, top_k=k)` returns on a store in state `store`. */
  function SearchAnswer(store: Option<Index>, e: Embedder, nearest: Nearest, query: string, k: nat)
    : (r: Result<seq<string>>)
    ensures store.None? ==> r == Ok([])
    ensures store.Some? ==> (r.Ok? <==> e.query(query).Ok?)
    ensures store.Some? && r.Ok? ==>
              var docs := nearest(store.value, e.query(query).value, k);
              |r.value| == |docs| && forall i :: 0 <= i < |docs| ==> r.value[i] == docs[i].pageContent
  {
    if store.None? then Ok([])
    else match e.query(query)
      case Failure => Failure
      case Ok(v) => Ok(PageContents(nearest(store.value, v, k)))
  }

  /** The embedding model returns one vector per text it is given. */
  ghost predicate OneVectorPerText(e: Embedder) {
    forall ts :: e.documents(ts).Ok? ==> |e.documents(ts).value| == |ts|
  }

  /** The index keeps one vector per text. */
  predicate Aligned(store: Option<Index>) {
    |EntriesOf(store)| == |VectorsOf(store)|
  }

  /** A successful `add` keeps the index aligned when the embedding model
      returns one vector per text. */
  lemma ExtendedAligned(store: Option<Index>, e: Embedder, texts: seq<string>)
    requires OneVectorPerText(e) && Aligned(store) && e.documents(texts).Ok?
    ensures Aligned(Some(Extended(store, texts, e.documents(texts).value)))
  {
  }

  /** The store after a sequence of `add` calls, stopping at the first one
      that fails; the flag says whether all succeeded. */
  function AddAll(store: Option<Index>, e: Embedder, batches: seq<seq<string>>): (Option<Index>, bool)
    decreases |batches|
  {
    if batches == [] then (store, true)
    else match e.documents(batches[0])
      case Failure => (store, false)
      case Ok(vs) => AddAll(Some(Extended(store, batches[0], vs)), e, batches[1..])
  }

  /** Any run of `add` calls keeps one vector per text when the embedding
      model returns one vector per text. */
  lemma {:induction false} AddAllAligned(store: Option<Index>, e: Embedder, batches: seq<seq<string>>)
    requires OneVectorPerText(e) && Aligned(store)
    ensures Aligned(AddAll(store, e, batches).0)
    decreases |batches|
  {
    if batches != [] && e.documents(batches[0]).Ok? {
      ExtendedAligned(store, e, batches[0]);
      AddAllAligned(Some(Extended(store, batches[0], e.documents(batches[0]).value)), e, batches[1..]);
    }
  }

  /** The concatenation of a sequence of batches. */
  function Flatten(batches: seq<seq<string>>): seq<string> {
    if batches == [] then [] else batches[0] + Flatten(batches[1..])
  }

  /** No operation removes anything: whatever sequence of `add` calls runs,
      the earlier entries stay in front, and when every call succeeds the
      store holds exactly the earlier entries followed by every batch in
      call order. */
  lemma {:induction false} AddAllEntries(store: Option<Index>, e: Embedder, batches: seq<seq<string>>)
    ensures EntriesOf(store) <= EntriesOf(AddAll(store, e, batches).0)
    ensures AddAll(store, e, batches).1 ==>
              EntriesOf(AddAll(store, e, batches).0) == EntriesOf(store) + Flatten(batches)
    ensures batches != [] && AddAll(store, e, batches).1 ==> AddAll(store, e, batches).0.Some?
    decreases |batches|
  {
    if batches != [] {
      match e.documents(batches[0])
      case Failure =>
      case Ok(vs) =>
        var next := Some(Extended(store, batches[0], vs));
        assert AddAll(store, e, batches) == AddAll(next, e, batches[1..]);
        AddAllEntries(next, e, batches[1..]);
        PrefixOfAppend(EntriesOf(store), batches[0]);
        AppendAssoc(EntriesOf(store), batches[0], Flatten(batches[1..]));
    }
  }

  lemma PrefixOfAppend<T>(x: seq<T>, y: seq<T>)
    ensures x <= x + y
  {
    assert (x + y)[..|x|] == x;
  }

  lemma AppendAssoc<T>(x: seq<T>, y: seq<T>, z: seq<T>)
    ensures x + (y + z) == (x + y) + z
  {
  }

  /** The `VectorStore` object. `embedder` stands for the embedding model
      the constructor creates and `nearest` for FAISS's similarity search;
      `calls` logs every request sent to the embedding model. */
  class VectorStore {
    const embedder: Embedder
    const nearest: Nearest
    var store: Option<Index>
    ghost var calls: seq<EmbedCall>

    /** The texts the index holds. */
    ghost function Entries(): seq<string>
      reads this
    {
      EntriesOf(store)
    }

    /** `__init__`: no index yet, and nothing has been sent to the model. */
    constructor (e: Embedder, n: Nearest)
      ensures embedder == e && nearest == n
      ensures store == None && Entries() == [] && calls == []
    {
      embedder := e;
      nearest := n;
      store := None;
      calls := [];
    }

    /** `add(texts)`. The texts are embedded before the index is touched, so
        a failing embedding leaves the store as it was. On success the store
        is initialised: the first call builds the index from exactly `texts`,
        a later one appends `texts` with their embeddings. */
    method Add(texts: seq<string>) returns (ok: bool)
      modifies this
      ensures ok <==> embedder.documents(texts).Ok?
      ensures calls == old(calls) + AddCalls(old(store), embedder, texts)
      ensures !ok ==> store == old(store)
      ensures ok ==> store == Some(Extended(old(store), texts, embedder.documents(texts).value))
      ensures ok && old(store).None? ==> Entries() == texts
      ensures ok ==> Entries() == old(Entries()) + texts
      ensures OneVectorPerText(embedder) && Aligned(old(store)) ==> Aligned(store)
    {
      var embeddings := embedder.documents(texts);
      calls := calls + [EmbedDocuments(texts)];
      if embeddings.Failure? {
        ok := false;
        return;
      }
      if store.None? {
        // `FAISS.from_texts` embeds the texts again through the model.
        var own := embedder.documents(texts);
        calls := calls + [EmbedDocuments(texts)];
        store := Some(Index(texts, own.value));
      } else {
        store := Some(Index(store.value.texts + texts, store.value.vectors + embeddings.value));
      }
      ok := true;
    }

    /** `search(query, top_k)`. An uninitialised store answers `[]` without
        calling the model; otherwise the query is embedded, the `k` nearest
        documents are fetched and their texts returned in the index's order. */
    method Search(query: string, topK: nat := DefaultTopK) returns (r: Result<seq<string>>)
      modifies this`calls
      ensures r == SearchAnswer(store, embedder, nearest, query, topK)
      ensures store.None? ==> r == Ok([]) && calls == old(calls)
      ensures store.Some? ==> calls == old(calls) + [EmbedQuery(query)]
    {
      if store.None? {
        return Ok([]);
      }
      var queryEmbedding := embedder.query(query);
      calls := calls + [EmbedQuery(query)];
      if queryEmbedding.Failure? {
        return Failure;
      }
      var docs := nearest(store.value, queryEmbedding.value, topK);
      r := Ok(PageContents(docs));
    }
  }
}
