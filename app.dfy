/** The logic of the Streamlit application that is not user interface: the
    assembly of the retrieval-augmented prompt in `generate_rag_answer`, and
    the ingestion step that cleans and chunks the loaded documents and adds
    the chunks to the session's vector store. */
module App {
  import opened Cleaner
  import opened VectorStores

  // ---------------------------------------------------------------------
  // Context and prompt assembly (`generate_rag_answer`)
  // ---------------------------------------------------------------------

  /** The number of chunks `generate_rag_answer` retrieves. */
  const RagTopK: nat := 3

  /** The separator placed between retrieved chunks. */
  const ChunkSeparator: string := "\n\n"

  /** The context used when the search finds nothing. */
  const NoContext: string := "No relevant context found."

  /** The fixed text of the prompt before the context, between the context
      and the question, and after the question. */
  const PromptHead: string := "\n    You are an AI Research Assistant.\n    Use ONLY the context below to answer the question.\n\n    CONTEXT:\n    "
  const PromptMiddle: string := "\n\n    QUESTION:\n    "
  const PromptTail: string := "\n\n    Answer clearly, concisely, and factually.\n    "

  /** Python's `sep.join(parts)`: nothing for no parts, and otherwise as
      long as every part followed by one separator, except the last part,
      which ends the string. */
  function Join(parts: seq<string>, sep: string): (r: string)
    ensures parts == [] ==> r == []
    ensures parts != [] ==> |r| == JoinOffset(parts, sep, |parts| - 1) + |parts[|parts| - 1]|
    decreases |parts|
  {
    if parts == [] then []
    else if |parts| == 1 then parts[0]
    else parts[0] + sep + Join(parts[1..], sep)
  }

  /** Where `parts[i]` begins in `Join(parts, sep)`: every earlier part, each
      followed by one separator. */
  function JoinOffset(parts: seq<string>, sep: string, i: nat): nat
    requires i <= |parts|
    decreases i
  {
    if i == 0 then 0 else |parts[0]| + |sep| + JoinOffset(parts[1..], sep, i - 1)
  }

  /** A slice that lies inside the right operand of a concatenation. */
  lemma SliceRight(x: string, y: string, lo: nat, hi: nat)
    requires |x| <= lo <= hi <= |x| + |y|
    ensures (x + y)[lo..hi] == y[lo - |x|..hi - |x|]
  {
    assert forall k :: lo <= k < hi ==> (x + y)[k] == y[k - |x|];
  }

  /** The first part starts the join, followed by the separator when more
      parts come. */
  lemma JoinFirst(parts: seq<string>, sep: string)
    requires parts != []
    ensures |parts[0]| <= |Join(parts, sep)|
    ensures Join(parts, sep)[..|parts[0]|] == parts[0]
    ensures |parts| > 1 ==>
              |parts[0]| + |sep| <= |Join(parts, sep)|
              && Join(parts, sep)[|parts[0]|..|parts[0]| + |sep|] == sep
  {
    if |parts| > 1 {
      var j := Join(parts, sep);
      assert j == parts[0] + sep + Join(parts[1..], sep);
      assert j[..|parts[0]|] == parts[0];
      assert j[|parts[0]|..|parts[0]| + |sep|] == sep;
    }
  }

  /** The joined string holds the parts in order: part `i` sits at
      `JoinOffset(parts, sep, i)`. */
  lemma {:induction false} JoinAt(parts: seq<string>, sep: string, i: nat)
    requires i < |parts|
    ensures JoinOffset(parts, sep, i) + |parts[i]| <= |Join(parts, sep)|
    ensures Join(parts, sep)[JoinOffset(parts, sep, i)..JoinOffset(parts, sep, i) + |parts[i]|] == parts[i]
    decreases i
  {
    if i == 0 {
      JoinFirst(parts, sep);
    } else {
      var head := parts[0] + sep;
      var rest := Join(parts[1..], sep);
      assert Join(parts, sep) == head + rest;
      JoinAt(parts[1..], sep, i - 1);
      var k := JoinOffset(parts[1..], sep, i - 1);
      assert parts[1..][i - 1] == parts[i];
      SliceRight(head, rest, |head| + k, |head| + k + |parts[i]|);
    }
  }

  /** Between part `i` and part `i + 1` the joined string holds exactly the
      separator. */
  lemma {:induction false} JoinSeparatorAt(parts: seq<string>, sep: string, i: nat)
    requires i + 1 < |parts|
    ensures JoinOffset(parts, sep, i) + |parts[i]| + |sep| <= |Join(parts, sep)|
    ensures Join(parts, sep)[JoinOffset(parts, sep, i) + |parts[i]|..JoinOffset(parts, sep, i) + |parts[i]| + |sep|] == sep
    decreases i
  {
    if i == 0 {
      JoinFirst(parts, sep);
    } else {
      var head := parts[0] + sep;
      var rest := Join(parts[1..], sep);
      assert Join(parts, sep) == head + rest;
      JoinSeparatorAt(parts[1..], sep, i - 1);
      var k := JoinOffset(parts[1..], sep, i - 1);
      assert parts[1..][i - 1] == parts[i];
      SliceRight(head, rest, |head| + k + |parts[i]|, |head| + k + |parts[i]| + |sep|);
    }
  }

  /** Later parts start after earlier ones end. */
  lemma {:induction false} JoinOffsetOrder(parts: seq<string>, sep: string, i: nat, j: nat)
    requires i < j <= |parts|
    ensures JoinOffset(parts, sep, i) + |parts[i]| + |sep| <= JoinOffset(parts, sep, j)
    decreases i
  {
    if i > 0 {
      JoinOffsetOrder(parts[1..], sep, i - 1, j - 1);
    } else {
      assert JoinOffset(parts, sep, j) == |parts[0]| + |sep| + JoinOffset(parts[1..], sep, j - 1);
    }
  }

  /** Joining one more part appends the separator and that part. */
  lemma {:induction false} JoinAppend(parts: seq<string>, sep: string, p: string)
    requires parts != []
    ensures Join(parts + [p], sep) == Join(parts, sep) + sep + p
    decreases |parts|
  {
    if |parts| > 1 {
      assert (parts + [p])[1..] == parts[1..] + [p];
      JoinAppend(parts[1..], sep, p);
    } else {
      assert (parts + [p])[1..] == [p];
    }
  }

  /** The context handed to the model:
      `"\n\n".join(results) if results else "No relevant context found."`. */
  function Context(results: seq<string>): (r: string)
    ensures results == [] ==> r == NoContext
    ensures |results| == 1 ==> r == results[0]
    ensures |results| > 1 ==>
              r == results[0] + ChunkSeparator + Context(results[1..])
  {
    if results == [] then NoContext else Join(results, ChunkSeparator)
  }

  /** A non-empty context holds every result, in order, at its place in the
      join. */
  lemma ContextHoldsResults(results: seq<string>, i: nat)
    requires i < |results|
    ensures JoinOffset(results, ChunkSeparator, i) + |results[i]| <= |Context(results)|
    ensures Context(results)[JoinOffset(results, ChunkSeparator, i)..JoinOffset(results, ChunkSeparator, i) + |results[i]|]
         == results[i]
  {
    JoinAt(results, ChunkSeparator, i);
  }

  /** The prompt f-string with `context` and `query` interpolated. */
  function Prompt(context: string, query: string): (r: string)
    ensures |r| == |PromptHead| + |context| + |PromptMiddle| + |query| + |PromptTail|
    ensures r[..|PromptHead|] == PromptHead
    ensures r[|PromptHead|..|PromptHead| + |context|] == context
    ensures r[|PromptHead| + |context|..|PromptHead| + |context| + |PromptMiddle|] == PromptMiddle
    ensures r[|PromptHead| + |context| + |PromptMiddle|..|r| - |PromptTail|] == query
    ensures r[|r| - |PromptTail|..] == PromptTail
  {
    PromptHead + context + PromptMiddle + query + PromptTail
  }

  /** The prompt `generate_rag_answer` builds from what the search returned;
      a failing search raises before any prompt exists. */
  function RagPrompt(results: Result<seq<string>>, query: string): (r: Result<string>)
    ensures r.Ok? <==> results.Ok?
    ensures r.Ok? ==> r.value == Prompt(Context(results.value), query)
  {
    match results
    case Failure => Failure
    case Ok(rs) => Ok(Prompt(Context(rs), query))
  }

  /** A slice of the context is the same slice of the prompt, shifted by the
      fixed head. */
  lemma PromptContextSlice(context: string, query: string, lo: nat, hi: nat)
    requires lo <= hi <= |context|
    ensures |PromptHead| + hi <= |Prompt(context, query)|
    ensures Prompt(context, query)[|PromptHead| + lo..|PromptHead| + hi] == context[lo..hi]
  {
    var p := Prompt(context, query);
    assert p[|PromptHead|..|PromptHead| + |context|] == context;
    assert forall k :: lo <= k < hi ==> p[|PromptHead| + k] == context[k];
  }

  /** The layout of a prompt built from successful results: the fixed head,
      then the context (the placeholder when nothing was found; otherwise see
      `RagPromptHoldsResults`), then the fixed middle, the query verbatim and
      the fixed tail. */
  lemma RagPromptLayout(rs: seq<string>, query: string)
    ensures RagPrompt(Ok(rs), query).Ok?
    ensures |RagPrompt(Ok(rs), query).value|
         == |PromptHead| + |Context(rs)| + |PromptMiddle| + |query| + |PromptTail|
    ensures RagPrompt(Ok(rs), query).value[..|PromptHead|] == PromptHead
    ensures rs == [] ==>
              RagPrompt(Ok(rs), query).value[|PromptHead|..|PromptHead| + |NoContext|] == NoContext
    ensures RagPrompt(Ok(rs), query).value[|PromptHead| + |Context(rs)|..]
         == PromptMiddle + query + PromptTail
  {
    PromptPlaceholder(query);
    PromptAfterContext(Context(rs), query);
  }

  /** The placeholder sits right after the fixed head. */
  lemma PromptPlaceholder(query: string)
    ensures Prompt(NoContext, query)[|PromptHead|..|PromptHead| + |NoContext|] == NoContext
  {
    PromptContextSlice(NoContext, query, 0, |NoContext|);
  }

  /** Every result sits in the prompt, in order, at its place in the join
      shifted by the fixed head. */
  lemma RagPromptHoldsResults(rs: seq<string>, query: string)
    ensures forall i :: 0 <= i < |rs| ==>
              |PromptHead| + JoinOffset(rs, ChunkSeparator, i) + |rs[i]| <= |RagPrompt(Ok(rs), query).value|
              && RagPrompt(Ok(rs), query).value[|PromptHead| + JoinOffset(rs, ChunkSeparator, i)
                                                ..|PromptHead| + JoinOffset(rs, ChunkSeparator, i) + |rs[i]|]
                 == rs[i]
  {
    forall i | 0 <= i < |rs| {
      RagPromptHoldsResult(rs, query, i);
    }
  }

  lemma RagPromptHoldsResult(rs: seq<string>, query: string, i: nat)
    requires i < |rs|
    ensures |PromptHead| + JoinOffset(rs, ChunkSeparator, i) + |rs[i]| <= |Prompt(Context(rs), query)|
    ensures Prompt(Context(rs), query)[|PromptHead| + JoinOffset(rs, ChunkSeparator, i)
                                       ..|PromptHead| + JoinOffset(rs, ChunkSeparator, i) + |rs[i]|]
         == rs[i]
  {
    var lo := JoinOffset(rs, ChunkSeparator, i);
    ContextHoldsResults(rs, i);
    PromptContextSlice(Context(rs), query, lo, lo + |rs[i]|);
  }

  /** What follows the context in a prompt. */
  lemma PromptAfterContext(context: string, query: string)
    ensures Prompt(context, query)[|PromptHead| + |context|..] == PromptMiddle + query + PromptTail
  {
    var h := PromptHead + context;
    var t := PromptMiddle + query + PromptTail;
    assert Prompt(context, query) == h + t;
    assert (h + t)[|h|..] == t;
  }

  /** With nothing found the prompt carries the placeholder as its context. */
  lemma RagPromptNoResults(query: string)
    ensures RagPrompt(Ok([]), query) == Ok(PromptHead + NoContext + PromptMiddle + query + PromptTail)
  {
  }

  /** `generate_rag_answer(query, vectorstore)` up to the model call: the
      store is searched for the three nearest chunks and the prompt is built
      from them. */
  method GenerateRagPrompt(query: string, vectorstore: VectorStore) returns (r: Result<string>)
    modifies vectorstore`calls
    ensures r == RagPrompt(SearchAnswer(vectorstore.store, vectorstore.embedder, vectorstore.nearest, query, RagTopK), query)
    ensures vectorstore.store.None? ==> r == Ok(Prompt(NoContext, query))
    ensures vectorstore.store.None? ==> vectorstore.calls == old(vectorstore.calls)
    ensures vectorstore.store.Some? ==> vectorstore.calls == old(vectorstore.calls) + [EmbedQuery(query)]
  {
    var results := vectorstore.Search(query, RagTopK);
    if results.Failure? {
      return Failure;
    }
    var context := Context(results.value);
    r := Ok(Prompt(context, query));
  }

  // ---------------------------------------------------------------------
  // Ingestion
  // ---------------------------------------------------------------------

  /** `TextChunker.chunk_text`, which splits one cleaned text into chunks. */
  type Chunker = string -> seq<string>

  /** What one document contributes: `chunk_text(clean(d["text"]))`. */
  function CleanThenChunk(chunker: Chunker): string -> seq<string> {
    text => chunker(Clean(text))
  }

  /** The chunks of a list of documents, in document order, when `perDoc`
      gives the chunks of one document. */
  function AllChunks(docs: seq<string>, perDoc: string -> seq<string>): seq<string>
    decreases |docs|
  {
    if docs == [] then []
    else AllChunks(docs[..|docs| - 1], perDoc) + perDoc(docs[|docs| - 1])
  }

  /** Chunking two lists of documents one after the other gives the chunks
      of the first list followed by those of the second. */
  lemma {:induction false} AllChunksConcat(a: seq<string>, b: seq<string>, perDoc: string -> seq<string>)
    ensures AllChunks(a + b, perDoc) == AllChunks(a, perDoc) + AllChunks(b, perDoc)
    decreases |b|
  {
    if b != [] {
      var b' := b[..|b| - 1];
      assert (a + b)[..|a + b| - 1] == a + b';
      assert (a + b)[|a + b| - 1] == b[|b| - 1];
      AllChunksConcat(a, b', perDoc);
    } else {
      assert a + b == a;
    }
  }

  /** The collected chunks are empty exactly when no document yields a
      chunk. */
  lemma {:induction false} AllChunksEmpty(docs: seq<string>, perDoc: string -> seq<string>)
    ensures AllChunks(docs, perDoc) == [] <==> forall i :: 0 <= i < |docs| ==> perDoc(docs[i]) == []
    decreases |docs|
  {
    if docs != [] {
      var init := docs[..|docs| - 1];
      AllChunksEmpty(init, perDoc);
      assert forall i :: 0 <= i < |init| ==> init[i] == docs[i];
    }
  }

  /** Lines 94-97: the loop that cleans and chunks every document and
      extends `chunks` with the result. */
  method CollectChunks(docs: seq<string>, chunker: Chunker) returns (chunks: seq<string>)
    ensures chunks == AllChunks(docs, CleanThenChunk(chunker))
  {
    chunks := [];
    for i := 0 to |docs|
      invariant chunks == AllChunks(docs[..i], CleanThenChunk(chunker))
    {
      assert docs[..i + 1][..i] == docs[..i];
      var clean := Clean(docs[i]);
      chunks := chunks + chunker(clean);
    }
    assert docs[..|docs|] == docs;
  }

  /** How one run of the processing block ends. */
  datatype Outcome =
    | Idle        // `process_docs` was not set: the block is skipped
    | NoText      // no chunk at all: the run stops before the store is touched
    | Failed      // `store.add` raised
    | Processed   // the chunks were added to the store

  /** The part of `st.session_state` the ingestion step uses. */
  class Session {
    var processDocs: bool
    var chunks: Option<seq<string>>
    const store: VectorStore

    /** A fresh session holding the given store, with `process_docs` unset
        and no `chunks` key. */
    constructor (vectorstore: VectorStore)
      ensures store == vectorstore && !processDocs && chunks == None
    {
      store := vectorstore;
      processDocs := false;
      chunks := None;
    }

    /** The "Continue" button: processing is requested only when files were
        uploaded. */
    method Continue(uploaded: bool)
      modifies this
      ensures processDocs == (uploaded || old(processDocs))
      ensures chunks == old(chunks)
    {
      if uploaded {
        processDocs := true;
      }
    }

    /** Lines 70 and 91-125 without the user interface: when processing was
        requested, collect the chunks of the loaded documents; with none,
        reset `process_docs` and stop before the store is touched; otherwise
        add all of them to the store, then record them in the session and
        reset `process_docs`. When `add` raises, the run ends there and
        `process_docs` stays set. */
    method ProcessDocuments(docs: seq<string>, chunker: Chunker) returns (outcome: Outcome)
      modifies this, store
      ensures outcome == (if !old(processDocs) then Idle
                          else if AllChunks(docs, CleanThenChunk(chunker)) == [] then NoText
                          else if store.embedder.documents(AllChunks(docs, CleanThenChunk(chunker))).Ok? then Processed
                          else Failed)
      ensures outcome.Idle? || outcome.NoText? ==>
                store.store == old(store.store) && store.calls == old(store.calls)
      ensures outcome.Idle? ==> processDocs == old(processDocs) && chunks == old(chunks)
      ensures outcome.NoText? ==> !processDocs && chunks == old(chunks)
      ensures outcome.Failed? || outcome.Processed? ==>
                store.calls == old(store.calls) + AddCalls(old(store.store), store.embedder, AllChunks(docs, CleanThenChunk(chunker)))
      ensures outcome.Failed? ==> processDocs && chunks == old(chunks) && store.store == old(store.store)
      ensures outcome.Processed? ==>
                !processDocs && chunks == Some(AllChunks(docs, CleanThenChunk(chunker)))
                && store.Entries() == old(store.Entries()) + AllChunks(docs, CleanThenChunk(chunker))
                && store.store == Some(Extended(old(store.store), AllChunks(docs, CleanThenChunk(chunker)),
                                                store.embedder.documents(AllChunks(docs, CleanThenChunk(chunker))).value))
    {
      if !processDocs {
        return Idle;
      }
      var collected := CollectChunks(docs, chunker);
      if |collected| == 0 {
        processDocs := false;
        return NoText;
      }
      var ok := store.Add(collected);
      if !ok {
        return Failed;
      }
      chunks := Some(collected);
      processDocs := false;
      outcome := Processed;
    }
  }
}
