# Research assistant core: text cleaning, vector store, RAG prompt and ingestion

This project models the non-interface core of a small retrieval-augmented
research assistant: the text normaliser `TextCleaner.clean`, the lazily
created FAISS wrapper `VectorStore`, the prompt assembly of
`generate_rag_answer`, and the ingestion block of the Streamlit application,
which cleans and chunks the loaded documents and adds the chunks to the
session's store.

Files and modules:

- `cleaner.dfy`, module `Cleaner`: the six passes of `clean` as recursive
  string functions, in source order. They are tab replacement, whitespace
  collapsing, URL removal, citation removal, the character allow-list and
  the strip. Whitespace is Python's `str` whitespace set, which is what `\s`
  and `str.strip()` use.
- `cleaner_properties.dfy`, module `CleanerProperties`: what `clean`
  guarantees. It covers the output alphabet, the absence of surrounding
  spaces and the fact that the later passes only delete characters. It
  characterises exactly the inputs that `clean` leaves unchanged, and shows
  how the passes distribute over a concatenation.
- `cleaner_examples.dfy`, module `CleanerExamples`: the cleaner on
  space-separated words. From this follow a sample document's cleaned form
  and concrete inputs on which cleaning twice differs from cleaning once.
- `vectorstore.dfy`, module `VectorStores`: the `VectorStore` class. The
  embedding model is a pair of function values that may fail. FAISS's
  similarity search is a function value. An index is represented by its
  texts and vectors. A ghost log records every request sent to the
  embedding model.
- `app.dfy`, module `App`: `"\n\n".join`, the context and prompt of
  `generate_rag_answer` with `top_k=3`, the chunk collection loop, and the
  `Session` class. `Session` holds the `process_docs` and `chunks` entries of
  `st.session_state`, the "Continue" button and the processing block.

## Where the code and its design description disagree

The model follows the code in both cases.

- The design description calls cleaning idempotent. It is not.
  - Deleting a bracketed number between two words leaves two spaces, and a
    second pass collapses them: `"a [1] b"` cleans to `"a  b"`, which cleans
    to `"a b"` (`CleanerExamples.NotIdempotent`).
  - Deleting a bracketed number inside a word can create a URL match:
    `"htt[1]px"` cleans to `"httpx"`, which cleans to `""`.
- The design description says a sample document cleans to
  `"Paris is the capital of France. Visit for more."`. The code produces
  `"Paris is the capital of France.  Visit  for more."`, with two spaces
  where the citation and the URL were (`CleanerExamples.CleanExample`).

A related consequence of the pass order: `"[1[2]]"` cleans to `"1"`. Pass 4
deletes `[2]`, and pass 5 drops the remaining brackets
(`CleanerExamples.CleanNestedCitation`).

## Model

| member | source | states |
|---|---|---|
| Cleaner.LeadingWs | utils/cleaner.py:7 | the greedy `\s+` run at the head: all whitespace, and followed by a non-whitespace character or the end |
| Cleaner.LeadingNonWs | utils/cleaner.py:8 | the greedy `\S+` run at the head: no whitespace, and followed by whitespace or the end |
| Cleaner.LeadingDigits | utils/cleaner.py:9 | the greedy `[0-9]+` run at the head: all digits, and followed by a non-digit or the end |
| Cleaner.TrailingWs | utils/cleaner.py:11 | the whitespace run at the end: all whitespace, and preceded by a non-whitespace character or the start |
| Cleaner.ReplaceTabs | utils/cleaner.py:6 | same length; each tab becomes a space and every other character is kept in place |
| Cleaner.CollapseWs | utils/cleaner.py:7 | never longer than the input; empty exactly when the input is; starts with whitespace exactly when the input does |
| Cleaner.RemoveUrls | utils/cleaner.py:8 | never longer than the input |
| Cleaner.RemoveCitations | utils/cleaner.py:9 | never longer than the input |
| Cleaner.KeepAllowed | utils/cleaner.py:10 | never longer than the input; every character left is allowed or whitespace |
| Cleaner.Strip | utils/cleaner.py:11 | the slice that starts right after the leading whitespace and is followed by whitespace only, with non-whitespace at both ends |
| Cleaner.Normalise | utils/cleaner.py:6-10 | passes 1 to 5 composed in source order; no contract of its own, its guarantees are `NormaliseConcat`, `NormaliseUnwords` and `WordNormalised` |
| Cleaner.Clean | utils/cleaner.py:5-11 | `TextCleaner.clean`, all six passes in source order; no contract of its own, its guarantees are `CleanOutputShape`, `CleanDeletes`, `CleanBlank` and `CleanFixedPoint` |
| CleanerProperties.RemoveUrlsDeletes | utils/cleaner.py:8 | the URL pass only deletes characters: its output is a subsequence of its input |
| CleanerProperties.RemoveCitationsDeletes | utils/cleaner.py:9 | the citation pass only deletes characters |
| CleanerProperties.KeepAllowedDeletes | utils/cleaner.py:10 | the allow-list pass only deletes characters |
| CleanerProperties.StripDeletes | utils/cleaner.py:11 | the strip only deletes characters |
| CleanerProperties.CleanDeletes | utils/cleaner.py:6-11 | `clean(x)` is a subsequence of `x` after tab replacement and collapsing, and is no longer than `x` |
| CleanerProperties.CleanMembers | utils/cleaner.py:6-11 | every output character occurs in the text after pass 2 and after pass 5 |
| CleanerProperties.CollapseWsSpacing | utils/cleaner.py:7 | after collapsing, the only whitespace is the plain space and no two whitespace characters are adjacent |
| CleanerProperties.CollapseWsKeepsNonWs | utils/cleaner.py:7 | collapsing keeps the non-whitespace characters of its input, all of them and in the same order |
| CleanerProperties.CleanOutputShape | utils/cleaner.py:6-11 | the output holds only allowed characters and spaces, and neither starts nor ends with a space |
| CleanerProperties.CleanBlank | utils/cleaner.py:6-11 | an all-whitespace input, the empty one included, gives `""` |
| CleanerProperties.NoTabsUnchanged | utils/cleaner.py:6 | tab replacement leaves a tab-free string unchanged |
| CleanerProperties.CollapseWsUnchanged | utils/cleaner.py:7 | collapsing leaves a string with single plain spaces unchanged |
| CleanerProperties.CollapseWsSameLength | utils/cleaner.py:7 | when collapsing removes nothing, no two whitespace characters were adjacent |
| CleanerProperties.RemoveUrlsSameLength | utils/cleaner.py:8 | the URL pass removes nothing exactly when no position starts a match, and then it returns its input |
| CleanerProperties.RemoveCitationsSameLength | utils/cleaner.py:9 | the citation pass removes nothing exactly when no position starts a match, and then it returns its input |
| CleanerProperties.KeepAllowedSameLength | utils/cleaner.py:10 | the allow-list pass removes nothing exactly when every character is allowed or whitespace, and then it returns its input |
| CleanerProperties.StripUnchanged | utils/cleaner.py:11 | the strip leaves a string without whitespace at either end unchanged |
| CleanerProperties.NoUrlUnchanged | utils/cleaner.py:8 | the URL pass leaves a string without a match unchanged |
| CleanerProperties.NoCitationUnchanged | utils/cleaner.py:9 | the citation pass leaves a string without a match unchanged |
| CleanerProperties.CleanKeepsCleanForm | utils/cleaner.py:6-11 | `clean` leaves every string of the clean form unchanged |
| CleanerProperties.CleanFixedIsCleanForm | utils/cleaner.py:6-11 | every string that `clean` leaves unchanged has the clean form |
| CleanerProperties.CleanFixedPoint | utils/cleaner.py:6-11 | `clean(x) == x` exactly when `x` has only allowed characters and single spaces, no space at either end, and no URL or bracketed number |
| CleanerProperties.RemoveUrlsAfterMatch | utils/cleaner.py:8 | after a deleted URL the output continues with whitespace or ends |
| CleanerProperties.NoUrlAtFront | utils/cleaner.py:8 | a string that does not start with a URL match does not start with one after the URL pass |
| CleanerProperties.RemoveUrlsComplete | utils/cleaner.py:8 | no URL match is left anywhere after the URL pass |
| CleanerProperties.ReplaceTabsConcat | utils/cleaner.py:6 | tab replacement distributes over concatenation |
| CleanerProperties.CollapseWsConcat | utils/cleaner.py:7 | collapsing distributes over a split before a non-whitespace character |
| CleanerProperties.RemoveUrlsConcat | utils/cleaner.py:8 | the URL pass distributes over a split after whitespace |
| CleanerProperties.RemoveCitationsConcat | utils/cleaner.py:9 | the citation pass distributes over a split after whitespace |
| CleanerProperties.KeepAllowedConcat | utils/cleaner.py:10 | the allow-list pass distributes over concatenation |
| CleanerProperties.CollapseWsEndsWs | utils/cleaner.py:7 | a string that ends in whitespace still ends in whitespace after collapsing |
| CleanerProperties.RemoveUrlsEndsWs | utils/cleaner.py:8 | a string that ends in whitespace still ends in whitespace after the URL pass |
| CleanerProperties.NormaliseConcat | utils/cleaner.py:6-10 | passes 1 to 5 together distribute over a split between whitespace and a non-whitespace character |
| CleanerExamples.PlainWordKept | utils/cleaner.py:6-10 | a word of allowed characters that cannot spell `http` survives passes 1 to 5 unchanged |
| CleanerExamples.UrlWordDeleted | utils/cleaner.py:8 | a whole-word URL is deleted, and the space after it is kept |
| CleanerExamples.CitationWordDeleted | utils/cleaner.py:9 | a whole-word bracketed number is deleted, and the space after it is kept |
| CleanerExamples.WordNormalised | utils/cleaner.py:6-10 | passes 1 to 5 keep a plain word and delete a URL or bracketed-number word, keeping the space after it |
| CleanerExamples.NormaliseStep | utils/cleaner.py:6-10 | on text that ends in a space, appending a word and a space appends what is left of that word, then the space |
| CleanerExamples.NormaliseUnwords | utils/cleaner.py:6-10 | on words joined by single spaces, passes 1 to 5 treat each word on its own and keep every separating space |
| CleanerExamples.CleanUnwords | utils/cleaner.py:6-11 | `clean` of single-spaced words that start and end with a plain word is the same join of the cleaned words |
| CleanerExamples.ExampleShape | utils/cleaner.py:6-11 | a sentence shaped like the sample document loses its citation and URL words, and keeps the spaces on both sides of each |
| CleanerExamples.CleanExample | utils/cleaner.py:6-11 | the sample document cleans to `"Paris is the capital of France.  Visit  for more."` |
| CleanerExamples.TwoWords | utils/cleaner.py:6-11 | two plain words separated by a space are left unchanged |
| CleanerExamples.ThreeWords | utils/cleaner.py:6-11 | of three words, the middle one is cleaned and both separating spaces stay |
| CleanerExamples.ExtraSpaceIgnored | utils/cleaner.py:6-11 | a doubled space after a word cleans like a single one |
| CleanerExamples.CleanCitationBetweenWords | utils/cleaner.py:6-11 | `clean("a [1] b") == "a  b"` |
| CleanerExamples.CleanDoubleSpace | utils/cleaner.py:6-11 | `clean("a  b") == "a b"` |
| CleanerExamples.NotIdempotent | utils/cleaner.py:6-11 | `clean(clean("a [1] b")) != clean("a [1] b")` |
| CleanerExamples.NestedNormalised | utils/cleaner.py:9-10 | `[d1[d2]]` with digits cleans to `d1` |
| CleanerExamples.CleanNestedCitation | utils/cleaner.py:9-10 | `clean("[1[2]]") == "1"` |
| CleanerExamples.JoinedUrlCleaned | utils/cleaner.py:8-9 | deleting a bracketed number inside `htt[d]p…` joins the text into `httpc` |
| CleanerExamples.JoinedUrlDeleted | utils/cleaner.py:8 | `httpc` is removed entirely by a second cleaning |
| CleanerExamples.JoinedUrlNotIdempotent | utils/cleaner.py:8-9 | `clean("htt[1]px") == "httpx"` and `clean("httpx") == ""` |
| VectorStores.Extended | utils/vectorstore.py:13-23 | the index after a successful add holds the earlier texts and vectors followed by the new ones; the first add builds it from exactly the new ones |
| VectorStores.AddCalls | utils/vectorstore.py:10-17 | `add` always embeds its texts first, and embeds them a second time exactly when the index is built from them |
| VectorStores.PageContents | utils/vectorstore.py:32 | the page contents of the documents, same length and same order |
| VectorStores.SearchAnswer | utils/vectorstore.py:25-32 | an uninitialised store answers `[]`; otherwise the answer fails exactly when the query embedding fails, and in the other case holds the texts of the nearest documents in order |
| VectorStores.ExtendedAligned | utils/vectorstore.py:9-23 | an add keeps one vector per text when the model returns one vector per text |
| VectorStores.AddAll | utils/vectorstore.py:9-23 | a run of `add` calls, stopping at the first that fails; no contract of its own, its guarantees are `AddAllEntries` and `AddAllAligned` |
| VectorStores.AddAllAligned | utils/vectorstore.py:9-23 | any run of adds keeps one vector per text when the model returns one vector per text |
| VectorStores.AddAllEntries | utils/vectorstore.py:9-23 | a sequence of adds never removes entries, and when all succeed the store holds the earlier entries followed by every batch in call order |
| VectorStores.VectorStore.constructor | utils/vectorstore.py:5-7 | a fresh store has no index and has sent nothing to the model |
| VectorStores.VectorStore.Add | utils/vectorstore.py:9-23 | the texts are always embedded; a failing embedding leaves the store unchanged; the first success builds the index from exactly the texts, later ones append them; one vector per text is kept when the model returns one vector per text |
| VectorStores.VectorStore.Search | utils/vectorstore.py:25-32 | the answer is `SearchAnswer` with default `top_k` 5; an uninitialised store answers `[]` without calling the model; otherwise the query is embedded once |
| App.Context | app.py:23 | `"No relevant context found."` for no results, the single result alone, otherwise the first result, `"\n\n"`, and the context of the rest |
| App.Join | app.py:23 | `sep.join(parts)`: empty for no parts, and otherwise as long as every part but the last followed by one separator, plus the last part |
| App.JoinFirst | app.py:23 | a join starts with its first part, followed by the separator when more parts come |
| App.JoinAt | app.py:23 | each part appears in the join at its offset |
| App.JoinSeparatorAt | app.py:23 | exactly the separator lies between consecutive parts |
| App.JoinOffsetOrder | app.py:23 | later parts start after earlier parts and their separator end |
| App.JoinAppend | app.py:23 | joining one more part appends the separator and that part |
| App.ContextHoldsResults | app.py:23 | a non-empty context holds every result, in order, at its place in the join |
| App.Prompt | app.py:26-37 | the prompt is the fixed head, the context, the fixed middle, the query and the fixed tail, in that order and verbatim |
| App.RagPromptLayout | app.py:22-37 | a prompt exists for successful results; it is the fixed head, the context (the placeholder when nothing was found), then the fixed middle, the query verbatim and the fixed tail |
| App.RagPromptHoldsResults | app.py:22-37 | every result sits in the prompt, in order, at its place in the join shifted by the fixed head |
| App.RagPromptNoResults | app.py:23-37 | with no results the prompt carries `"No relevant context found."` as its context |
| App.GenerateRagPrompt | app.py:20-37 | the store is searched with `top_k=3` and the prompt is built from the answer; an uninitialised store gives the placeholder context and sends nothing to the model; otherwise exactly one query embedding is requested |
| App.AllChunksConcat | app.py:94-97 | the chunks of two document lists are those of the first followed by those of the second |
| App.AllChunksEmpty | app.py:94-100 | no chunk is collected exactly when no document yields a chunk |
| App.AllChunks | app.py:94-97 | the chunks of each document in document order; no contract of its own, its guarantees are `AllChunksConcat` and `AllChunksEmpty`, and `CollectChunks` is proved equal to it |
| App.CollectChunks | app.py:94-97 | the collected chunks are the chunks of each cleaned document, concatenated in document order |
| App.Session.constructor | app.py:48-50 | a fresh session holds the given store, with `process_docs` unset and no `chunks` |
| App.Session.Continue | app.py:60-64 | the button sets `process_docs` exactly when files were uploaded, and changes nothing else |
| App.Session.ProcessDocuments | app.py:70-125 | nothing happens unless `process_docs` is set; with no chunks it resets `process_docs` without touching the store; otherwise the store is extended with all chunks and their embeddings, after which `chunks` is recorded and `process_docs` reset; a failing add leaves `process_docs` set and the store unchanged |

## Left out

- The user interface, file upload and saving, the document loader, the chunker and the times are not part of this model. `TextChunker.chunk_text` is a function-valued parameter of type `Chunker`, and the loaded documents are a parameter.
- The embedding model, FAISS's similarity search and ranking are function values. Vectors are opaque real sequences, and nothing about floating-point distances is modelled.
- The language-model call of `generate_rag_answer` (app.py:39-43) is left out: `App.GenerateRagPrompt` stops at the prompt that would be sent.
- The separate embedding of all chunks at app.py:106-107 is left out. Its result is never used, and it only adds a model call that may raise before `store.add`.
- Exceptions are modelled as `Failure` results or a `Failed` outcome. A raised exception from the embedding model ends the operation at that point.
- VectorStores.VectorStore.Add: `FAISS.from_texts` computes its own embeddings by calling the model again. The model records that second request, but assumes it returns what the first returned, because the model is a function value.
- VectorStores.VectorStore.Add: for a later add, the model stores the vectors that `add` passes in `embeddings=`. The FAISS library's own treatment of that keyword argument is not part of this model.
- VectorStores.VectorStore.Add: `FAISS.from_texts` on an empty list raises inside FAISS. The model builds an empty index instead; the application never calls `add` with no chunks.
- App.Session.ProcessDocuments: `st.stop()` is modelled as returning the `NoText` outcome, and the status messages are not modelled.
- Unicode case and normalisation play no role, because the cleaner compares code points only. Strings are sequences of Dafny `char`.
