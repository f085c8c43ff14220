# Retrieval core of a small RAG service, in Dafny

This project models the retrieval path of a minimal retrieval-augmented
generation service: documents are split into chunks, each chunk is embedded,
the (text, embedding) records of a document are stored as one JSON object
under `vectors/<name>.json` in an S3 bucket, and a question is answered by
embedding it, scoring every stored embedding against it by cosine
similarity, and handing the best few chunk texts to a language model as
context.

Modules, following the source files:

- `Results` (`results.dfy`): the error kinds of the retrieval path and a
  `Result` type standing for "returns or raises".
- `Vectors` (`vectors.dfy`): dot product and `cosine_similarity`
  (utils/similarity.py). The Euclidean norm is a function parameter `norm`
  constrained by `ValidNorm`: non-negative, zero exactly on the all-zero
  vector, and squaring to the vector's dot product with itself.
- `Selection` (`selection.dfy`): the selection step of `top_n_similar`
  over an abstract `seq<real>` of scores: a full descending sort when every
  row is wanted, otherwise a partial selection of the best `n` followed by a
  sort of only those.
- `Similarity` (`similarity.dfy`): `cosine_similarities` (numpy's reading
  of the matrix argument, the ragged and width errors, the per-row zero
  sentinel) and `top_n_similar`.
- `VectorStore` (`vector_store.dfy`): `upload_document` and
  `search_vectors` over a bucket modelled as `map<string, seq<Record>>`.
- `App` (`app.dfy`): the pure parts of main.py: the context string and
  prompt of `chat`, the `count` of the search endpoint, and
  `process_and_upload`.

Where the code departs from what its callers might reasonably expect, the
model follows the code:

- Ties between equal scores: the code uses `np.argsort` and
  `np.argpartition`, which promise no order among equal scores, so the
  model promises none either; ascending index among equal scores is not
  guaranteed.
- Mismatched chunk and embedding counts: the code zips and silently drops
  the longer list's tail instead of raising.
- An empty list as the matrix of `top_n_similar`: numpy reads `[]` as a
  1-D array and reshapes it to one row of width 0. The width check then
  raises for every non-empty query, and the empty query gets one `0.0`
  score (`Similarity.EmptyMatrix`), not `[]`. Only a 2-D numpy array with
  no rows reaches the `N == 0` branch (`Similarity.ZeroRows`). The one
  caller in the service, `search_vectors`, returns `[]` itself before
  scoring an empty corpus.
- A blob that fails to decode fails the whole search instead of being
  skipped. Decoding is not modelled (see below).

## Model

| member | source | states |
|---|---|---|
| Vectors.CosineSimilarity | utils/similarity.py:12-17 | exactly 0.0 when either vector is all zeros, even when the widths differ; otherwise a width error when np.dot sees unequal widths; otherwise a score whose product with the two norms is the dot product |
| Vectors.DenominatorZero | utils/similarity.py:14-15 | the denominator norm(a)*norm(b) is zero exactly when one of the vectors is all zeros |
| Vectors.CosineSymmetric | utils/similarity.py:14-17 | cosine_similarity(a, b) and cosine_similarity(b, a) succeed together and agree |
| Vectors.CosineSelf | utils/similarity.py:14-17 | a non-zero vector scores exactly 1.0 against itself; a zero vector gets the 0.0 sentinel |
| Vectors.DotSymmetric | utils/similarity.py:17 | the dot product is symmetric, so M.dot(q) and np.dot(q, row) agree |
| Similarity.Rows | utils/similarity.py:26-28 | a 1-D matrix, including the empty list, is scored as a single row; a non-empty list of rows is scored row by row; a 2-D array is scored row by row and may have no rows |
| Similarity.CosineSimilarities | utils/similarity.py:25-39 | fails with a ragged matrix or a query whose width differs from the matrix's; otherwise one score per row, each the single-pair cosine of the query and that row alone, and 0.0 whenever the query or the row is all zeros |
| Similarity.EmptyMatrix | utils/similarity.py:26-30 | an empty list as the matrix is a width mismatch for every non-empty query and one 0.0 score for the empty query |
| Similarity.ZeroRows | utils/similarity.py:47-50 | a 2-D array with no rows gives no matches against a query of its width, and a width mismatch against any other query |
| Similarity.TopNSimilar | utils/similarity.py:41-58 | errors exactly as cosine_similarities; otherwise min(n, N) distinct rows, each paired with its own cosine score, best first, every chosen row scoring at least every unchosen one, and all rows when n >= N |
| Selection.TopN | utils/similarity.py:48-58 | [] for no scores; otherwise exactly min(n, N) distinct in-range indices each paired with sims[i], scores non-increasing, every chosen score >= every unchosen score, and a permutation of 0..N-1 when n >= N |
| Selection.Partition | utils/similarity.py:56 | the best n indices among the first j: min(n, j) distinct indices below j, none scoring below an index left out |
| Selection.Step | utils/similarity.py:56 | offering index j to the best n among 0..j-1 yields the best n among 0..j, keeping all of them while fewer than n have been seen |
| Selection.SortDesc | utils/similarity.py:53-57 | a permutation of the given indices (same multiset, distinct stays distinct) with non-increasing scores |
| Selection.Insert | utils/similarity.py:53-57 | inserting one index into a score-sorted sequence keeps it sorted and adds exactly that index |
| Selection.MinAt | utils/similarity.py:56 | a position holding a lowest-scoring chosen index |
| Selection.EvictKeepsTop | utils/similarity.py:56 | evicting the lowest chosen index for a strictly better newcomer keeps the chosen set distinct and on top |
| Selection.SortKeepsTop | utils/similarity.py:57 | reordering the selected indices keeps their number, their distinctness and their dominance over the rest |
| VectorStore.Key | services/vector_store.py:16 | the object key is the prefix "vectors/" that search lists, then the file name verbatim, then ".json" |
| VectorStore.KeyInjective | services/vector_store.py:16 | two different file names never share an object key |
| VectorStore.Zip | services/vector_store.py:12-15 | min(len(chunks), len(embeddings)) records, record i pairing chunks[i] with embeddings[i] |
| VectorStore.UploadDocument | services/vector_store.py:8-16 | the document's key now holds the zipped records, and every other key keeps its object |
| VectorStore.LastWriteWins | services/vector_store.py:16 | uploading the same file name twice leaves only the second upload |
| VectorStore.UploadsCommute | services/vector_store.py:16 | uploads of different file names do not interfere, in either order |
| VectorStore.ToList | services/vector_store.py:13 | `.tolist()` succeeds exactly on numpy arrays and returns their values |
| VectorStore.BuildRecords | services/vector_store.py:12-15 | the record list as written: succeeds exactly when every zipped embedding is a numpy array |
| VectorStore.UploadDocumentAsWritten | services/vector_store.py:8-16 | as written: succeeds exactly when every zipped embedding is a numpy array; then the document's key holds min(len(chunks), len(embeddings)) records, record i pairing chunks[i] with embeddings[i]'s values, no other key appears and every other key keeps its object |
| VectorStore.GatherMembership | services/vector_store.py:24-29 | a record is among the candidates exactly when some listed object holds it |
| VectorStore.Collect | services/vector_store.py:21-29 | all_texts and all_embeddings are the texts and embeddings of one concatenated record list, in listing order and then record order |
| VectorStore.SearchVectors | services/vector_store.py:19-35 | [] on an empty corpus; an error exactly when the stored embeddings are ragged or differ in width from the query; otherwise min(top_n, total records) stored texts, the texts of the selector's rows in the selector's order |
| VectorStore.SearchErrors | services/vector_store.py:34 | over a non-empty corpus, scoring fails exactly when the stored embeddings are ragged or the query's width differs from theirs |
| VectorStore.SearchHit | services/vector_store.py:34-35 | the texts picked for min(top_n, N) selected rows are that many, each stored under the prefix, each the text of its selected row |
| VectorStore.Pick | services/vector_store.py:35 | one text per selected match, the text at that match's index |
| VectorStore.ResultsAreStored | services/vector_store.py:35 | every returned text is the text of a record some stored object holds |
| VectorStore.UploadedIsSearchable | services/vector_store.py:16-29 | after an upload, every record of the document is among the candidates of the next search |
| App.SplitJoin | main.py:19 | splitting the newline join of newline-free chunks at newlines gives back the chunks, whole and in order |
| App.JoinLayout | main.py:19 | for any chunks, newlines inside them included, "\n".join places chunk k at the sum of the earlier chunks' lengths plus one newline each, and a newline after every chunk but the last |
| App.JoinLength | main.py:19 | the join is as long as the chunks plus one newline between each pair |
| App.ContextString | main.py:19 | exactly "No relevant documents found." when nothing was retrieved; otherwise, for any chunks, each chunk in retrieval order at its offset, a newline after each but the last, and nothing else; splitting at newlines gives back newline-free chunks |
| App.Prompt | main.py:22 | the fixed preamble, then the context, then "\n\nQuestion: " and the message |
| App.PromptInjective | main.py:22 | the prompt determines the message and a context of known length |
| App.Chat | main.py:10-25 | succeeds exactly when retrieval with top_n 3 does; returns the retrieved chunks unchanged as context_used (at most 3) and the model's answer to the prompt built from them; the fixed sentence as context on an empty corpus |
| App.Search | main.py:49-57 | fails exactly when search_vectors does; results are exactly what search_vectors returned, and count equals their number, which is min(top_n, total records) |
| App.EmbedAll | main.py:65 | one embedding per chunk, in chunk order |
| App.ProcessAndUpload | main.py:64-66 | the document gets exactly one record per chunk, record i pairing chunk i with its embedding, so zip drops nothing; the document's key is the only key added and every other key is untouched |
| App.ProcessAndUploadAsWritten | main.py:64-66 | as written: on success the document has one record per chunk |
| App.AsWrittenUploadFails | main.py:64-66 | as written, every non-empty upload raises before anything is stored |

## Left out

- The embedding and language-model providers (utils/embeddings.py,
  services/llm_service.py): function parameters `embed` and `complete`;
  their network failures are not modelled, so `Chat` and `Search` fail only
  when retrieval fails.
- Floating point: scores are exact reals; rounding, NaN and infinities, and
  a denominator that underflows to 0.0 are not modelled.
- The value of the norm: a parameter constrained by `ValidNorm`, since a
  square root has no definition over Dafny's reals.
- Vectors.CosineSimilarity: does not state that the score lies in [-1, 1];
  that needs the Cauchy-Schwarz inequality, which is not proved here.
- `_to_vector`'s flattening of nested input: vectors are flat sequences.
- S3 I/O and JSON: the bucket is a map from key to decoded records; the
  listing order of `list_objects_v2` is a parameter that enumerates every
  key under the prefix exactly once, and its 1000-key page limit is not
  modelled. Blobs that fail to decode are not modelled.
- Negative `n`/`top_n`: the model takes `n: nat`. In Python, with N
  scores, `top_n_similar` returns N+n elements when -N < n < 0 and raises
  ValueError from `np.argpartition` (kth out of bounds) when n <= -N.
- The tie order of `np.argsort` and `np.argpartition`: no contract fixes
  one. `Selection.Partition` is a single-pass stand-in for
  `np.argpartition` that meets the same contract.
- FastAPI routing, `UploadFile` decoding, `BackgroundTasks` scheduling and
  the HTTP 500 mapping of exceptions: I/O and concurrency plumbing; an
  error `Result` stands for the raised exception.
- The `upload` endpoint and `chunk_text`: utils/chunking.py is not part of
  this model, so the chunk list is an input.
- The end-to-end HTTP test tests/test_chat.py: it depends on the live
  providers and S3.

## Findings

| source | as written | input that shows it | evidently intended | confidence | as-written member | corrected member |
|---|---|---|---|---|---|---|
| services/vector_store.py:13 | `emb.tolist()` is called on every embedding, but `process_and_upload` (main.py:65) passes the plain Python lists that generate_embedding returns (utils/embeddings.py:9), which have no `tolist` | `process_and_upload("a.txt", ["x"])`: AttributeError, nothing is stored | store each embedding's values unchanged | high; not executed | App.ProcessAndUploadAsWritten (with App.AsWrittenUploadFails) | App.ProcessAndUpload |
