# Retrieval evaluation engine of `Validator`, modelled in Dafny

`Validator.search` (src/model_training/utils/validation.py) measures retrieval
quality. It takes query and passage texts and an embedding model, and works in
four steps:

1. It encodes the queries and the corpus.
2. It builds an exact inner-product index over the corpus rows (`_index_corpus`).
3. It searches the queries in slices, k hits per query (`_search`).
4. It folds the hits into query id → (str(row) → score), dropping the sentinel row -1 (`_get_results`).

It returns that map together with the corpus embeddings.

The model follows those steps, one module each:

- `Outcomes` (outcomes.dfy): the errors the pipeline raises, and a `Result` type.
- `Ints` (ints.dfy): Python's `min()` on two integers.
- `Decimal` (decimal.dfy): Python's `str()` on integers, which makes the result keys. It also has the inverse (`int()`), so row keys are shown to be injective.
- `FlatIndex` (flat_index.dfy): the index.
  - Embeddings are a `Matrix`: a subset type whose rows all have the width `dim`.
  - The search is an exhaustive ranking of the rows by inner product, ties going to the lower row. `TopRows` keeps the first k rows and pads with -1. `Knn` is `index.search` with its error checks.
  - The index object is a class `Index` whose `Add` appends rows in place. `IndexCorpus` is `_index_corpus`.
- `BatchedSearch` (batched_search.dfy): the slicing loop of `_search`.
  - The loop is written once, with the slice width as a parameter, and proved against `SearchBatchesSpec`.
  - `SearchAsWritten` uses the source's literal width 32. `SearchBatches` uses `n_batches`.
- `Aggregation` (aggregation.dfy): the nested loops of `_get_results`, filling the result map in place. They are proved against `Aggregate`.
- `Validator` (validator.dfy): the pipeline, and an end-to-end theorem about it.

Errors in the model follow the source's code paths:

| error | where it comes from |
|---|---|
| `ZeroStep` | `range()` is given a zero step |
| `NothingToConcatenate` | there are no queries, or the step is negative; the loop then never runs and `numpy.concatenate([])` raises |
| `DimensionMismatch`, then `InvalidTopK` | the index's own checks on the first slice |
| `QueryIdOutOfRange` | `queries["id"][idx]` runs past the ids |
| `LengthMismatch` | the strict row pairing finds arrays of unequal length |

The pipeline `Validator.Search` uses the corrected `_search` and `_get_results` (see Findings).

- With the default `n_batches = 32`, the corrected `_search` is the source's own behaviour.
- The as-written `_get_results` raises on every call, so the pipeline as written never returns a result. `Validator.SearchAsWrittenPipeline` composes the as-written members and proves this.

The code has no empty-corpus error, no up-front `n_batches` check, no check on returned rows, and it keys results by row position:

- There is no empty-corpus error. An empty corpus yields rows of -1, so every query gets an empty map.
- There is no up-front batch-size validation. A non-positive `n_batches` fails through `range()` or `numpy.concatenate`.
- Result keys are `str(row)`, the row position, not a translated document id.
- No check rejects a returned row outside [-1, corpus size).

## Model

| member | source | states |
|---|---|---|
| `Decimal.ParseIntToString` | src/model_training/utils/validation.py:51 | `int(str(r)) == r` for every integer r, so a result key determines the row it was made from |
| `Decimal.IntToStringInjective` | src/model_training/utils/validation.py:51 | two rows give the same key `str(row)` exactly when they are the same row |
| `Ints.Min` | src/model_training/utils/validation.py:33 | `min(i + 32, query_size)` is at most both arguments and equal to one of them |
| `FlatIndex.Index.constructor` | src/model_training/utils/validation.py:20-21 | a fresh flat index has the corpus width and holds no rows |
| `FlatIndex.Index.Train` | src/model_training/utils/validation.py:23 | training a flat index leaves its rows unchanged |
| `FlatIndex.Index.Add` | src/model_training/utils/validation.py:24 | adding appends the new rows after the old ones, in order, and keeps every row of the index's width |
| `FlatIndex.Index.Search` | src/model_training/utils/validation.py:35 | `index.search` on the rows the index holds fails exactly when the query width is not the index width or k <= 0; otherwise it returns one row of k scores and one row of k rows per query |
| `FlatIndex.IndexCorpus` | src/model_training/utils/validation.py:19-25 | the built index has the corpus width, and row r of the index is corpus row r, with exactly as many rows as the corpus |
| `FlatIndex.Knn` | src/model_training/utils/validation.py:35 | a search fails exactly when the query width differs from the index width (checked first) or k <= 0, and succeeds otherwise |
| `FlatIndex.KnnShape` | src/model_training/utils/validation.py:35 | a successful search returns, for each query in order, k scores and k rows; the rows are that query's `TopRows`, and each score is the query's inner product with the row beside it for a valid row, and -FLT_MAX for a -1 slot |
| `FlatIndex.RankingSpec` | src/model_training/utils/validation.py:21 | the exhaustive ranking lists each corpus row exactly once, ordered by decreasing inner product, ties by increasing row |
| `FlatIndex.TopRowsShape` | src/model_training/utils/validation.py:35 | a hit row has exactly k entries: the first min(k, corpus size) are valid rows, every later slot is -1 |
| `FlatIndex.TopRowsOrdered` | src/model_training/utils/validation.py:21 | the valid rows of a hit row are pairwise distinct and their inner products never increase along the row |
| `FlatIndex.TopRowsExhaustive` | src/model_training/utils/validation.py:21 | a corpus row left out of the hits scores no higher than any valid returned row, in particular the k-th; when k >= corpus size every row is returned |
| `FlatIndex.TopHitMaximal` | src/model_training/utils/validation.py:21 | with k > 0 and a non-empty corpus, the first hit attains the highest inner product of any corpus row |
| `BatchedSearch.BatchesBounded` | src/model_training/utils/validation.py:32-34 | every slice [s, e) lies within the query positions from its start up to query_size |
| `BatchedSearch.BatchesShape` | src/model_training/utils/validation.py:32-33 | slice starts are 0, step, 2·step, … below query_size (the first is 0, consecutive starts differ by the step, the last start plus the step reaches query_size), and each slice ends at min(start + width, query_size) |
| `BatchedSearch.SearchedSlice` | src/model_training/utils/validation.py:34-35 | searching the slice [i, j) of the query matrix returns the hits of queries i … j-1, in order |
| `BatchedSearch.SearchBatchesWith` | src/model_training/utils/validation.py:28-40 | the slicing loop returns `SearchBatchesSpec`: a zero step fails in `range()`; no slice gives nothing to concatenate; a failing slice search fails the call; otherwise the concatenated arrays hold, row by row, the hits of the query positions each slice covers, in order |
| `BatchedSearch.SearchAsWritten` | src/model_training/utils/validation.py:28-40 | `_search` as written: the same loop with every slice 32 queries wide, whatever `n_batches` is |
| `BatchedSearch.SearchBatchesShape` | src/model_training/utils/validation.py:32-39 | for every step and slice width, the written 32 included, every output row of a successful sliced search holds exactly k scores and k rows, each a corpus row or -1 |
| `BatchedSearch.Concat` | src/model_training/utils/validation.py:38-39 | `numpy.concatenate(arrays, axis=0)` keeps exactly the rows of the arrays: every row of every array is in the result, and every result row comes from one of the arrays |
| `BatchedSearch.ConcatAppend` | src/model_training/utils/validation.py:36-39 | concatenating one more appended array puts its rows after all earlier rows, in order |
| `BatchedSearch.SearchBatches` | src/model_training/utils/validation.py:28-40 | `_search` with slices `n_batches` wide |
| `BatchedSearch.Partition` | src/model_training/utils/validation.py:32-33 | with slice width equal to the step, the slices cover query positions 0 … query_size-1 exactly once, in order |
| `BatchedSearch.OverlapDuplicates` | src/model_training/utils/validation.py:32-33 | a step below the slice width, with more queries than the step, searches query `step` twice (at output rows step and min(width, query_size)) and returns more rows than queries |
| `BatchedSearch.SkipMissing` | src/model_training/utils/validation.py:32-33 | a step above the slice width, with more queries than the width, never searches query `width` and returns fewer rows than queries |
| `BatchedSearch.BatchSizeInvariant` | src/model_training/utils/validation.py:32-39 | with slices `n_batches` wide and at least one query, every positive `n_batches` gives the same result as one search over all queries (output row q is query q's hits), including the same errors |
| `BatchedSearch.AsWrittenNotBatchInvariant` | src/model_training/utils/validation.py:33 | as written, with equal widths and k > 0, any positive `n_batches` other than 32, with more queries than min(n_batches, 32), returns a number of rows different from the number of queries |
| `Aggregation.GetResultsAsWritten` | src/model_training/utils/validation.py:45-47 | `_get_results` as written fails on every input with the TypeError raised for the unknown keyword `strics` |
| `Aggregation.GetResults` | src/model_training/utils/validation.py:43-52 | the nested loops build exactly `Aggregate`: per query position, an empty map filled pair by pair with str(row) → score for every row other than -1, stored under the query's id; ids running out fail with IndexError, unequal array lengths with the strict pairing's error |
| `Aggregation.CollectPastIds` | src/model_training/utils/validation.py:48 | the outer loop succeeds exactly when there is an id for every position it reaches, and otherwise fails with IndexError |
| `Aggregation.AggregateOk` | src/model_training/utils/validation.py:45-48 | aggregation succeeds exactly when the score and row arrays have equal length and there are at least that many query ids |
| `Aggregation.RowMapKeys` | src/model_training/utils/validation.py:49-51 | a key is in a query's map exactly when it is str(r) for some r other than -1 among that query's paired rows |
| `Aggregation.NoSentinelEntry` | src/model_training/utils/validation.py:50 | no query's map has the key "-1": no entry comes from the sentinel row |
| `Aggregation.RowMapLast` | src/model_training/utils/validation.py:49-51 | the entry for a row holds the score paired with the row's last occurrence, so a later duplicate row overwrites an earlier one |
| `Aggregation.RowMapSize` | src/model_training/utils/validation.py:49-51 | a query's map has at most as many keys as non-sentinel pairs, and no more than the pairs; with distinct rows, exactly one key per non-sentinel pair |
| `Aggregation.CollectKeys` | src/model_training/utils/validation.py:45-48 | the result has an entry for exactly the ids of the positions handled |
| `Aggregation.CollectLast` | src/model_training/utils/validation.py:48-51 | a query id's entry is the map built from its last position, so a later duplicate id overwrites an earlier one |
| `Validator.QueryEntryOf` | src/model_training/utils/validation.py:49-51 | aggregating one query's search row gives exactly min(k, corpus size) keys, one str(r) per valid row r returned, each holding r's inner product with the query, and no other key; nothing is padded |
| `Validator.Encode` | src/model_training/utils/validation.py:13-16 | `_encode` returns the query embeddings and the corpus embeddings, one row per query text and one row per corpus text |
| `Validator.Search` | src/model_training/utils/validation.py:56-73 | the pipeline encodes, indexes, searches in slices and aggregates, returning `Evaluate` of the two embeddings: the result map beside the corpus embeddings, or the first error |
| `Validator.SearchAsWrittenPipeline` | src/model_training/utils/validation.py:56-73 | the pipeline as written never succeeds: it fails with the error of the 32-wide sliced search, or, when that search succeeds, with the TypeError of `_get_results` |
| `Validator.EvaluateUnsliced` | src/model_training/utils/validation.py:68-72 | with equal widths, k > 0, at least one query and an id per query, the pipeline with any positive `n_batches` aggregates the hits of a single search over all queries |
| `Validator.CollectHits` | src/model_training/utils/validation.py:69-72 | aggregating one search's hits gives an entry for exactly the query ids; the entry of an id whose last position is i is query i's entry as in `QueryEntryOf` |
| `Validator.EvaluateResults` | src/model_training/utils/validation.py:56-73 | with equal widths, k > 0, positive `n_batches`, at least one query and an id per query, the pipeline succeeds and returns the corpus embeddings unchanged; it has one entry per distinct query id, and each entry holds exactly min(k, corpus size) rows — the top rows by inner product, keyed by str(row) with their scores |

## Left out

- The encoder (`model.encode_queries`, `model.encode_corpus`, validation.py:16) is a foreign model. `Validator.Search` takes two functions of type `Validator.Encoder` in its place.
  - That type promises one row per text, all rows of one width within a matrix.
  - It does not promise that the query and corpus widths agree. The search checks that, as the index's `assert d == self.d` does.
  - The query ids are passed separately. Nothing ties their number to the number of query texts; `_get_results` fails with IndexError when the ids run out.
- Validator.Search: composes the corrected `_search` (slices `n_batches` wide) and the corrected `_get_results` (strict pairing), not the code as written. It matches the source's `_search` at the default `n_batches = 32`. The source's own pipeline always fails in `_get_results`; `Validator.SearchAsWrittenPipeline` models that.
- The faiss library itself is not modelled: `index_factory`, `train`, `add` and `search` are given only the exact flat inner-product meaning above.
  - faiss breaks ties among equal scores with its heap's own order. The model breaks them by ascending row.
  - faiss also refuses a trained or added matrix whose width is not the index's. `FlatIndex.Index.Train` and `FlatIndex.Index.Add` require the width instead, and their only caller, `FlatIndex.IndexCorpus`, always meets it.
- Floating point is left out. The float32 cast (validation.py:22, :35) and `float(score)` (:51) are the identity, and scores are integers. The pad score faiss gives an unfilled slot (-FLT_MAX) is an integer constant of that value.
- Python dicts keep insertion order; a Dafny `map` has none. In `_get_results` (validation.py:48-51) that order is rank order inside a query's map and first-occurrence order of the ids outside it. The model drops it, and nothing in the code reads it.
- Query ids are taken as strings already. `str()` of a non-string id is not modelled.
- Python's `range` with a non-integer step, and numpy's handling of non-2-D inputs, are outside the model.
- The `tqdm` progress bar and the `@log()` decorator (src/general_utils/logging.py) only log.
- Determinism of repeated calls is not a separate lemma. Every step is a function or a method proved equal to one, so equal inputs give equal results.
- The model does not claim that a query equal to a corpus row is its own top hit. For an unnormalised inner product that is false, and the code performs no normalisation. `FlatIndex.TopHitMaximal` states what holds.
- src/general_utils/s3.py and src/general_utils/s3_utils.py do object-store I/O.
- src/rag_system/utils/bedrock.py is a network call. Its prompt helpers are a string join and a `format`.
- src/general_utils/flagembedding.py does HTTP search and model loading.
- src/model_training/utils/opensearch.py does cluster I/O.
- src/data_processing/utils/utils.py does random sampling through pandas.
- src/general_utils/__init__.py only re-exports. The `config` module it names is not part of this model.

## Findings

| source | as written | input that shows it | evidently intended | confidence | as-written member | corrected member |
|---|---|---|---|---|---|---|
| src/model_training/utils/validation.py:33 | each slice ends at `min(i + 32, query_size)` while the starts advance by `n_batches` | `n_batches = 16` with 33 queries: slices [0,32), [16,33), [32,33) return 50 rows, and query 16 appears twice; `n_batches = 64` with 40 queries: only [0,32) is searched, so queries 32–39 are missing | `j = min(i + n_batches, query_size)`: slices partition the queries, and the output does not depend on `n_batches` | not executed; high | `BatchedSearch.SearchAsWritten` with `BatchedSearch.AsWrittenNotBatchInvariant` | `BatchedSearch.SearchBatches` with `BatchedSearch.BatchSizeInvariant` |
| src/model_training/utils/validation.py:46 | `zip(all_scores, all_indices, strict=False, strics=True)` | any call, e.g. one query and k = 1: `zip()` raises TypeError for the unexpected keyword `strics` before the loop starts | `zip(all_scores, all_indices, strict=True)`: the score and row arrays paired row by row, and unequal lengths rejected | not executed; high | `Aggregation.GetResultsAsWritten` | `Aggregation.GetResults` with `Aggregation.AggregateOk` |
