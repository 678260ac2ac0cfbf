/**
 * Validator.search: encode the queries and the corpus, index the corpus, search
 * the queries in slices and aggregate the hits into query id -> (str(row) -> score),
 * returning the corpus embeddings beside the results.
 */
module Validator {
  import opened Outcomes
  import opened Ints
  import opened FlatIndex
  import opened BatchedSearch
  import opened Aggregation
  import opened Decimal

  /** An embedding model's encoder: ordered texts to one row per text, all of one width. */
  type Encoder = e: seq<string> -> Matrix | forall t :: |e(t).rows| == |t|
    witness t => Mat(0, seq(|t|, _ => []))

  /** Validator._encode: the query embeddings and the corpus embeddings. */
  function Encode(encodeQueries: Encoder, encodeCorpus: Encoder, queriesText: seq<string>, corpusText: seq<string>)
    : (r: (Matrix, Matrix))
    ensures |r.0.rows| == |queriesText| && |r.1.rows| == |corpusText|
  {
    (encodeQueries(queriesText), encodeCorpus(corpusText))
  }

  /** What the pipeline returns for the given embeddings, query ids and parameters. */
  function Evaluate(queries: Matrix, corpus: Matrix, ids: seq<string>, k: int, nBatches: int): Result<(ResultMap, Matrix)> {
    var hits :- SearchBatchesSpec(corpus.rows, corpus.dim, queries, k, nBatches, if nBatches > 0 then nBatches else 0);
    var results :- Aggregate(hits.scores, hits.rows, ids);
    Ok((results, corpus))
  }

  method Search(encodeQueries: Encoder, encodeCorpus: Encoder, queriesText: seq<string>, corpusText: seq<string>,
                ids: seq<string>, k: int := 20, nBatches: int := 32)
    returns (res: Result<(ResultMap, Matrix)>)
    ensures var (q, c) := Encode(encodeQueries, encodeCorpus, queriesText, corpusText);
      res == Evaluate(q, c, ids, k, nBatches)
  {
    var (queriesEmbeddings, corpusEmbeddings) := Encode(encodeQueries, encodeCorpus, queriesText, corpusText);
    var index := IndexCorpus(corpusEmbeddings);
    var hits := SearchBatches(queriesEmbeddings, index, k, nBatches);
    if hits.Err? {
      return Err(hits.error);
    }
    var results := GetResults(hits.value.scores, hits.value.rows, ids);
    if results.Err? {
      return Err(results.error);
    }
    return Ok((results.value, corpusEmbeddings));
  }

  /**
   * Validator.search as written: `_search` with 32-wide slices, then `_get_results`,
   * whose zip() call raises TypeError. The pipeline never returns a result: it fails
   * with the sliced search's error, or else with that TypeError.
   */
  method SearchAsWrittenPipeline(encodeQueries: Encoder, encodeCorpus: Encoder, queriesText: seq<string>,
                                 corpusText: seq<string>, ids: seq<string>, k: int := 20, nBatches: int := 32)
    returns (res: Result<(ResultMap, Matrix)>)
    ensures res.Err?
    ensures var (q, c) := Encode(encodeQueries, encodeCorpus, queriesText, corpusText);
      var hits := SearchBatchesSpec(c.rows, c.dim, q, k, nBatches, SliceWidth);
      res.error == if hits.Err? then hits.error else UnexpectedKeyword
  {
    var (queriesEmbeddings, corpusEmbeddings) := Encode(encodeQueries, encodeCorpus, queriesText, corpusText);
    var index := IndexCorpus(corpusEmbeddings);
    var hits := SearchAsWritten(queriesEmbeddings, index, k, nBatches);
    if hits.Err? {
      return Err(hits.error);
    }
    var results := GetResultsAsWritten(hits.value.scores, hits.value.rows, ids);
    return Err(results.error);
  }

  // ---------------------------------------------------------------- end to end

  /**
   * One query's entry in the results: exactly min(k, |c|) keys, one per valid row
   * the search returns for qv, each str(row) holding that row's inner product with qv.
   */
  ghost predicate QueryEntry(m: map<string, int>, qv: Vector, c: seq<Vector>, k: nat) {
    var t := TopRows(qv, c, k);
    && |m| == Min(k, |c|)
    && (forall j :: 0 <= j < k && j < |c| ==> IntToString(t[j]) in m && m[IntToString(t[j])] == Score(qv, c, t[j]))
    && (forall key :: key in m ==> exists j :: 0 <= j < k && j < |c| && key == IntToString(t[j]))
  }

  lemma {:induction false} CountValidPrefix(rows: seq<int>, n: nat, m: nat)
    requires m <= n <= |rows|
    requires forall j :: 0 <= j < n ==> (rows[j] != NoRow <==> j < m)
    ensures CountValid(rows, n) == m
  {
    if n > m {
      CountValidPrefix(rows, n - 1, m);
    } else if n > 0 {
      CountValidPrefix(rows, n - 1, m - 1);
    }
  }

  /** The entries aggregated from one query's search row are that query's QueryEntry. */
  lemma QueryEntryOf(scores: seq<int>, rows: seq<int>, qv: Vector, c: seq<Vector>, k: nat)
    requires rows == TopRows(qv, c, k) && |scores| == k
    requires forall j :: 0 <= j < k ==> scores[j] == Score(qv, c, rows[j])
    ensures QueryEntry(QueryMap(scores, rows), qv, c, k)
  {
    TopRowsShape(qv, c, k);
    TopRowsOrdered(qv, c, k);
    var m := QueryMap(scores, rows);
    assert m == RowMap(scores, rows, k);
    RowMapKeys(scores, rows, k);
    RowMapSize(scores, rows, k);
    CountValidPrefix(rows, k, Min(k, |c|));
    forall j | 0 <= j < k && j < |c| ensures IntToString(rows[j]) in m && m[IntToString(rows[j])] == scores[j] {
      RowMapLast(scores, rows, k, j);
    }
  }

  /** Sliced with any positive n_batches, the pipeline aggregates the hits of one unsliced search. */
  lemma EvaluateUnsliced(queries: Matrix, corpus: Matrix, ids: seq<string>, k: int, nBatches: int)
    requires queries.dim == corpus.dim && k > 0 && nBatches > 0
    requires |queries.rows| > 0 && |ids| >= |queries.rows|
    ensures Knn(corpus.rows, corpus.dim, queries, k).Ok?
    ensures var hits := Knn(corpus.rows, corpus.dim, queries, k).value;
      |hits.scores| == |hits.rows| == |queries.rows| &&
      Collect(hits.scores, hits.rows, ids, |queries.rows|).Ok? &&
      Evaluate(queries, corpus, ids, k, nBatches) == Ok((Collect(hits.scores, hits.rows, ids, |queries.rows|).value, corpus))
  {
    BatchSizeInvariant(corpus.rows, corpus.dim, queries, k, nBatches);
    var hits := Knn(corpus.rows, corpus.dim, queries, k).value;
    KnnShape(corpus.rows, corpus.dim, queries, k);
    AggregateOk(hits.scores, hits.rows, ids);
    CollectKeys(hits.scores, hits.rows, ids, |queries.rows|);
  }

  /** Aggregating one search's hits gives each query id the QueryEntry of its last position. */
  lemma CollectHits(queries: Matrix, corpus: Matrix, ids: seq<string>, k: int)
    requires queries.dim == corpus.dim && k > 0 && |ids| >= |queries.rows|
    ensures Knn(corpus.rows, corpus.dim, queries, k).Ok?
    ensures var hits := Knn(corpus.rows, corpus.dim, queries, k).value;
      |hits.scores| == |hits.rows| == |queries.rows| &&
      var r := Collect(hits.scores, hits.rows, ids, |queries.rows|);
      r.Ok? &&
      (forall id :: id in r.value <==> exists i :: 0 <= i < |queries.rows| && ids[i] == id) &&
      forall i :: 0 <= i < |queries.rows| && (forall i' :: i < i' < |queries.rows| ==> ids[i'] != ids[i]) ==>
        ids[i] in r.value && QueryEntry(r.value[ids[i]], queries.rows[i], corpus.rows, k)
  {
    var n := |queries.rows|;
    var hits := Knn(corpus.rows, corpus.dim, queries, k).value;
    CollectKeys(hits.scores, hits.rows, ids, n);
    var res := Collect(hits.scores, hits.rows, ids, n).value;
    forall i | 0 <= i < n && (forall i' :: i < i' < n ==> ids[i'] != ids[i])
      ensures ids[i] in res && QueryEntry(res[ids[i]], queries.rows[i], corpus.rows, k)
    {
      KnnRow(corpus.rows, corpus.dim, queries, k, i);
      CollectLast(hits.scores, hits.rows, ids, n, i);
      QueryEntryOf(hits.scores[i], hits.rows[i], queries.rows[i], corpus.rows, k);
    }
  }

  /**
   * With matching widths, k > 0, n_batches > 0, at least one query and an id for each,
   * the pipeline succeeds, returns the corpus embeddings, has an entry for exactly
   * the query ids, and the entry of a query id whose last position is i is the
   * QueryEntry of query i, whatever n_batches is.
   */
  lemma EvaluateResults(queries: Matrix, corpus: Matrix, ids: seq<string>, k: int, nBatches: int)
    requires queries.dim == corpus.dim && k > 0 && nBatches > 0
    requires |queries.rows| > 0 && |ids| >= |queries.rows|
    ensures Evaluate(queries, corpus, ids, k, nBatches).Ok?
    ensures Evaluate(queries, corpus, ids, k, nBatches).value.1 == corpus
    ensures var res := Evaluate(queries, corpus, ids, k, nBatches).value.0;
      forall id :: id in res <==> exists i :: 0 <= i < |queries.rows| && ids[i] == id
    ensures var res := Evaluate(queries, corpus, ids, k, nBatches).value.0;
      forall i :: 0 <= i < |queries.rows| && (forall i' :: i < i' < |queries.rows| ==> ids[i'] != ids[i]) ==>
        ids[i] in res && QueryEntry(res[ids[i]], queries.rows[i], corpus.rows, k)
  {
    EvaluateUnsliced(queries, corpus, ids, k, nBatches);
    CollectHits(queries, corpus, ids, k);
  }
}
