/**
 * Validator._get_results: for each query position, in order, a map from str(row)
 * to score over that query's (score, row) pairs, skipping row -1, stored under the
 * query's id. A later pair with the same row, or a later query with the same id,
 * overwrites the earlier entry.
 */
module Aggregation {
  import opened Outcomes
  import opened Ints
  import opened FlatIndex
  import opened Decimal

  /** query id -> (str(row) -> score) */
  type ResultMap = map<string, map<string, int>>

  /** The entries the inner loop records from the first n pairs of one query. */
  function RowMap(scores: seq<int>, rows: seq<int>, n: nat): map<string, int>
    requires n <= |scores| && n <= |rows|
  {
    if n == 0 then map[]
    else
      var m := RowMap(scores, rows, n - 1);
      if rows[n - 1] != NoRow then m[IntToString(rows[n - 1]) := scores[n - 1]] else m
  }

  /** One query's entries: the inner zip(strict=False) stops at the shorter of the two rows. */
  function QueryMap(scores: seq<int>, rows: seq<int>): map<string, int> {
    RowMap(scores, rows, Min(|scores|, |rows|))
  }

  /** The results after the outer loop has handled query positions 0 .. n-1. */
  function Collect(allScores: seq<seq<int>>, allRows: seq<seq<int>>, ids: seq<string>, n: nat): Result<ResultMap>
    requires n <= |allScores| && n <= |allRows|
  {
    if n == 0 then Ok(map[])
    else
      var m :- Collect(allScores, allRows, ids, n - 1);
      if n - 1 >= |ids| then Err(QueryIdOutOfRange)
      else Ok(m[ids[n - 1] := QueryMap(allScores[n - 1], allRows[n - 1])])
  }

  /**
   * The outer zip, read as strict: it pairs the score and row arrays position by
   * position and, once the shorter is used up, raises if they differ in length.
   */
  function Aggregate(allScores: seq<seq<int>>, allRows: seq<seq<int>>, ids: seq<string>): Result<ResultMap> {
    var m :- Collect(allScores, allRows, ids, Min(|allScores|, |allRows|));
    if |allScores| != |allRows| then Err(LengthMismatch) else Ok(m)
  }

  // ---------------------------------------------------------------- the loops

  /** Validator._get_results as written: zip() rejects the keyword `strics` before any work. */
  method GetResultsAsWritten(allScores: seq<seq<int>>, allIndices: seq<seq<int>>, ids: seq<string>)
    returns (res: Result<ResultMap>)
    ensures res.Err? && res.error == UnexpectedKeyword
  {
    return Err(UnexpectedKeyword);
  }

  /** Validator._get_results with the outer zip strict. */
  method GetResults(allScores: seq<seq<int>>, allIndices: seq<seq<int>>, ids: seq<string>)
    returns (res: Result<ResultMap>)
    ensures res == Aggregate(allScores, allIndices, ids)
  {
    var results: ResultMap := map[];
    var n := Min(|allScores|, |allIndices|);
    var idx := 0;
    while idx < n
      invariant 0 <= idx <= n
      invariant Collect(allScores, allIndices, ids, idx) == Ok(results)
    {
      if idx >= |ids| {
        CollectPastIds(allScores, allIndices, ids, n);
        return Err(QueryIdOutOfRange);
      }
      var scores, indices := allScores[idx], allIndices[idx];
      var key := ids[idx];
      ghost var before := results;
      results := results[key := map[]];
      var p := 0;
      var m := Min(|scores|, |indices|);
      while p < m
        invariant 0 <= p <= m
        invariant results == before[key := RowMap(scores, indices, p)]
      {
        if indices[p] != NoRow {
          results := results[key := results[key][IntToString(indices[p]) := scores[p]]];
        }
        p := p + 1;
      }
      idx := idx + 1;
    }
    if |allScores| != |allIndices| {
      return Err(LengthMismatch);
    }
    return Ok(results);
  }

  // ---------------------------------------------------------------- lemmas

  /** The outer loop succeeds exactly while there is an id for every position it reaches. */
  lemma {:induction false} CollectPastIds(allScores: seq<seq<int>>, allRows: seq<seq<int>>, ids: seq<string>, n: nat)
    requires n <= |allScores| && n <= |allRows|
    ensures Collect(allScores, allRows, ids, n).Ok? <==> n <= |ids|
    ensures n > |ids| ==> Collect(allScores, allRows, ids, n) == Err(QueryIdOutOfRange)
  {
    if n > 0 {
      CollectPastIds(allScores, allRows, ids, n - 1);
    }
  }

  /** Aggregation succeeds exactly when the arrays are row-aligned and every row has an id. */
  lemma AggregateOk(allScores: seq<seq<int>>, allRows: seq<seq<int>>, ids: seq<string>)
    ensures Aggregate(allScores, allRows, ids).Ok? <==> |allScores| == |allRows| && |allScores| <= |ids|
  {
    CollectPastIds(allScores, allRows, ids, Min(|allScores|, |allRows|));
  }

  /** A key is recorded exactly when some pair carries a row other than -1 whose str() it is. */
  lemma {:induction false} RowMapKeys(scores: seq<int>, rows: seq<int>, n: nat)
    requires n <= |scores| && n <= |rows|
    ensures forall key :: key in RowMap(scores, rows, n) <==>
      exists j :: 0 <= j < n && rows[j] != NoRow && key == IntToString(rows[j])
  {
    if n > 0 {
      RowMapKeys(scores, rows, n - 1);
    }
  }

  /** No entry comes from the sentinel row: the key "-1" never appears. */
  lemma NoSentinelEntry(scores: seq<int>, rows: seq<int>, n: nat)
    requires n <= |scores| && n <= |rows|
    ensures IntToString(NoRow) !in RowMap(scores, rows, n)
    ensures "-1" !in RowMap(scores, rows, n)
  {
    RowMapKeys(scores, rows, n);
    forall j | 0 <= j < n && rows[j] != NoRow ensures IntToString(rows[j]) != IntToString(NoRow) {
      IntToStringInjective(rows[j], NoRow);
    }
    assert IntToString(NoRow) == "-1";
  }

  /** A row's entry holds the score paired with its last occurrence. */
  lemma {:induction false} RowMapLast(scores: seq<int>, rows: seq<int>, n: nat, j: nat)
    requires j < n <= |scores| && n <= |rows| && rows[j] != NoRow
    requires forall j' :: j < j' < n ==> rows[j'] != rows[j]
    ensures IntToString(rows[j]) in RowMap(scores, rows, n)
    ensures RowMap(scores, rows, n)[IntToString(rows[j])] == scores[j]
  {
    if j < n - 1 {
      RowMapLast(scores, rows, n - 1, j);
      IntToStringInjective(rows[n - 1], rows[j]);
    }
  }

  /** How many of the first n rows are real rows. */
  function CountValid(rows: seq<int>, n: nat): nat
    requires n <= |rows|
  {
    if n == 0 then 0 else CountValid(rows, n - 1) + (if rows[n - 1] != NoRow then 1 else 0)
  }

  /** A query never gets more entries than pairs; with distinct rows, one per real row. */
  lemma {:induction false} RowMapSize(scores: seq<int>, rows: seq<int>, n: nat)
    requires n <= |scores| && n <= |rows|
    ensures |RowMap(scores, rows, n)| <= CountValid(rows, n) <= n
    ensures (forall a, b :: 0 <= a < b < n && rows[a] != NoRow ==> rows[a] != rows[b]) ==>
      |RowMap(scores, rows, n)| == CountValid(rows, n)
  {
    if n > 0 {
      RowMapSize(scores, rows, n - 1);
      if (forall a, b :: 0 <= a < b < n && rows[a] != NoRow ==> rows[a] != rows[b]) && rows[n - 1] != NoRow {
        RowMapKeys(scores, rows, n - 1);
        forall j | 0 <= j < n - 1 && rows[j] != NoRow ensures IntToString(rows[j]) != IntToString(rows[n - 1]) {
          IntToStringInjective(rows[j], rows[n - 1]);
        }
        assert IntToString(rows[n - 1]) !in RowMap(scores, rows, n - 1);
      }
    }
  }

  /** The ids of the results are exactly the ids of the positions handled. */
  lemma {:induction false} CollectKeys(allScores: seq<seq<int>>, allRows: seq<seq<int>>, ids: seq<string>, n: nat)
    requires n <= |allScores| && n <= |allRows| && n <= |ids|
    ensures Collect(allScores, allRows, ids, n).Ok?
    ensures forall id :: id in Collect(allScores, allRows, ids, n).value <==>
      exists i :: 0 <= i < n && ids[i] == id
  {
    if n > 0 {
      CollectKeys(allScores, allRows, ids, n - 1);
    }
  }

  /** A query id's entry is the map built for its last position. */
  lemma {:induction false} CollectLast(allScores: seq<seq<int>>, allRows: seq<seq<int>>, ids: seq<string>, n: nat, i: nat)
    requires i < n <= |allScores| && n <= |allRows| && n <= |ids|
    requires forall i' :: i < i' < n ==> ids[i'] != ids[i]
    ensures Collect(allScores, allRows, ids, n).Ok?
    ensures ids[i] in Collect(allScores, allRows, ids, n).value
    ensures Collect(allScores, allRows, ids, n).value[ids[i]] == QueryMap(allScores[i], allRows[i])
  {
    CollectKeys(allScores, allRows, ids, n);
    if i < n - 1 {
      CollectLast(allScores, allRows, ids, n - 1, i);
    }
  }
}
