/**
 * Validator._search: the queries are walked in slices starting at 0, n_batches,
 * 2*n_batches, ... below the query count; each slice is searched for k hits per
 * query and the per-slice score and row arrays are concatenated in order.
 * The slice width is a parameter here: the source uses the literal 32 for it.
 */
module BatchedSearch {
  import opened Outcomes
  import opened Ints
  import opened FlatIndex

  /** The width `_search` gives every slice, whatever n_batches is. */
  const SliceWidth: nat := 32

  /** Slices [i', min(i' + width, qs)) for the starts i' = i, i + step, i + 2*step, ... below qs. */
  function Batches(qs: nat, step: nat, width: nat, i: nat): seq<(nat, nat)>
    requires step > 0
    decreases qs - i
  {
    if i >= qs then [] else [(i, Min(i + width, qs))] + Batches(qs, step, width, i + step)
  }

  /** Every slice lies within [i, qs). */
  lemma {:induction false} BatchesBounded(qs: nat, step: nat, width: nat, i: nat)
    requires step > 0
    ensures forall b :: b in Batches(qs, step, width, i) ==> i <= b.0 <= b.1 <= qs
    decreases qs - i
  {
    if i < qs {
      BatchesBounded(qs, step, width, i + step);
    }
  }

  /** The positions s, s+1, ..., e-1. */
  function Range(s: nat, e: nat): (r: seq<nat>)
    ensures |r| == if s <= e then e - s else 0
    ensures forall t :: 0 <= t < |r| ==> r[t] == s + t
  {
    if s <= e then seq(e - s, t requires 0 <= t < e - s => s + t) else []
  }

  /** The query positions the slices search, in output order. */
  function Gather(bs: seq<(nat, nat)>): seq<nat> {
    if bs == [] then [] else Range(bs[0].0, bs[0].1) + Gather(bs[1..])
  }

  /** Slices within [lo, hi) gather positions within [lo, hi). */
  lemma {:induction false} GatherBounded(bs: seq<(nat, nat)>, lo: nat, hi: nat)
    requires forall b :: b in bs ==> lo <= b.0 && b.1 <= hi
    ensures forall x :: x in Gather(bs) ==> lo <= x < hi
  {
    if bs != [] {
      assert bs[0] in bs;
      assert forall b :: b in bs[1..] ==> b in bs;
      GatherBounded(bs[1..], lo, hi);
    }
  }

  /** numpy.concatenate(arrays, axis=0) of a non-empty list of row arrays. */
  function Concat(xs: seq<seq<seq<int>>>): (r: seq<seq<int>>)
    ensures forall a, x :: a in xs && x in a ==> x in r
    ensures forall x :: x in r ==> exists a :: a in xs && x in a
  {
    if xs == [] then [] else xs[0] + Concat(xs[1..])
  }

  /** The hits the index gives for the queries at positions g, one output row per position. */
  function Searched(q: Matrix, c: seq<Vector>, k: nat, g: seq<nat>): Hits
    requires forall x :: x in g ==> x < |q.rows|
  {
    Hits(seq(|g|, j requires 0 <= j < |g| => assert g[j] in g; TopScores(q.rows[g[j]], c, k)),
         seq(|g|, j requires 0 <= j < |g| => assert g[j] in g; TopRows(q.rows[g[j]], c, k)))
  }

  /**
   * What the slicing loop returns over an index holding rows c of width d: range()
   * refuses a zero step; no slice at all (no queries, or a negative step) leaves
   * nothing to concatenate; otherwise the first slice's search raises the index's
   * own errors, or every slice succeeds.
   */
  function SearchBatchesSpec(c: seq<Vector>, d: nat, q: Matrix, k: int, step: int, width: nat): Result<Hits> {
    if step == 0 then Err(ZeroStep)
    else if step < 0 || |q.rows| == 0 then Err(NothingToConcatenate)
    else if q.dim != d then Err(DimensionMismatch)
    else if k <= 0 then Err(InvalidTopK)
    else
      var g := Gather(Batches(|q.rows|, step, width, 0));
      BatchesBounded(|q.rows|, step, width, 0);
      GatherBounded(Batches(|q.rows|, step, width, 0), 0, |q.rows|);
      Ok(Searched(q, c, k, g))
  }

  // ---------------------------------------------------------------- the loop

  method SearchBatchesWith(queries: Matrix, index: Index, k: int, nBatches: int, width: nat)
    returns (res: Result<Hits>)
    ensures res == SearchBatchesSpec(index.rows, index.dim, queries, k, nBatches, width)
  {
    var querySize := |queries.rows|;
    if nBatches == 0 {
      return Err(ZeroStep);
    }
    var allScores: seq<seq<seq<int>>> := [];
    var allIndices: seq<seq<seq<int>>> := [];
    ghost var done: seq<(nat, nat)> := [];
    if nBatches > 0 {
      // with a negative step, range(0, querySize, nBatches) is empty
      var i: nat := 0;
      while i < querySize
        invariant Batches(querySize, nBatches, width, 0) == done + Batches(querySize, nBatches, width, i)
        invariant done == [] <==> allScores == []
        invariant done == [] ==> allIndices == []
        invariant done != [] ==> Accumulated(queries, index.rows, index.dim, k, done, allScores, allIndices)
        decreases querySize - i
      {
        var j := Min(i + width, querySize);
        var batch: Matrix := Mat(queries.dim, queries.rows[i..j]);
        var r := index.Search(batch, k);
        if r.Err? {
          SliceError(index.rows, index.dim, queries, k, nBatches, width, i, j);
          return Err(r.error);
        }
        AccumulateStep(queries, index.rows, index.dim, k, done, allScores, allIndices, i, j, r.value);
        BatchesStep(querySize, nBatches, width, i, done);
        allScores := allScores + [r.value.scores];
        allIndices := allIndices + [r.value.rows];
        done := done + [(i, j)];
        i := i + nBatches;
      }
      assert done == Batches(querySize, nBatches, width, 0);
    }
    if allScores == [] {
      return Err(NothingToConcatenate);
    }
    Finished(index.rows, index.dim, queries, k, nBatches, width, done, allScores, allIndices);
    res := Ok(Hits(Concat(allScores), Concat(allIndices)));
  }

  /** Validator._search as written: every slice is 32 queries wide. */
  method SearchAsWritten(queries: Matrix, index: Index, k: int, nBatches: int) returns (res: Result<Hits>)
    ensures res == SearchBatchesSpec(index.rows, index.dim, queries, k, nBatches, SliceWidth)
  {
    res := SearchBatchesWith(queries, index, k, nBatches, SliceWidth);
  }

  /** Validator._search with each slice n_batches wide, as the step intends. */
  method SearchBatches(queries: Matrix, index: Index, k: int, nBatches: int) returns (res: Result<Hits>)
    ensures res == SearchBatchesSpec(index.rows, index.dim, queries, k, nBatches, if nBatches > 0 then nBatches else 0)
  {
    res := SearchBatchesWith(queries, index, k, nBatches, if nBatches > 0 then nBatches else 0);
  }

  // ---------------------------------------------------------------- loop lemmas

  /** The concatenated arrays so far are the hits of the positions the slices done cover. */
  ghost predicate Accumulated(q: Matrix, c: seq<Vector>, d: nat, k: int, done: seq<(nat, nat)>,
                              allScores: seq<seq<seq<int>>>, allIndices: seq<seq<seq<int>>>)
  {
    && q.dim == d && k > 0
    && (forall x :: x in Gather(done) ==> x < |q.rows|)
    && Hits(Concat(allScores), Concat(allIndices)) == Searched(q, c, k, Gather(done))
  }

  /** Doing the slice at i moves it from the slices to come to the slices done. */
  lemma BatchesStep(qs: nat, step: nat, width: nat, i: nat, done: seq<(nat, nat)>)
    requires step > 0 && i < qs
    ensures done + Batches(qs, step, width, i) == (done + [(i, Min(i + width, qs))]) + Batches(qs, step, width, i + step)
  {
  }

  /** A failing slice search fails with the error the whole sliced search reports. */
  lemma SliceError(c: seq<Vector>, d: nat, q: Matrix, k: int, step: int, width: nat, i: nat, j: nat)
    requires step > 0 && i < |q.rows| && i <= j <= |q.rows|
    requires Knn(c, d, Mat(q.dim, q.rows[i..j]), k).Err?
    ensures SearchBatchesSpec(c, d, q, k, step, width) == Err(Knn(c, d, Mat(q.dim, q.rows[i..j]), k).error)
  {
  }

  /** Once every slice is done, the concatenated arrays are the sliced search's result. */
  lemma Finished(c: seq<Vector>, d: nat, q: Matrix, k: int, step: int, width: nat, done: seq<(nat, nat)>,
                 allScores: seq<seq<seq<int>>>, allIndices: seq<seq<seq<int>>>)
    requires step > 0 && done == Batches(|q.rows|, step, width, 0) && done != []
    requires Accumulated(q, c, d, k, done, allScores, allIndices)
    ensures SearchBatchesSpec(c, d, q, k, step, width) == Ok(Hits(Concat(allScores), Concat(allIndices)))
  {
  }

  lemma AccumulateStep(q: Matrix, c: seq<Vector>, d: nat, k: int, done: seq<(nat, nat)>,
                       allScores: seq<seq<seq<int>>>, allIndices: seq<seq<seq<int>>>,
                       i: nat, j: nat, h: Hits)
    requires i <= j <= |q.rows|
    requires done != [] ==> Accumulated(q, c, d, k, done, allScores, allIndices)
    requires done == [] ==> allScores == [] && allIndices == []
    requires Knn(c, d, Mat(q.dim, q.rows[i..j]), k) == Ok(h)
    ensures Accumulated(q, c, d, k, done + [(i, j)], allScores + [h.scores], allIndices + [h.rows])
  {
    SearchedSlice(q, c, k, i, j);
    ConcatAppend(allScores, h.scores);
    ConcatAppend(allIndices, h.rows);
    GatherAppend(done, (i, j));
    SearchedAppend(q, c, k, Gather(done), Range(i, j));
  }

  lemma {:induction false} ConcatAppend(xs: seq<seq<seq<int>>>, x: seq<seq<int>>)
    ensures Concat(xs + [x]) == Concat(xs) + x
  {
    if xs != [] {
      assert (xs + [x])[1..] == xs[1..] + [x];
      ConcatAppend(xs[1..], x);
    }
  }

  lemma {:induction false} GatherAppend(bs: seq<(nat, nat)>, b: (nat, nat))
    ensures Gather(bs + [b]) == Gather(bs) + Range(b.0, b.1)
  {
    if bs == [] {
      assert [b][1..] == [];
    } else {
      assert (bs + [b])[1..] == bs[1..] + [b];
      GatherAppend(bs[1..], b);
    }
  }

  lemma SearchedAppend(q: Matrix, c: seq<Vector>, k: nat, g1: seq<nat>, g2: seq<nat>)
    requires forall x :: x in g1 ==> x < |q.rows|
    requires forall x :: x in g2 ==> x < |q.rows|
    ensures forall x :: x in g1 + g2 ==> x < |q.rows|
    ensures Searched(q, c, k, g1 + g2) ==
      Hits(Searched(q, c, k, g1).scores + Searched(q, c, k, g2).scores,
           Searched(q, c, k, g1).rows + Searched(q, c, k, g2).rows)
  {
    var a, b, ab := Searched(q, c, k, g1), Searched(q, c, k, g2), Searched(q, c, k, g1 + g2);
    assert ab.scores == a.scores + b.scores;
    assert ab.rows == a.rows + b.rows;
  }

  /** Searching the slice [i, j) gives the hits of the queries at positions i .. j-1. */
  lemma SearchedSlice(q: Matrix, c: seq<Vector>, k: int, i: nat, j: nat)
    requires i <= j <= |q.rows| && k > 0
    ensures forall x :: x in Range(i, j) ==> x < |q.rows|
    ensures Knn(c, q.dim, Mat(q.dim, q.rows[i..j]), k) == Ok(Searched(q, c, k, Range(i, j)))
  {
    var s := Knn(c, q.dim, Mat(q.dim, q.rows[i..j]), k);
    var t := Searched(q, c, k, Range(i, j));
    assert s.value.scores == t.scores;
    assert s.value.rows == t.rows;
  }

  // ---------------------------------------------------------------- slicing lemmas

  /**
   * The slice starts are i, i + step, ... while below qs, and every slice ends
   * width queries later or at qs, whichever comes first.
   */
  lemma {:induction false} BatchesShape(qs: nat, step: nat, width: nat, i: nat)
    requires step > 0
    ensures var bs := Batches(qs, step, width, i);
      (i < qs <==> |bs| > 0) &&
      (|bs| > 0 ==> bs[0].0 == i && bs[|bs| - 1].0 + step >= qs) &&
      (forall t :: 0 <= t < |bs| ==> bs[t].0 < qs && bs[t].1 == Min(bs[t].0 + width, qs)) &&
      (forall t :: 0 <= t < |bs| - 1 ==> bs[t + 1].0 == bs[t].0 + step)
    decreases qs - i
  {
    if i < qs {
      BatchesShape(qs, step, width, i + step);
      var bs := Batches(qs, step, width, i);
      var rest := Batches(qs, step, width, i + step);
      assert bs == [(i, Min(i + width, qs))] + rest;
      forall t | 0 <= t < |bs| - 1 ensures bs[t + 1].0 == bs[t].0 + step {
        if t > 0 {
          assert bs[t] == rest[t - 1] && bs[t + 1] == rest[t];
        }
      }
    }
  }

  lemma {:induction false} PartitionFrom(qs: nat, step: nat, i: nat)
    requires step > 0 && i <= qs
    ensures Gather(Batches(qs, step, step, i)) == Range(i, qs)
    decreases qs - i
  {
    if i < qs {
      var m := Min(i + step, qs);
      var bs := Batches(qs, step, step, i);
      assert bs[1..] == Batches(qs, step, step, i + step);
      if i + step <= qs {
        PartitionFrom(qs, step, i + step);
      }
      assert Range(i, m) + Range(m, qs) == Range(i, qs);
    }
  }

  /** With the slice width equal to the step, the slices cover 0 .. qs-1 once each, in order. */
  lemma Partition(qs: nat, step: nat)
    requires step > 0
    ensures Gather(Batches(qs, step, step, 0)) == Range(0, qs)
  {
    PartitionFrom(qs, step, 0);
  }

  lemma {:induction false} CoverAtLeast(qs: nat, step: nat, width: nat, i: nat)
    requires 0 < step <= width && i <= qs
    ensures |Gather(Batches(qs, step, width, i))| >= qs - i
    decreases qs - i
  {
    if i < qs {
      var bs := Batches(qs, step, width, i);
      assert bs[1..] == Batches(qs, step, width, i + step);
      if i + step <= qs {
        CoverAtLeast(qs, step, width, i + step);
      }
    }
  }

  lemma {:induction false} CoverAtMost(qs: nat, step: nat, width: nat, i: nat)
    requires 0 < step && width <= step && i <= qs
    ensures |Gather(Batches(qs, step, width, i))| <= qs - i
    decreases qs - i
  {
    if i < qs {
      var bs := Batches(qs, step, width, i);
      assert bs[1..] == Batches(qs, step, width, i + step);
      if i + step <= qs {
        CoverAtMost(qs, step, width, i + step);
      }
    }
  }

  /**
   * A step below the slice width makes slices overlap: query `step` is searched twice
   * (in the first slice and as the head of the second) and the output has more rows
   * than there are queries.
   */
  lemma OverlapDuplicates(qs: nat, step: nat, width: nat)
    requires 0 < step < width && step < qs
    ensures var g := Gather(Batches(qs, step, width, 0));
      |g| > qs && Min(width, qs) < |g| && g[step] == step && g[Min(width, qs)] == step
  {
    var m := Min(width, qs);
    var bs := Batches(qs, step, width, 0);
    var rest := Batches(qs, step, width, step);
    assert bs == [(0, m)] + rest;
    assert rest == [(step, Min(step + width, qs))] + Batches(qs, step, width, step + step);
    var g := Gather(bs);
    assert g == Range(0, m) + Gather(rest);
    assert Gather(rest) == Range(step, Min(step + width, qs)) + Gather(rest[1..]);
    CoverAtLeast(qs, step, width, step);
    assert g[m] == Gather(rest)[0] == step;
    assert g[step] == Range(0, m)[step] == step;
  }

  /**
   * A step above the slice width skips queries: query `width` is never searched and
   * the output has fewer rows than there are queries.
   */
  lemma SkipMissing(qs: nat, step: nat, width: nat)
    requires width < step && width < qs
    ensures var g := Gather(Batches(qs, step, width, 0));
      |g| < qs && width !in g
  {
    var bs := Batches(qs, step, width, 0);
    var rest := Batches(qs, step, width, step);
    assert bs == [(0, width)] + rest;
    var g := Gather(bs);
    assert g == Range(0, width) + Gather(rest);
    if step <= qs {
      CoverAtMost(qs, step, width, step);
    }
    BatchesBounded(qs, step, width, step);
    GatherBounded(rest, step, qs);
  }

  /**
   * Whatever the step and the slice width, every output row of a successful sliced
   * search holds k scores and k rows, each a corpus row or -1.
   */
  lemma SearchBatchesShape(c: seq<Vector>, d: nat, q: Matrix, k: int, step: int, width: nat)
    requires SearchBatchesSpec(c, d, q, k, step, width).Ok?
    ensures var h := SearchBatchesSpec(c, d, q, k, step, width).value;
      |h.scores| == |h.rows| &&
      forall i :: 0 <= i < |h.rows| ==>
        |h.scores[i]| == k && |h.rows[i]| == k && forall j :: 0 <= j < k ==> NoRow <= h.rows[i][j] < |c|
  {
    var bs := Batches(|q.rows|, step, width, 0);
    BatchesBounded(|q.rows|, step, width, 0);
    GatherBounded(bs, 0, |q.rows|);
    var g := Gather(bs);
    assert forall i :: 0 <= i < |g| ==> g[i] < |q.rows| by {
      forall i | 0 <= i < |g| ensures g[i] < |q.rows| {
        assert g[i] in g;
      }
    }
    forall i | 0 <= i < |g|
      ensures |TopRows(q.rows[g[i]], c, k)| == k
      ensures forall j :: 0 <= j < k ==> NoRow <= TopRows(q.rows[g[i]], c, k)[j] < |c|
    {
      TopRowsShape(q.rows[g[i]], c, k);
    }
  }

  /** With slices n_batches wide, the sliced search equals one search over all queries. */
  lemma BatchSizeInvariant(c: seq<Vector>, d: nat, q: Matrix, k: int, step: int)
    requires step > 0 && |q.rows| > 0
    ensures SearchBatchesSpec(c, d, q, k, step, step) == Knn(c, d, q, k)
  {
    if q.dim == d && k > 0 {
      Partition(|q.rows|, step);
      var s := SearchBatchesSpec(c, d, q, k, step, step);
      var t := Knn(c, d, q, k);
      assert s.value.scores == t.value.scores;
      assert s.value.rows == t.value.rows;
    }
  }

  /** As written, any n_batches other than 32 changes how many rows come back. */
  lemma AsWrittenNotBatchInvariant(c: seq<Vector>, d: nat, q: Matrix, k: int, step: int)
    requires q.dim == d && k > 0
    requires step > 0 && step != SliceWidth as int && |q.rows| > Min(step, SliceWidth)
    ensures SearchBatchesSpec(c, d, q, k, step, SliceWidth).Ok?
    ensures |SearchBatchesSpec(c, d, q, k, step, SliceWidth).value.rows| != |q.rows|
  {
    if step < SliceWidth {
      OverlapDuplicates(|q.rows|, step, SliceWidth);
    } else {
      SkipMissing(|q.rows|, step, SliceWidth);
    }
  }
}
