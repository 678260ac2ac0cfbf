/**
 * An exact, exhaustive inner-product index ("Flat" with the inner-product metric):
 * row r of the index is the r-th vector added, and a search for k hits ranks every
 * row by its inner product with the query, padding with row -1 when k exceeds the
 * number of rows. Scores are integers; the float32 cast is the identity here.
 */
module FlatIndex {
  import opened Outcomes

  type Vector = seq<int>

  datatype Mat = Mat(dim: nat, rows: seq<Vector>)

  /** A dense matrix: every row has the same width `dim`. */
  type Matrix = m: Mat | forall i :: 0 <= i < |m.rows| ==> |m.rows[i]| == m.dim witness Mat(0, [])

  /** The "no candidate" row an unfilled slot carries. */
  const NoRow: int := -1

  /** The score of an unfilled slot: the lowest single-precision float, -FLT_MAX. */
  const PadScore: int := -340282346638528859811704183484516925440

  /** Inner product (both vectors have the index's width wherever it is used). */
  function Dot(a: Vector, b: Vector): int {
    if a == [] || b == [] then 0 else a[0] * b[0] + Dot(a[1..], b[1..])
  }

  /** The score a search reports for row r: its inner product with q, or PadScore for no row. */
  function Score(q: Vector, c: seq<Vector>, r: int): int {
    if 0 <= r < |c| then Dot(q, c[r]) else PadScore
  }

  /** Row a comes before row b: a higher score, or the same score and a lower row. */
  predicate Outranks(q: Vector, c: seq<Vector>, a: int, b: int) {
    Score(q, c, a) > Score(q, c, b) || (Score(q, c, a) == Score(q, c, b) && a < b)
  }

  predicate Ordered(q: Vector, c: seq<Vector>, s: seq<int>) {
    forall i, j :: 0 <= i < j < |s| ==> Outranks(q, c, s[i], s[j])
  }

  function Insert(q: Vector, c: seq<Vector>, r: int, s: seq<int>): seq<int> {
    if s == [] then [r]
    else if Outranks(q, c, r, s[0]) then [r] + s
    else [s[0]] + Insert(q, c, r, s[1..])
  }

  /** Rows 0 .. n-1, best first. */
  function Ranking(q: Vector, c: seq<Vector>, n: nat): seq<int> {
    if n == 0 then [] else Insert(q, c, n - 1, Ranking(q, c, n - 1))
  }

  function Pad(m: nat): seq<int> {
    seq(m, _ => NoRow)
  }

  /** The k rows a search returns for query q over the rows c. */
  function TopRows(q: Vector, c: seq<Vector>, k: nat): seq<int> {
    var r := Ranking(q, c, |c|);
    if k <= |r| then r[..k] else r + Pad(k - |r|)
  }

  /** The k scores a search returns, paired position by position with TopRows. */
  function TopScores(q: Vector, c: seq<Vector>, k: nat): seq<int> {
    var t := TopRows(q, c, k);
    seq(|t|, j requires 0 <= j < |t| => Score(q, c, t[j]))
  }

  /** Search results: one row of scores and one row of row numbers per query. */
  datatype Hits = Hits(scores: seq<seq<int>>, rows: seq<seq<int>>)

  /**
   * index.search(xs, k) on a flat inner-product index holding the rows c of width d:
   * the query width must be d, then k must be positive.
   */
  function Knn(c: seq<Vector>, d: nat, xs: Matrix, k: int): (r: Result<Hits>)
    ensures r.Err? <==> xs.dim != d || k <= 0
    ensures r.Err? ==> r.error == (if xs.dim != d then DimensionMismatch else InvalidTopK)
  {
    if xs.dim != d then Err(DimensionMismatch)
    else if k <= 0 then Err(InvalidTopK)
    else
      Ok(Hits(seq(|xs.rows|, i requires 0 <= i < |xs.rows| => TopScores(xs.rows[i], c, k)),
              seq(|xs.rows|, i requires 0 <= i < |xs.rows| => TopRows(xs.rows[i], c, k))))
  }

  /**
   * A successful search has one row of k scores and one row of k rows per query; the
   * rows are TopRows and each score is the inner product of the query with its row.
   */
  lemma KnnShape(c: seq<Vector>, d: nat, xs: Matrix, k: int)
    requires Knn(c, d, xs, k).Ok?
    ensures var h := Knn(c, d, xs, k).value;
      |h.scores| == |xs.rows| == |h.rows| &&
      forall i :: 0 <= i < |xs.rows| ==>
        |h.scores[i]| == k && |h.rows[i]| == k && h.rows[i] == TopRows(xs.rows[i], c, k) &&
        forall j :: 0 <= j < k ==> h.scores[i][j] == Score(xs.rows[i], c, h.rows[i][j])
  {
    forall i | 0 <= i < |xs.rows| ensures |TopRows(xs.rows[i], c, k)| == k {
      TopRowsShape(xs.rows[i], c, k);
    }
  }

  /** KnnShape for the single query i. */
  lemma KnnRow(c: seq<Vector>, d: nat, xs: Matrix, k: int, i: nat)
    requires Knn(c, d, xs, k).Ok? && i < |xs.rows|
    ensures var h := Knn(c, d, xs, k).value;
      |h.scores| == |xs.rows| == |h.rows| &&
      |h.scores[i]| == k && |h.rows[i]| == k && h.rows[i] == TopRows(xs.rows[i], c, k) &&
      forall j :: 0 <= j < k ==> h.scores[i][j] == Score(xs.rows[i], c, h.rows[i][j])
  {
    TopRowsShape(xs.rows[i], c, k);
  }

  // ---------------------------------------------------------------- ranking lemmas

  lemma {:induction false} InsertElements(q: Vector, c: seq<Vector>, r: int, s: seq<int>)
    ensures |Insert(q, c, r, s)| == |s| + 1
    ensures forall x :: x in Insert(q, c, r, s) <==> x == r || x in s
  {
    if s != [] && !Outranks(q, c, r, s[0]) {
      InsertElements(q, c, r, s[1..]);
      assert s == [s[0]] + s[1..];
    }
  }

  lemma {:induction false} InsertOrdered(q: Vector, c: seq<Vector>, r: int, s: seq<int>)
    requires Ordered(q, c, s) && r !in s
    ensures Ordered(q, c, Insert(q, c, r, s))
  {
    if s != [] && !Outranks(q, c, r, s[0]) {
      assert Ordered(q, c, s[1..]) by {
        forall i, j | 0 <= i < j < |s[1..]| ensures Outranks(q, c, s[1..][i], s[1..][j]) {
          assert s[1..][i] == s[i + 1] && s[1..][j] == s[j + 1];
        }
      }
      InsertOrdered(q, c, r, s[1..]);
      InsertElements(q, c, r, s[1..]);
      var t := Insert(q, c, r, s[1..]);
      forall x | x in t ensures Outranks(q, c, s[0], x) {
        if x != r {
          var j :| 0 <= j < |s[1..]| && s[1..][j] == x;
          assert s[j + 1] == x;
        }
      }
    }
  }

  /** Ranking(n) orders rows 0 .. n-1, each exactly once, best first. */
  lemma {:induction false} RankingSpec(q: Vector, c: seq<Vector>, n: nat)
    ensures |Ranking(q, c, n)| == n
    ensures forall x :: x in Ranking(q, c, n) <==> 0 <= x < n
    ensures Ordered(q, c, Ranking(q, c, n))
  {
    if n > 0 {
      RankingSpec(q, c, n - 1);
      InsertElements(q, c, n - 1, Ranking(q, c, n - 1));
      InsertOrdered(q, c, n - 1, Ranking(q, c, n - 1));
    }
  }

  /** Every search row has k slots; the first min(k, |c|) hold valid rows, the rest -1. */
  lemma TopRowsShape(q: Vector, c: seq<Vector>, k: nat)
    ensures |TopRows(q, c, k)| == k
    ensures forall i :: 0 <= i < k && i < |c| ==> 0 <= TopRows(q, c, k)[i] < |c|
    ensures forall i :: |c| <= i < k ==> TopRows(q, c, k)[i] == NoRow
  {
    RankingSpec(q, c, |c|);
    var r := Ranking(q, c, |c|);
    forall i | 0 <= i < k && i < |c| ensures 0 <= TopRows(q, c, k)[i] < |c| {
      assert TopRows(q, c, k)[i] == r[i] && r[i] in r;
    }
  }

  /** Valid returned rows are distinct and their scores never increase. */
  lemma TopRowsOrdered(q: Vector, c: seq<Vector>, k: nat)
    ensures forall i, j :: 0 <= i < j < k && j < |c| ==>
      TopRows(q, c, k)[i] != TopRows(q, c, k)[j] &&
      Score(q, c, TopRows(q, c, k)[i]) >= Score(q, c, TopRows(q, c, k)[j])
  {
    RankingSpec(q, c, |c|);
    TopRowsShape(q, c, k);
    var r := Ranking(q, c, |c|);
    forall i, j | 0 <= i < j < k && j < |c|
      ensures TopRows(q, c, k)[i] != TopRows(q, c, k)[j] &&
              Score(q, c, TopRows(q, c, k)[i]) >= Score(q, c, TopRows(q, c, k)[j])
    {
      assert TopRows(q, c, k)[i] == r[i] && TopRows(q, c, k)[j] == r[j];
      assert Outranks(q, c, r[i], r[j]);
    }
  }

  /** The search is exhaustive: a row left out scores no higher than any valid row returned. */
  lemma TopRowsExhaustive(q: Vector, c: seq<Vector>, k: nat)
    ensures forall r, i :: 0 <= r < |c| && r !in TopRows(q, c, k) && 0 <= i < k && i < |c| ==>
      Score(q, c, r) <= Score(q, c, TopRows(q, c, k)[i])
    ensures k >= |c| ==> forall r :: 0 <= r < |c| ==> r in TopRows(q, c, k)
  {
    RankingSpec(q, c, |c|);
    var rk := Ranking(q, c, |c|);
    var t := TopRows(q, c, k);
    forall r, i | 0 <= r < |c| && r !in t && 0 <= i < k && i < |c|
      ensures Score(q, c, r) <= Score(q, c, t[i])
    {
      assert r in rk;
      var p :| 0 <= p < |rk| && rk[p] == r;
      assert p >= k by {
        assert forall j :: 0 <= j < k && j < |rk| ==> t[j] == rk[j];
      }
      assert t[i] == rk[i];
      assert Outranks(q, c, rk[i], rk[p]);
    }
    if k >= |c| {
      forall r | 0 <= r < |c| ensures r in t {
        assert r in rk;
        var p :| 0 <= p < |rk| && rk[p] == r;
        assert t[p] == r;
      }
    }
  }

  /** With at least one row, the top hit carries the highest score any row attains. */
  lemma TopHitMaximal(q: Vector, c: seq<Vector>, k: nat)
    requires k > 0 && |c| > 0
    ensures forall r :: 0 <= r < |c| ==> Score(q, c, r) <= Score(q, c, TopRows(q, c, k)[0])
  {
    TopRowsShape(q, c, k);
    TopRowsOrdered(q, c, k);
    TopRowsExhaustive(q, c, k);
    var t := TopRows(q, c, k);
    forall r | 0 <= r < |c| ensures Score(q, c, r) <= Score(q, c, t[0]) {
      if r in t {
        var i :| 0 <= i < |t| && t[i] == r;
        assert i < |c|;
      }
    }
  }

  // ---------------------------------------------------------------- the index object

  /** A flat inner-product index: its width and the rows added so far, in order. */
  class Index {
    const dim: nat
    var rows: seq<Vector>

    ghost predicate Valid()
      reads this
    {
      forall i :: 0 <= i < |rows| ==> |rows[i]| == dim
    }

    /** index_factory(dim, "Flat", METRIC_INNER_PRODUCT): an empty index of that width. */
    constructor (dim: nat)
      ensures this.dim == dim && rows == [] && Valid()
    {
      this.dim := dim;
      rows := [];
    }

    /** Training a flat index learns nothing: the index is unchanged. */
    method Train(xs: Matrix)
      requires xs.dim == dim
      ensures rows == old(rows)
    {
    }

    /** Appends the rows of xs after the rows already held. */
    method Add(xs: Matrix)
      requires Valid() && xs.dim == dim
      modifies this
      ensures Valid() && rows == old(rows) + xs.rows
    {
      rows := rows + xs.rows;
    }

    /** index.search(xs, k): the exhaustive search over the rows held now. */
    function Search(xs: Matrix, k: int): (r: Result<Hits>)
      reads this
      ensures r.Err? <==> xs.dim != dim || k <= 0
      ensures r.Ok? ==>
        && |r.value.scores| == |xs.rows| == |r.value.rows|
        && forall i :: 0 <= i < |xs.rows| ==> |r.value.scores[i]| == k && |r.value.rows[i]| == k
    {
      var r := Knn(rows, dim, xs, k);
      if r.Ok? then KnnShape(rows, dim, xs, k); r else r
    }
  }

  /** Validator._index_corpus: an index of the corpus width holding exactly the corpus rows. */
  method IndexCorpus(corpus: Matrix) returns (index: Index)
    ensures fresh(index) && index.Valid()
    ensures index.dim == corpus.dim && index.rows == corpus.rows
  {
    index := new Index(corpus.dim);
    index.Train(corpus);
    index.Add(corpus);
  }
}
