/** Batched scoring and top-N selection of utils/similarity.py:
    cosine_similarities and top_n_similar. */
module Similarity {
  import opened Results
  import opened Vectors
  import opened Selection

  /** The `matrix` argument as a caller passes it: a flat list of numbers,
      which np.asarray makes 1-D; a list of rows, which it makes 2-D; or a
      2-D numpy array, which carries its width even when it has no rows. An
      empty list is 1-D to numpy whatever it was meant to be, so
      `Nested([])` is read exactly like `Flat([])`. */
  datatype MatrixArg = Flat(row: Vector) | Nested(rows: seq<Vector>) | Array(grid: Array2D)

  /** The rows of a 2-D numpy array and its width, which it keeps even
      when it has no rows. */
  datatype Grid = Grid(rows: seq<Vector>, width: nat)

  /** A numpy array is never ragged: every row has the array's width. */
  type Array2D = g: Grid | forall i :: 0 <= i < |g.rows| ==> |g.rows[i]| == g.width
    witness Grid([], 0)

  /** The rows numpy scores after np.asarray and the reshape of a 1-D
      array to a single row. Only a 2-D array can have no rows. */
  function Rows(m: MatrixArg): (rows: seq<Vector>)
    ensures !m.Array? ==> |rows| >= 1
    ensures m.Flat? ==> rows == [m.row]
    ensures m.Nested? && |m.rows| == 0 ==> rows == [[]]
    ensures m.Nested? && |m.rows| > 0 ==> rows == m.rows
    ensures m.Array? ==> rows == m.grid.rows
  {
    match m
    case Flat(v) => [v]
    case Nested(rows) => if |rows| == 0 then [[]] else rows
    case Array(g) => g.rows
  }

  /** All rows of a list have one width. */
  predicate Rectangular(rows: seq<Vector>)
  {
    forall i :: 0 <= i < |rows| ==> |rows[i]| == |rows[0]|
  }

  /** np.asarray builds a proper array: a list of rows must not be ragged.
      A numpy array is well-shaped by construction. */
  predicate Shaped(m: MatrixArg)
  {
    match m
    case Flat(_) => true
    case Nested(rows) => Rectangular(rows)
    case Array(_) => true
  }

  /** M.shape[1]: the width of every row of a well-shaped matrix. */
  function Width(m: MatrixArg): (w: nat)
    ensures !m.Array? ==> w == |Rows(m)[0]|
    ensures m.Array? ==> w == m.grid.width
    ensures Shaped(m) ==> forall i :: 0 <= i < |Rows(m)| ==> |Rows(m)[i]| == w
  {
    if m.Array? then m.grid.width else |Rows(m)[0]|
  }

  /** One entry of `sims`: the query norm times the row norm as the
      denominator, M.dot(q) as the numerator, 0.0 where the denominator
      is zero. */
  function RowScore(norm: Vector -> real, q: Vector, row: Vector): real
    requires |row| == |q|
  {
    var denom := norm(q) * norm(row);
    if denom == 0.0 then 0.0 else Dot(row, q) / denom
  }

  /** cosine_similarities: one score per row, each the single-pair cosine
      of the query and that row alone, or an error when the rows are ragged
      or their width differs from the query's. */
  function CosineSimilarities(norm: Vector -> real, q: Vector, m: MatrixArg): (r: Result<seq<real>>)
    requires ValidNorm(norm)
    ensures r.Err? <==> !Shaped(m) || |q| != Width(m)
    ensures !Shaped(m) ==> r == Err(RaggedMatrix)
    ensures Shaped(m) && |q| != Width(m) ==> r == Err(DimMismatch(|q|, Width(m)))
    ensures r.Ok? ==> |r.value| == |Rows(m)|
    ensures r.Ok? ==> forall i :: 0 <= i < |r.value| ==>
              CosineSimilarity(norm, q, Rows(m)[i]) == Ok(r.value[i])
    ensures r.Ok? ==> forall i :: 0 <= i < |r.value| ==>
              (IsZero(q) || IsZero(Rows(m)[i]) ==> r.value[i] == 0.0)
  {
    var rows := Rows(m);
    if !Shaped(m) then Err(RaggedMatrix)
    else if |q| != Width(m) then Err(DimMismatch(|q|, Width(m)))
    else
      var sims := seq(|rows|, i requires 0 <= i < |rows| => RowScore(norm, q, rows[i]));
      RowScoresAreCosine(norm, q, rows, sims);
      Ok(sims)
  }

  lemma RowScoresAreCosine(norm: Vector -> real, q: Vector, rows: seq<Vector>, sims: seq<real>)
    requires ValidNorm(norm)
    requires forall i :: 0 <= i < |rows| ==> |rows[i]| == |q|
    requires |sims| == |rows|
    requires forall i :: 0 <= i < |rows| ==> sims[i] == RowScore(norm, q, rows[i])
    ensures forall i :: 0 <= i < |sims| ==> CosineSimilarity(norm, q, rows[i]) == Ok(sims[i])
  {
    forall i | 0 <= i < |sims| ensures CosineSimilarity(norm, q, rows[i]) == Ok(sims[i]) {
      DotSymmetric(rows[i], q);
    }
  }

  /** An empty list as the matrix becomes a 1x0 array: it fails the width
      check against any non-empty query, and yields one 0.0 score against
      the empty query. */
  lemma EmptyMatrix(norm: Vector -> real, q: Vector)
    requires ValidNorm(norm)
    ensures |q| > 0 ==> CosineSimilarities(norm, q, Nested([])) == Err(DimMismatch(|q|, 0))
    ensures |q| == 0 ==> CosineSimilarities(norm, q, Nested([])) == Ok([0.0])
  {
    var r := CosineSimilarities(norm, q, Nested([]));
    if |q| == 0 {
      assert IsZero(q);
      assert r.Ok? && |r.value| == 1 && r.value[0] == 0.0;
      assert r.value == [0.0];
    }
  }

  /** top_n_similar: the scores of every row, then the min(n, N) best rows,
      best first, each paired with its own score. */
  function TopNSimilar(norm: Vector -> real, q: Vector, m: MatrixArg, n: nat): (r: Result<seq<Match>>)
    requires ValidNorm(norm)
    ensures r.Err? <==> !Shaped(m) || |q| != Width(m)
    ensures r.Ok? ==> |r.value| == Min(n, |Rows(m)|)
    ensures r.Ok? ==> forall k :: 0 <= k < |r.value| ==>
              r.value[k].index < |Rows(m)| &&
              CosineSimilarity(norm, q, Rows(m)[r.value[k].index]) == Ok(r.value[k].score)
    ensures r.Ok? ==> Distinct(Indices(r.value))
    ensures r.Ok? ==> forall a, b :: 0 <= a < b < |r.value| ==> r.value[a].score >= r.value[b].score
    ensures r.Ok? ==> forall k, u :: 0 <= k < |r.value| && 0 <= u < |Rows(m)| && u !in Indices(r.value) ==>
              CosineSimilarity(norm, q, Rows(m)[u]).Ok? &&
              r.value[k].score >= CosineSimilarity(norm, q, Rows(m)[u]).value
    ensures r.Ok? && n >= |Rows(m)| ==> multiset(Indices(r.value)) == multiset(Range(|Rows(m)|))
  {
    var sims :- CosineSimilarities(norm, q, m);
    Ok(TopN(sims, n))
  }

  /** A 2-D array with no rows passes the width check against a query of
      its width and reaches the N == 0 branch of top_n_similar: no matches.
      Against any other width it is a width mismatch. */
  lemma ZeroRows(norm: Vector -> real, q: Vector, width: nat, n: nat)
    requires ValidNorm(norm)
    ensures |q| == width ==> TopNSimilar(norm, q, Array(Grid([], width)), n) == Ok([])
    ensures |q| != width ==> TopNSimilar(norm, q, Array(Grid([], width)), n) == Err(DimMismatch(|q|, width))
  {
    if |q| == width {
      assert CosineSimilarities(norm, q, Array(Grid([], width))) == Ok([]);
    }
  }
}
