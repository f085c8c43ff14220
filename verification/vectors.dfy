/** Vector arithmetic behind cosine scoring (utils/similarity.py), over exact
    reals. The Euclidean norm needs a square root, which has no definition
    over Dafny's reals, so every operation that uses a norm takes it as a
    parameter `norm` constrained by `ValidNorm`: non-negative, zero exactly on
    the all-zero vector, and squaring to the vector's dot product with itself. */
module Vectors {
  import opened Results

  type Vector = seq<real>

  /** Dot product of two vectors of equal width (np.dot on 1-D arrays). */
  function Dot(a: Vector, b: Vector): real
    requires |a| == |b|
  {
    if |a| == 0 then 0.0 else a[0] * b[0] + Dot(a[1..], b[1..])
  }

  /** Every component is zero. */
  predicate IsZero(v: Vector)
  {
    forall i :: 0 <= i < |v| ==> v[i] == 0.0
  }

  /** What is assumed of the norm function: the exact value of np.linalg.norm. */
  ghost predicate ValidNorm(norm: Vector -> real)
  {
    forall v ::
      && 0.0 <= norm(v)
      && (norm(v) == 0.0 <==> IsZero(v))
      && norm(v) * norm(v) == Dot(v, v)
  }

  lemma {:induction false} DotSymmetric(a: Vector, b: Vector)
    requires |a| == |b|
    ensures Dot(a, b) == Dot(b, a)
  {
    if |a| > 0 {
      DotSymmetric(a[1..], b[1..]);
    }
  }

  /** The product of two non-negative norms is zero exactly when one of them is. */
  lemma ProductZero(x: real, y: real)
    requires x >= 0.0 && y >= 0.0
    ensures x * y == 0.0 <==> x == 0.0 || y == 0.0
  {
    if x > 0.0 && y > 0.0 {
      assert x * y > 0.0;
    }
  }

  /** The denominator of cosine_similarity vanishes exactly when one of the
      two vectors is all zeros. */
  lemma DenominatorZero(norm: Vector -> real, a: Vector, b: Vector)
    requires ValidNorm(norm)
    ensures norm(a) * norm(b) == 0.0 <==> IsZero(a) || IsZero(b)
  {
    ProductZero(norm(a), norm(b));
  }

  /** cosine_similarity: 0.0 when the product of the norms is zero, checked
      before any dot product is taken; otherwise np.dot, which raises on
      vectors of unequal width; otherwise the normalised dot product. */
  function CosineSimilarity(norm: Vector -> real, a: Vector, b: Vector): (r: Result<real>)
    requires ValidNorm(norm)
    ensures IsZero(a) || IsZero(b) ==> r == Ok(0.0)
    ensures !IsZero(a) && !IsZero(b) && |a| != |b| ==> r == Err(DimMismatch(|a|, |b|))
    ensures !IsZero(a) && !IsZero(b) && |a| == |b| ==>
              r.Ok? && r.value * (norm(a) * norm(b)) == Dot(a, b)
  {
    DenominatorZero(norm, a, b);
    var denom := norm(a) * norm(b);
    if denom == 0.0 then Ok(0.0)
    else if |a| != |b| then Err(DimMismatch(|a|, |b|))
    else Ok(Dot(a, b) / denom)
  }

  /** Scoring is symmetric in its two arguments; only the width that an
      error reports is swapped. */
  lemma CosineSymmetric(norm: Vector -> real, a: Vector, b: Vector)
    requires ValidNorm(norm)
    ensures CosineSimilarity(norm, a, b).Ok? <==> CosineSimilarity(norm, b, a).Ok?
    ensures CosineSimilarity(norm, a, b).Ok? ==>
              CosineSimilarity(norm, a, b) == CosineSimilarity(norm, b, a)
  {
    if |a| == |b| {
      DotSymmetric(a, b);
    }
  }

  /** A non-zero vector scores exactly 1.0 against itself; a zero vector
      gets the 0.0 sentinel. */
  lemma CosineSelf(norm: Vector -> real, a: Vector)
    requires ValidNorm(norm)
    ensures !IsZero(a) ==> CosineSimilarity(norm, a, a) == Ok(1.0)
    ensures IsZero(a) ==> CosineSimilarity(norm, a, a) == Ok(0.0)
  {
    var n := norm(a);
    if !IsZero(a) {
      ProductZero(n, n);
      SelfQuotient(n * n, Dot(a, a));
    }
  }

  lemma SelfQuotient(p: real, d: real)
    requires p != 0.0 && p == d
    ensures d / p == 1.0
  {
  }
}
