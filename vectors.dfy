/**
 * Vector algebra over the reals, standing in for the numpy arrays of the source.
 * Floating point is treated as exact real arithmetic.
 */
module Vectors {

  type Vector = seq<real>

  /** `np.dot(a, b)`. */
  function Dot(a: Vector, b: Vector): real
    requires |a| == |b|
  {
    if |a| == 0 then 0.0 else a[0] * b[0] + Dot(a[1..], b[1..])
  }

  /** `v * c` for a scalar `c`. */
  function Scale(v: Vector, c: real): (r: Vector)
    ensures |r| == |v|
    ensures forall i :: 0 <= i < |v| ==> r[i] == v[i] * c
  {
    seq(|v|, i requires 0 <= i < |v| => v[i] * c)
  }

  /** Element-wise `a + b`. */
  function Add(a: Vector, b: Vector): (r: Vector)
    requires |a| == |b|
    ensures |r| == |a|
    ensures forall i :: 0 <= i < |a| ==> r[i] == a[i] + b[i]
  {
    seq(|a|, i requires 0 <= i < |a| => a[i] + b[i])
  }

  function Zero(dim: nat): (r: Vector)
    ensures |r| == dim && forall i :: 0 <= i < dim ==> r[i] == 0.0
  {
    seq(dim, i => 0.0)
  }

  predicate AllOfDim(vs: seq<Vector>, dim: nat)
  {
    forall i :: 0 <= i < |vs| ==> |vs[i]| == dim
  }

  /** Element-wise sum of vectors that all have length `dim`. */
  function SumAll(vs: seq<Vector>, dim: nat): (r: Vector)
    requires AllOfDim(vs, dim)
    ensures |r| == dim
  {
    if |vs| == 0 then Zero(dim) else Add(vs[0], SumAll(vs[1..], dim))
  }

  /** `np.mean(vs, axis=0)` for a non-empty list of vectors of length `dim`. */
  function Mean(vs: seq<Vector>, dim: nat): (r: Vector)
    requires |vs| > 0 && AllOfDim(vs, dim)
    ensures |r| == dim
  {
    Scale(SumAll(vs, dim), 1.0 / (|vs| as real))
  }

  /** Squared Euclidean distance, the metric of `faiss.IndexFlatL2`. */
  function SqDist(a: Vector, b: Vector): real
    requires |a| == |b|
  {
    if |a| == 0 then 0.0 else (a[0] - b[0]) * (a[0] - b[0]) + SqDist(a[1..], b[1..])
  }

  lemma {:induction false} DotSelfNonNegative(v: Vector)
    ensures Dot(v, v) >= 0.0
  {
    if |v| > 0 {
      DotSelfNonNegative(v[1..]);
    }
  }

  lemma {:induction false} SqDistNonNegative(a: Vector, b: Vector)
    requires |a| == |b|
    ensures SqDist(a, b) >= 0.0
  {
    if |a| > 0 {
      SqDistNonNegative(a[1..], b[1..]);
    }
  }

  lemma {:induction false} SqDistSelf(a: Vector)
    ensures SqDist(a, a) == 0.0
  {
    if |a| > 0 {
      SqDistSelf(a[1..]);
    }
  }

  /** Scaling both arguments scales the dot product by the product of the factors. */
  lemma DotScale(a: Vector, b: Vector, c: real, d: real)
    requires |a| == |b|
    ensures Dot(Scale(a, c), Scale(b, d)) == c * d * Dot(a, b)
  {
    DotScaleLeft(a, Scale(b, d), c);
    DotScaleRight(a, b, d);
    MulAssoc(c, d, Dot(a, b));
  }

  lemma MulAssoc(c: real, d: real, x: real)
    ensures c * (d * x) == c * d * x
  {
  }

  lemma {:induction false} DotScaleLeft(a: Vector, b: Vector, c: real)
    requires |a| == |b|
    ensures Dot(Scale(a, c), b) == c * Dot(a, b)
  {
    if |a| > 0 {
      ScaleTail(a, c);
      DotScaleLeft(a[1..], b[1..], c);
      var x, y, t := a[0], b[0], Dot(a[1..], b[1..]);
      assert (x * c) * y + c * t == c * (x * y + t);
    }
  }

  lemma {:induction false} DotScaleRight(a: Vector, b: Vector, d: real)
    requires |a| == |b|
    ensures Dot(a, Scale(b, d)) == d * Dot(a, b)
  {
    if |a| > 0 {
      ScaleTail(b, d);
      DotScaleRight(a[1..], b[1..], d);
      var x, y, t := a[0], b[0], Dot(a[1..], b[1..]);
      assert x * (y * d) + d * t == d * (x * y + t);
    }
  }

  lemma ScaleTail(v: Vector, c: real)
    requires |v| > 0
    ensures Scale(v, c)[0] == v[0] * c && Scale(v, c)[1..] == Scale(v[1..], c)
  {
    assert Scale(v, c)[1..] == Scale(v[1..], c) by {
      forall i | 0 <= i < |v| - 1 ensures Scale(v, c)[1..][i] == Scale(v[1..], c)[i] { }
    }
  }

  lemma {:induction false} DotSymmetric(a: Vector, b: Vector)
    requires |a| == |b|
    ensures Dot(a, b) == Dot(b, a)
  {
    if |a| > 0 {
      DotSymmetric(a[1..], b[1..]);
    }
  }
}
