/**
 * Real vectors and matrices standing in for the float tensors of the loss
 * functions: row dot products, element-wise differences and scaling, sums,
 * means and sums of squares.
 */
module Vectors {
  type Vector = seq<real>
  type Matrix = seq<Vector>

  /** Every row of `m` has `width` columns. */
  predicate Rectangular(m: Matrix, width: nat) {
    forall i :: 0 <= i < |m| ==> |m[i]| == width
  }

  function Dot(a: Vector, b: Vector): real
    requires |a| == |b|
    decreases |a|
  {
    if |a| == 0 then 0.0 else Dot(a[..|a| - 1], b[..|b| - 1]) + a[|a| - 1] * b[|b| - 1]
  }

  /** The dot product does not depend on the order of its arguments. */
  lemma {:induction false} DotSymmetric(a: Vector, b: Vector)
    requires |a| == |b|
    ensures Dot(a, b) == Dot(b, a)
    decreases |a|
  {
    if |a| > 0 {
      DotSymmetric(a[..|a| - 1], b[..|b| - 1]);
    }
  }

  function Scale(k: real, a: Vector): (r: Vector)
    ensures |r| == |a| && forall i :: 0 <= i < |a| ==> r[i] == k * a[i]
  {
    seq(|a|, i requires 0 <= i < |a| => k * a[i])
  }

  /** The dot product is linear in its first argument: scaling a row scales it. */
  lemma {:induction false} DotScale(k: real, a: Vector, b: Vector)
    requires |a| == |b|
    ensures Dot(Scale(k, a), b) == k * Dot(a, b)
    decreases |a|
  {
    if |a| > 0 {
      var n := |a| - 1;
      assert Scale(k, a)[..n] == Scale(k, a[..n]) by {
        forall i | 0 <= i < n ensures Scale(k, a)[..n][i] == Scale(k, a[..n])[i] {
          assert a[..n][i] == a[i];
        }
      }
      DotScale(k, a[..n], b[..n]);
    }
  }

  /** `a - b`, element-wise. */
  function Sub(a: Vector, b: Vector): (r: Vector)
    requires |a| == |b|
    ensures |r| == |a| && forall i :: 0 <= i < |a| ==> r[i] == a[i] - b[i]
  {
    seq(|a|, i requires 0 <= i < |a| => a[i] - b[i])
  }

  function Sum(xs: seq<real>): real
    decreases |xs|
  {
    if |xs| == 0 then 0.0 else Sum(xs[..|xs| - 1]) + xs[|xs| - 1]
  }

  /** A sum of non-negative terms is non-negative, and zero exactly when every term is. */
  lemma {:induction false} SumNonNegative(xs: seq<real>)
    requires forall i :: 0 <= i < |xs| ==> xs[i] >= 0.0
    ensures Sum(xs) >= 0.0
    ensures Sum(xs) == 0.0 <==> forall i :: 0 <= i < |xs| ==> xs[i] == 0.0
    decreases |xs|
  {
    if |xs| > 0 {
      var n := |xs| - 1;
      SumNonNegative(xs[..n]);
      if Sum(xs) == 0.0 {
        forall i | 0 <= i < |xs| ensures xs[i] == 0.0 {
          if i < n {
            assert xs[..n][i] == xs[i];
          }
        }
      }
    }
  }

  /** A sum of terms each at most `m` is at most `|xs| * m`. */
  lemma {:induction false} SumAtMost(xs: seq<real>, m: real)
    requires forall i :: 0 <= i < |xs| ==> xs[i] <= m
    ensures Sum(xs) <= |xs| as real * m
    decreases |xs|
  {
    if |xs| > 0 {
      SumAtMost(xs[..|xs| - 1], m);
    }
  }

  /** `reduce_mean` of a non-empty sequence. */
  function Mean(xs: seq<real>): real
    requires |xs| > 0
  {
    Sum(xs) / |xs| as real
  }

  /** A mean of terms each at most `m` is at most `m`. */
  lemma MeanAtMost(xs: seq<real>, m: real)
    requires |xs| > 0
    requires forall i :: 0 <= i < |xs| ==> xs[i] <= m
    ensures Mean(xs) <= m
  {
    SumAtMost(xs, m);
    var n := |xs| as real;
    assert Sum(xs) / n <= (n * m) / n;
  }

  /** A mean of non-negative terms is non-negative, and zero exactly when every term is. */
  lemma MeanNonNegative(xs: seq<real>)
    requires |xs| > 0
    requires forall i :: 0 <= i < |xs| ==> xs[i] >= 0.0
    ensures Mean(xs) >= 0.0
    ensures Mean(xs) == 0.0 <==> forall i :: 0 <= i < |xs| ==> xs[i] == 0.0
  {
    SumNonNegative(xs);
  }

  /** The sum of the squares of a vector's entries. */
  function SumSquares(v: Vector): (r: real)
    ensures r >= 0.0
    decreases |v|
  {
    if |v| == 0 then 0.0 else SumSquares(v[..|v| - 1]) + v[|v| - 1] * v[|v| - 1]
  }

  /** The sum of squares is zero exactly for the zero vector. */
  lemma {:induction false} SumSquaresZero(v: Vector)
    ensures SumSquares(v) == 0.0 <==> forall i :: 0 <= i < |v| ==> v[i] == 0.0
    decreases |v|
  {
    if |v| > 0 {
      var n := |v| - 1;
      SumSquaresZero(v[..n]);
      if SumSquares(v) == 0.0 {
        SquareAddsToZero(v[n], SumSquares(v[..n]));
        forall i | 0 <= i < |v| ensures v[i] == 0.0 {
          if i < n {
            assert v[..n][i] == v[i];
          }
        }
      }
      if forall i :: 0 <= i < |v| ==> v[i] == 0.0 {
        assert forall i :: 0 <= i < n ==> v[..n][i] == 0.0;
      }
    }
  }

  /** A non-negative number plus a square is zero only when both are zero. */
  lemma SquareAddsToZero(x: real, s: real)
    requires s >= 0.0 && s + x * x == 0.0
    ensures x == 0.0 && s == 0.0
  {
    assert x * x >= 0.0;
    assert x * x == 0.0;
    ProductZero(x, x);
  }

  lemma ProductZero(x: real, y: real)
    requires x * y == 0.0
    ensures x == 0.0 || y == 0.0
  {
  }
}
