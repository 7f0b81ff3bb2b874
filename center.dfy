/**
 * Center loss: a table of per-class centres, not trained by gradients but
 * pulled towards the features of each batch by `scatter_sub`, and a loss
 * equal to half the squared distance between the features and the centres
 * of their classes.
 */
module CenterLoss {
  import opened Wrappers
  import opened Vectors

  /** The learning rate of the centres. */
  const CenterAlpha: real := 0.6

  /** `tf.gather` on CPU rejects an index outside the table. */
  datatype GatherError = InvalidArgument

  predicate LabelsInRange(labels: seq<int>, numClasses: nat) {
    forall i :: 0 <= i < |labels| ==> 0 <= labels[i] < numClasses
  }

  function Zeros(w: nat): (r: Vector)
    ensures |r| == w && forall j :: 0 <= j < w ==> r[j] == 0.0
  {
    seq(w, j => 0.0)
  }

  /** `tf.gather(centers, labels)`: the centre of each sample's class. */
  function Gather(table: Matrix, labels: seq<int>): (cb: Matrix)
    requires LabelsInRange(labels, |table|)
    ensures |cb| == |labels|
  {
    seq(|labels|, i requires 0 <= i < |labels| => table[labels[i]])
  }

  /** How often `c` occurs in the batch: `unique_with_counts` gathered back per sample. */
  function Count(labels: seq<int>, c: int): nat {
    multiset(labels)[c]
  }

  /** `(cb - f)` row by row. */
  function Residuals(cb: Matrix, features: Matrix, w: nat): (d: Matrix)
    requires |cb| == |features| && Rectangular(cb, w) && Rectangular(features, w)
    ensures |d| == |cb| && Rectangular(d, w)
  {
    seq(|cb|, i requires 0 <= i < |cb| => Sub(cb[i], features[i]))
  }

  /** `alpha * (d / (1 + k))`, element-wise. */
  function Damped(d: Vector, k: nat): (r: Vector)
    ensures |r| == |d|
  {
    seq(|d|, j requires 0 <= j < |d| => CenterAlpha * (d[j] / (1 + k) as real))
  }

  /** The update `diff` of every sample: its residual damped by its class's batch count. */
  function Diffs(cb: Matrix, features: Matrix, labels: seq<int>, w: nat): (d: Matrix)
    requires |cb| == |features| == |labels| && Rectangular(cb, w) && Rectangular(features, w)
    ensures |d| == |labels| && Rectangular(d, w)
  {
    var res := Residuals(cb, features, w);
    seq(|labels|, i requires 0 <= i < |labels| => Damped(res[i], Count(labels, labels[i])))
  }

  /**
   * `scatter_sub(table, ls, ds)`: row `ls[i]` loses `ds[i]`, one sample after
   * another, so a class that occurs twice loses both rows.
   */
  function ScatterSub(t: Matrix, ls: seq<int>, ds: Matrix, w: nat): (r: Matrix)
    requires Rectangular(t, w) && Rectangular(ds, w) && |ls| == |ds| && LabelsInRange(ls, |t|)
    ensures |r| == |t| && Rectangular(r, w)
    decreases |ls|
  {
    if |ls| == 0 then t
    else
      var n := |ls| - 1;
      var p := ScatterSub(t, ls[..n], ds[..n], w);
      p[ls[n] := Sub(p[ls[n]], ds[n])]
  }

  /** One more sample of the batch is one more row update. */
  lemma ScatterSubStep(t: Matrix, ls: seq<int>, ds: Matrix, w: nat, i: nat)
    requires Rectangular(t, w) && Rectangular(ds, w) && |ls| == |ds| && LabelsInRange(ls, |t|)
    requires i < |ls|
    ensures var p := ScatterSub(t, ls[..i], ds[..i], w);
      ScatterSub(t, ls[..i + 1], ds[..i + 1], w) == p[ls[i] := Sub(p[ls[i]], ds[i])]
  {
    assert ls[..i + 1][..i] == ls[..i] && ds[..i + 1][..i] == ds[..i];
  }

  /** Column `j` of the rows of `ds` whose label is `c`, added up. */
  function ColumnSum(ls: seq<int>, ds: Matrix, w: nat, c: int, j: nat): real
    requires |ls| == |ds| && Rectangular(ds, w) && j < w
    decreases |ls|
  {
    if |ls| == 0 then 0.0
    else
      var n := |ls| - 1;
      ColumnSum(ls[..n], ds[..n], w, c, j) + (if ls[n] == c then ds[n][j] else 0.0)
  }

  /** Each entry of a centre drops by the sum of that class's updates in the same column. */
  lemma {:induction false} ScatterSubEntry(t: Matrix, ls: seq<int>, ds: Matrix, w: nat, c: nat, j: nat)
    requires Rectangular(t, w) && Rectangular(ds, w) && |ls| == |ds| && LabelsInRange(ls, |t|)
    requires c < |t| && j < w
    ensures ScatterSub(t, ls, ds, w)[c][j] == t[c][j] - ColumnSum(ls, ds, w, c, j)
    decreases |ls|
  {
    if |ls| > 0 {
      var n := |ls| - 1;
      ScatterSubEntry(t, ls[..n], ds[..n], w, c, j);
    }
  }

  /** Rows of classes absent from the batch are left exactly as they were. */
  lemma {:induction false} ScatterSubUntouched(t: Matrix, ls: seq<int>, ds: Matrix, w: nat, c: nat)
    requires Rectangular(t, w) && Rectangular(ds, w) && |ls| == |ds| && LabelsInRange(ls, |t|)
    requires c < |t| && c !in ls
    ensures ScatterSub(t, ls, ds, w)[c] == t[c]
    decreases |ls|
  {
    if |ls| > 0 {
      var n := |ls| - 1;
      assert ls == ls[..n] + [ls[n]];
      ScatterSubUntouched(t, ls[..n], ds[..n], w, c);
    }
  }

  /** Subtracting all-zero updates changes nothing. */
  lemma {:induction false} ScatterSubZeros(t: Matrix, ls: seq<int>, ds: Matrix, w: nat)
    requires Rectangular(t, w) && Rectangular(ds, w) && |ls| == |ds| && LabelsInRange(ls, |t|)
    requires forall i :: 0 <= i < |ds| ==> ds[i] == Zeros(w)
    ensures ScatterSub(t, ls, ds, w) == t
    decreases |ls|
  {
    if |ls| > 0 {
      var n := |ls| - 1;
      ScatterSubZeros(t, ls[..n], ds[..n], w);
      assert Sub(t[ls[n]], ds[n]) == t[ls[n]];
    }
  }

  /** A column sum of damped residuals is the damped column sum of the residuals. */
  lemma {:induction false} ColumnSumDamped(ls: seq<int>, ds: Matrix, es: Matrix, w: nat, c: int, j: nat, k: nat)
    requires |ls| == |ds| == |es| && Rectangular(ds, w) && Rectangular(es, w) && j < w
    requires forall i :: 0 <= i < |ls| && ls[i] == c ==> ds[i][j] == CenterAlpha * (es[i][j] / (1 + k) as real)
    ensures ColumnSum(ls, ds, w, c, j) == CenterAlpha * (ColumnSum(ls, es, w, c, j) / (1 + k) as real)
    decreases |ls|
  {
    if |ls| > 0 {
      var n := |ls| - 1;
      ColumnSumDamped(ls[..n], ds[..n], es[..n], w, c, j, k);
      var s, x, q := ColumnSum(ls[..n], es[..n], w, c, j), if ls[n] == c then es[n][j] else 0.0, (1 + k) as real;
      assert CenterAlpha * (s / q) + CenterAlpha * (x / q) == CenterAlpha * ((s + x) / q);
    }
  }

  /**
   * The update rule: for a class seen `k` times in the batch, every entry of
   * its centre moves by `alpha / (1 + k)` times the summed differences
   * between that centre and the class's features.
   */
  lemma CenterEntryUpdate(t: Matrix, labels: seq<int>, features: Matrix, w: nat, c: nat, j: nat)
    requires Rectangular(t, w) && Rectangular(features, w) && |labels| == |features|
    requires LabelsInRange(labels, |t|) && c < |t| && j < w
    ensures var cb := Gather(t, labels);
      ScatterSub(t, labels, Diffs(cb, features, labels, w), w)[c][j]
        == t[c][j] - CenterAlpha * (ColumnSum(labels, Residuals(cb, features, w), w, c, j) / (1 + Count(labels, c)) as real)
  {
    var cb := Gather(t, labels);
    var d := Diffs(cb, features, labels, w);
    var res := Residuals(cb, features, w);
    ScatterSubEntry(t, labels, d, w, c, j);
    ColumnSumDamped(labels, d, res, w, c, j, Count(labels, c));
  }

  /** The residuals of each sample, by the centre of its own class. */
  lemma CenterResiduals(t: Matrix, labels: seq<int>, features: Matrix, w: nat, i: nat, j: nat)
    requires Rectangular(t, w) && Rectangular(features, w) && |labels| == |features|
    requires LabelsInRange(labels, |t|) && i < |labels| && j < w
    ensures Residuals(Gather(t, labels), features, w)[i][j] == t[labels[i]][j] - features[i][j]
  {
  }

  /** Centres that already sit on the features of their samples do not move. */
  lemma CenterFixedPoint(t: Matrix, labels: seq<int>, features: Matrix, w: nat)
    requires Rectangular(t, w) && Rectangular(features, w) && |labels| == |features|
    requires LabelsInRange(labels, |t|)
    requires forall i :: 0 <= i < |labels| ==> features[i] == t[labels[i]]
    ensures ScatterSub(t, labels, Diffs(Gather(t, labels), features, labels, w), w) == t
  {
    var cb := Gather(t, labels);
    var res := Residuals(cb, features, w);
    var d := Diffs(cb, features, labels, w);
    forall i | 0 <= i < |d| ensures d[i] == Zeros(w) {
      forall j | 0 <= j < w ensures res[i][j] == 0.0 {
        CenterResiduals(t, labels, features, w, i, j);
      }
      DampedZero(res[i], Count(labels, labels[i]));
    }
    ScatterSubZeros(t, labels, d, w);
  }

  /**
   * Damping a zero difference leaves it zero. Stated apart so that the
   * sequence extensionality it needs stays out of `CenterFixedPoint`.
   */
  lemma DampedZero(d: Vector, k: nat)
    requires forall j :: 0 <= j < |d| ==> d[j] == 0.0
    ensures Damped(d, k) == Zeros(|d|)
  {
  }

  /** The squared entries of every row, added up. */
  function RowsSumSquares(m: Matrix): (r: real)
    ensures r >= 0.0
    decreases |m|
  {
    if |m| == 0 then 0.0 else RowsSumSquares(m[..|m| - 1]) + SumSquares(m[|m| - 1])
  }

  /** `tf.nn.l2_loss`: half the sum of the squares of all entries. */
  function L2Loss(m: Matrix): real {
    RowsSumSquares(m) / 2.0
  }

  /** The squares add up to zero exactly when every entry is zero. */
  lemma {:induction false} RowsSumSquaresZero(m: Matrix)
    ensures RowsSumSquares(m) == 0.0 <==> forall i :: 0 <= i < |m| ==> forall j :: 0 <= j < |m[i]| ==> m[i][j] == 0.0
    decreases |m|
  {
    if |m| > 0 {
      var n := |m| - 1;
      RowsSumSquaresZero(m[..n]);
      SumSquaresZero(m[n]);
      if RowsSumSquares(m) == 0.0 {
        forall i | 0 <= i < |m| ensures forall j :: 0 <= j < |m[i]| ==> m[i][j] == 0.0 {
          if i < n {
            assert m[..n][i] == m[i];
          }
        }
      }
      if forall i :: 0 <= i < |m| ==> forall j :: 0 <= j < |m[i]| ==> m[i][j] == 0.0 {
        assert forall i :: 0 <= i < n ==> m[..n][i] == m[i];
      }
    }
  }

  /** The loss value `l2_loss(features - centers_batch)`. */
  function CenterLossValue(cb: Matrix, features: Matrix, w: nat): real
    requires |cb| == |features| && Rectangular(cb, w) && Rectangular(features, w)
  {
    L2Loss(Residuals(features, cb, w))
  }

  /** The centre loss is never negative, and zero exactly when every feature sits on its centre. */
  lemma CenterLossZero(cb: Matrix, features: Matrix, w: nat)
    requires |cb| == |features| && Rectangular(cb, w) && Rectangular(features, w)
    ensures CenterLossValue(cb, features, w) >= 0.0
    ensures CenterLossValue(cb, features, w) == 0.0 <==> features == cb
  {
    var res := Residuals(features, cb, w);
    RowsSumSquaresZero(res);
    if RowsSumSquares(res) == 0.0 {
      forall i | 0 <= i < |cb| ensures features[i] == cb[i] {
        forall j | 0 <= j < w ensures features[i][j] == cb[i][j] {
          assert res[i][j] == features[i][j] - cb[i][j] == 0.0;
        }
      }
    }
  }

  /** The non-trainable `centers` variable of one class count and feature width. */
  class CenterTable {
    const numClasses: nat
    const dim: nat
    const centers: array<Vector>

    ghost predicate Valid()
      reads centers
    {
      centers.Length == numClasses && Rectangular(centers[..], dim)
    }

    /** `get_variable('centers', ..., initializer=constant_initializer(0))`. */
    constructor(numClasses: nat, dim: nat)
      ensures Valid() && this.numClasses == numClasses && this.dim == dim
      ensures fresh(centers)
      ensures forall c :: 0 <= c < numClasses ==> centers[c] == Zeros(dim)
    {
      this.numClasses := numClasses;
      this.dim := dim;
      centers := new Vector[numClasses](_ => Zeros(dim));
    }

    /**
     * `center_loss_(labels, features)`: gathers the centres of the batch,
     * pulls them towards the features in place and returns the loss of the
     * features against the centres as gathered before the update.
     */
    method Loss(labels: seq<int>, features: Matrix) returns (r: Result<real, GatherError>)
      requires Valid() && |labels| == |features| && Rectangular(features, dim)
      modifies centers
      ensures Valid()
      ensures r.Err? <==> !LabelsInRange(labels, numClasses)
      ensures r.Err? ==> centers[..] == old(centers[..])
      ensures r.Ok? ==>
        var cb := Gather(old(centers[..]), labels);
        centers[..] == ScatterSub(old(centers[..]), labels, Diffs(cb, features, labels, dim), dim) &&
        r.value == CenterLossValue(cb, features, dim)
      ensures forall c :: 0 <= c < numClasses && c !in labels ==> centers[c] == old(centers[c])
    {
      if !LabelsInRange(labels, numClasses) {
        return Err(InvalidArgument);
      }
      var table := centers[..];
      var cb := Gather(table, labels);
      var diffs := Diffs(cb, features, labels, dim);
      ScatterSubInPlace(labels, diffs);
      forall c | 0 <= c < numClasses && c !in labels ensures centers[c] == table[c] {
        ScatterSubUntouched(table, labels, diffs, dim, c);
      }
      r := Ok(CenterLossValue(cb, features, dim));
    }

    /** `scatter_sub(centers, labels, diff)`: one row update per sample, in batch order. */
    method ScatterSubInPlace(labels: seq<int>, diffs: Matrix)
      requires Valid() && |labels| == |diffs| && Rectangular(diffs, dim) && LabelsInRange(labels, numClasses)
      modifies centers
      ensures Valid()
      ensures centers[..] == ScatterSub(old(centers[..]), labels, diffs, dim)
    {
      ghost var table := centers[..];
      for i := 0 to |labels|
        invariant centers[..] == ScatterSub(table, labels[..i], diffs[..i], dim)
      {
        ScatterSubStep(table, labels, diffs, dim, i);
        centers[labels[i]] := Sub(centers[labels[i]], diffs[i]);
      }
      assert labels[..|labels|] == labels && diffs[..|labels|] == diffs;
    }
  }
}
