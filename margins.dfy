/**
 * The margin heads CosFace (`coco_loss`) and ArcFace (`AAM_loss`). Both take
 * a matrix of cosines between normalised embeddings and normalised class
 * weights, and use a one-hot mask of the labels to treat each row's target
 * column differently from the rest. The cosines, the sines and the
 * trigonometric constants are inputs: normalisation, `sqrt`, `cos` and
 * `sin` stay outside the model.
 */
module MarginLosses {
  import opened Vectors

  /** `tf.one_hot(cls, depth)`: a class outside `[0, depth)` gives all zeros. */
  function OneHot(cls: int, depth: nat): (r: Vector)
    ensures |r| == depth
    ensures forall j :: 0 <= j < depth ==> r[j] == 0.0 || r[j] == 1.0
  {
    seq(depth, j requires 0 <= j < depth => if j == cls then 1.0 else 0.0)
  }

  /** A one-hot row marks exactly one column when the class is in range, none otherwise. */
  lemma {:induction false} OneHotSum(cls: int, depth: nat)
    ensures Sum(OneHot(cls, depth)) == if 0 <= cls < depth then 1.0 else 0.0
  {
    if depth > 0 {
      var r := OneHot(cls, depth);
      assert r[..depth - 1] == OneHot(cls, depth - 1);
      OneHotSum(cls, depth - 1);
    }
  }

  /** The column a one-hot row marks is the class itself. */
  lemma OneHotMarks(cls: int, depth: nat, j: nat)
    requires j < depth
    ensures OneHot(cls, depth)[j] == 1.0 <==> j == cls
  {
  }

  /** `tf.nn.relu`. */
  function Relu(x: real): (r: real)
    ensures r >= 0.0 && (r != 0.0 <==> x > 0.0)
  {
    if x > 0.0 then x else 0.0
  }

  // CosFace

  const CosFaceScale: real := 30.0
  const CosFaceMargin: real := 0.4

  /** One row of `cosineface_losses`: `s*cos*(1 - mask) + s*(cos - m)*mask`. */
  function CosFaceRow(mask: Vector, cosT: Vector): (out: Vector)
    requires |mask| == |cosT|
    ensures |out| == |cosT|
  {
    seq(|cosT|, j requires 0 <= j < |cosT| =>
      CosFaceScale * (cosT[j] * (1.0 - mask[j])) + CosFaceScale * ((cosT[j] - CosFaceMargin) * mask[j]))
  }

  /** `cosineface_losses(y_true, ·)` applied to the cosine matrix `cosT`. */
  function CosFaceLogits(labels: seq<int>, cosT: Matrix, outNum: nat): (out: Matrix)
    requires |labels| == |cosT| && Rectangular(cosT, outNum)
    ensures |out| == |cosT| && Rectangular(out, outNum)
  {
    seq(|cosT|, i requires 0 <= i < |cosT| => CosFaceRow(OneHot(labels[i], outNum), cosT[i]))
  }

  /**
   * The mask subtracts the margin in the target column only: `s*(cos - m)`
   * there and `s*cos` in every other column.
   */
  lemma CosFaceColumns(labels: seq<int>, cosT: Matrix, outNum: nat, i: nat, j: nat)
    requires |labels| == |cosT| && Rectangular(cosT, outNum)
    requires i < |cosT| && j < outNum
    ensures CosFaceLogits(labels, cosT, outNum)[i][j]
      == if j == labels[i] then CosFaceScale * (cosT[i][j] - CosFaceMargin) else CosFaceScale * cosT[i][j]
  {
    var mask := OneHot(labels[i], outNum);
    if j == labels[i] {
      assert mask[j] == 1.0;
    } else {
      assert mask[j] == 0.0;
    }
  }

  /** A label outside `[0, outNum)` gets no margin at all: its row is just `s*cos`. */
  lemma CosFaceLabelOutOfRange(labels: seq<int>, cosT: Matrix, outNum: nat, i: nat)
    requires |labels| == |cosT| && Rectangular(cosT, outNum)
    requires i < |cosT| && !(0 <= labels[i] < outNum)
    ensures CosFaceLogits(labels, cosT, outNum)[i] == Scale(CosFaceScale, cosT[i])
  {
    forall j | 0 <= j < outNum
      ensures CosFaceLogits(labels, cosT, outNum)[i][j] == Scale(CosFaceScale, cosT[i])[j]
    {
      CosFaceColumns(labels, cosT, outNum, i, j);
    }
  }

  // ArcFace (additive angular margin)

  const AamScale: real := 64.0
  const AamMargin: real := 0.5

  /**
   * The values `math.cos(m)`, `math.sin(m)` and `math.cos(pi - m)` the head
   * computes once; they are given, not derived.
   */
  datatype Trig = Trig(cosM: real, sinM: real, threshold: real)

  /** `cos_mt_temp`: `s*cos(theta + m)` while `theta + m` stays below pi, else `s*(cos - sin(m)*m)`. */
  function AamTarget(t: Trig, cosT: real, sinT: real): real {
    var cosMT := AamScale * (cosT * t.cosM - sinT * t.sinM);
    var keepVal := AamScale * (cosT - t.sinM * AamMargin);
    var cond := Relu(cosT - t.threshold) != 0.0;
    if cond then cosMT else keepVal
  }

  /** One row of `additive_angular_margin_loss`: `s*cos*(1 - mask) + target*mask`. */
  function AamRow(t: Trig, mask: Vector, cosT: Vector, sinT: Vector): (out: Vector)
    requires |mask| == |cosT| == |sinT|
    ensures |out| == |cosT|
  {
    seq(|cosT|, j requires 0 <= j < |cosT| =>
      (AamScale * cosT[j]) * (1.0 - mask[j]) + AamTarget(t, cosT[j], sinT[j]) * mask[j])
  }

  /**
   * `additive_angular_margin_loss(y_true, ·)` applied to the cosine matrix
   * `cosT` and the matching sines `sinT` (the `sqrt(1 - cos^2)` of the head).
   */
  function AamLogits(t: Trig, labels: seq<int>, cosT: Matrix, sinT: Matrix, outNum: nat): (out: Matrix)
    requires |labels| == |cosT| == |sinT| && Rectangular(cosT, outNum) && Rectangular(sinT, outNum)
    ensures |out| == |cosT| && Rectangular(out, outNum)
  {
    seq(|cosT|, i requires 0 <= i < |cosT| => AamRow(t, OneHot(labels[i], outNum), cosT[i], sinT[i]))
  }

  /**
   * Non-target columns are `s*cos`; the target column is
   * `s*(cos*cos(m) - sin*sin(m))` when `cos > threshold` and
   * `s*(cos - sin(m)*m)` otherwise.
   */
  lemma AamColumns(t: Trig, labels: seq<int>, cosT: Matrix, sinT: Matrix, outNum: nat, i: nat, j: nat)
    requires |labels| == |cosT| == |sinT| && Rectangular(cosT, outNum) && Rectangular(sinT, outNum)
    requires i < |cosT| && j < outNum
    ensures AamLogits(t, labels, cosT, sinT, outNum)[i][j] ==
      if j != labels[i] then AamScale * cosT[i][j]
      else if cosT[i][j] > t.threshold then AamScale * (cosT[i][j] * t.cosM - sinT[i][j] * t.sinM)
      else AamScale * (cosT[i][j] - t.sinM * AamMargin)
  {
    var mask := OneHot(labels[i], outNum);
    var target := AamTarget(t, cosT[i][j], sinT[i][j]);
    if j == labels[i] {
      assert mask[j] == 1.0;
      assert AamLogits(t, labels, cosT, sinT, outNum)[i][j] == (AamScale * cosT[i][j]) * 0.0 + target * 1.0;
    } else {
      assert mask[j] == 0.0;
      assert AamLogits(t, labels, cosT, sinT, outNum)[i][j] == (AamScale * cosT[i][j]) * 1.0 + target * 0.0;
    }
  }

  /** A label outside `[0, outNum)` gets no margin at all: its row is just `s*cos`. */
  lemma AamLabelOutOfRange(t: Trig, labels: seq<int>, cosT: Matrix, sinT: Matrix, outNum: nat, i: nat)
    requires |labels| == |cosT| == |sinT| && Rectangular(cosT, outNum) && Rectangular(sinT, outNum)
    requires i < |cosT| && !(0 <= labels[i] < outNum)
    ensures AamLogits(t, labels, cosT, sinT, outNum)[i] == Scale(AamScale, cosT[i])
  {
    forall j | 0 <= j < outNum
      ensures AamLogits(t, labels, cosT, sinT, outNum)[i][j] == Scale(AamScale, cosT[i])[j]
    {
      AamColumns(t, labels, cosT, sinT, outNum, i, j);
    }
  }
}
