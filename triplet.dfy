/**
 * The triplet loss of Deep Speaker over exact reals: a batch of embeddings
 * laid out as all anchors, then all positives, then all negatives, scored
 * by row dot products and averaged as a hinge with margin `alpha`.
 */
module TripletLoss {
  import opened Wrappers
  import opened Vectors

  /** Two matrices with the same number of rows, row `i` of each of one length. */
  predicate RowsMatch(x1: Matrix, x2: Matrix) {
    |x1| == |x2| && forall i :: 0 <= i < |x1| ==> |x1[i]| == |x2[i]|
  }

  /** Every row of `m` is as long as the first. */
  predicate SameWidth(m: Matrix) {
    forall i :: 0 <= i < |m| ==> |m[i]| == |m[0]|
  }

  /**
   * `batch_cosine_similarity`: despite its name, the dot product of
   * corresponding rows, with no division by the norms.
   */
  function BatchCosineSimilarity(x1: Matrix, x2: Matrix): (r: seq<real>)
    requires RowsMatch(x1, x2)
    ensures |r| == |x1|
  {
    seq(|x1|, i requires 0 <= i < |x1| => Dot(x1[i], x2[i]))
  }

  /** The "similarity" is symmetric in its two batches. */
  lemma SimilaritySymmetric(x1: Matrix, x2: Matrix)
    requires RowsMatch(x1, x2)
    ensures RowsMatch(x2, x1)
    ensures BatchCosineSimilarity(x1, x2) == BatchCosineSimilarity(x2, x1)
  {
    forall i | 0 <= i < |x1|
      ensures BatchCosineSimilarity(x1, x2)[i] == BatchCosineSimilarity(x2, x1)[i]
    {
      DotSymmetric(x1[i], x2[i]);
    }
  }

  /**
   * No normalisation takes place: scaling one row of the first batch by `k`
   * scales that row's similarity by `k` and leaves the others alone, which a
   * true cosine similarity would not do for `k > 0`.
   */
  lemma SimilarityNotNormalised(x1: Matrix, x2: Matrix, row: nat, k: real)
    requires RowsMatch(x1, x2) && row < |x1|
    ensures RowsMatch(x1[row := Scale(k, x1[row])], x2)
    ensures BatchCosineSimilarity(x1[row := Scale(k, x1[row])], x2)[row] == k * BatchCosineSimilarity(x1, x2)[row]
    ensures forall i :: 0 <= i < |x1| && i != row ==>
      BatchCosineSimilarity(x1[row := Scale(k, x1[row])], x2)[i] == BatchCosineSimilarity(x1, x2)[i]
  {
    DotScale(k, x1[row], x2[row]);
  }

  /** `tf.maximum(x, 0.0)`. */
  function Max0(x: real): (r: real)
    ensures r >= 0.0 && r >= x && (r == 0.0 <==> x <= 0.0)
  {
    if x > 0.0 then x else 0.0
  }

  /** The per-triplet hinges `max(san - sap + alpha, 0)` of three blocks. */
  function Hinges(anchor: Matrix, positive: Matrix, negative: Matrix, alpha: real): (h: seq<real>)
    requires RowsMatch(anchor, positive) && RowsMatch(anchor, negative)
    ensures |h| == |anchor|
  {
    var sap := BatchCosineSimilarity(anchor, positive);
    var san := BatchCosineSimilarity(anchor, negative);
    seq(|anchor|, i requires 0 <= i < |anchor| => Max0(san[i] - sap[i] + alpha))
  }

  /**
   * `deep_speaker_loss`: `y_true` is accepted and unused; the batch size is
   * the floor of a third of the rows; `None` stands for the NaN that
   * `reduce_mean` gives on an empty batch.
   */
  function DeepSpeakerLoss<L>(yTrue: L, yPred: Matrix, alpha: real): (r: Option<real>)
    requires SameWidth(yPred)
  {
    var n := |yPred| / 3;
    var anchor := yPred[..n];
    var positive := yPred[n..2 * n];
    var negative := yPred[2 * n..3 * n];
    if n == 0 then None else Some(Mean(Hinges(anchor, positive, negative, alpha)))
  }

  /** The hinge of triplet `i`, read straight from the batch layout. */
  function TripletHinge(yPred: Matrix, i: nat, alpha: real): real
    requires SameWidth(yPred) && i < |yPred| / 3
  {
    var n := |yPred| / 3;
    Max0(Dot(yPred[i], yPred[2 * n + i]) - Dot(yPred[i], yPred[n + i]) + alpha)
  }

  /** All the triplet hinges of a batch, by the layout. */
  function TripletHinges(yPred: Matrix, alpha: real): (h: seq<real>)
    requires SameWidth(yPred)
    ensures |h| == |yPred| / 3
  {
    seq(|yPred| / 3, i requires 0 <= i < |yPred| / 3 => TripletHinge(yPred, i, alpha))
  }

  /**
   * The three slices are consecutive blocks `[0,N)`, `[N,2N)`, `[2N,3N)`:
   * the loss is defined exactly when there is a full triplet, and is then the
   * arithmetic mean of the per-triplet hinges.
   */
  lemma DeepSpeakerLossIsMean<L>(yTrue: L, yPred: Matrix, alpha: real)
    requires SameWidth(yPred)
    ensures DeepSpeakerLoss(yTrue, yPred, alpha).None? <==> |yPred| < 3
    ensures |yPred| >= 3 ==> DeepSpeakerLoss(yTrue, yPred, alpha) == Some(Mean(TripletHinges(yPred, alpha)))
  {
    var n := |yPred| / 3;
    if n > 0 {
      BlocksHinges(yPred, alpha);
    }
  }

  /** The hinges of the three blocks are the triplet hinges by the layout. */
  lemma BlocksHinges(yPred: Matrix, alpha: real)
    requires SameWidth(yPred)
    ensures var n := |yPred| / 3;
      Hinges(yPred[..n], yPred[n..2 * n], yPred[2 * n..3 * n], alpha) == TripletHinges(yPred, alpha)
  {
    var n := |yPred| / 3;
    var anchor, positive, negative := yPred[..n], yPred[n..2 * n], yPred[2 * n..3 * n];
    var h, t := Hinges(anchor, positive, negative, alpha), TripletHinges(yPred, alpha);
    forall i | 0 <= i < n ensures h[i] == t[i] {
      assert anchor[i] == yPred[i];
      assert positive[i] == yPred[n + i];
      assert negative[i] == yPred[2 * n + i];
    }
  }

  /** The loss is never negative. */
  lemma DeepSpeakerLossNonNegative<L>(yTrue: L, yPred: Matrix, alpha: real)
    requires SameWidth(yPred)
    ensures DeepSpeakerLoss(yTrue, yPred, alpha).Some? ==> DeepSpeakerLoss(yTrue, yPred, alpha).value >= 0.0
  {
    DeepSpeakerLossIsMean(yTrue, yPred, alpha);
    if |yPred| >= 3 {
      MeanNonNegative(TripletHinges(yPred, alpha));
    }
  }

  /**
   * The loss is zero exactly when every triplet already keeps its negative
   * at least `alpha` less similar to the anchor than its positive.
   */
  lemma DeepSpeakerLossZero<L>(yTrue: L, yPred: Matrix, alpha: real)
    requires SameWidth(yPred) && |yPred| >= 3
    ensures DeepSpeakerLoss(yTrue, yPred, alpha) == Some(0.0) <==> MarginsMet(yPred, alpha)
  {
    var h := TripletHinges(yPred, alpha);
    DeepSpeakerLossIsMean(yTrue, yPred, alpha);
    MeanNonNegative(h);
    HingesZero(yPred, alpha);
  }

  /** Every triplet's negative scores at least `alpha` below its positive. */
  predicate MarginsMet(yPred: Matrix, alpha: real)
    requires SameWidth(yPred)
  {
    var n := |yPred| / 3;
    forall i :: 0 <= i < n ==> Dot(yPred[i], yPred[2 * n + i]) + alpha <= Dot(yPred[i], yPred[n + i])
  }

  /** A hinge vanishes exactly when its triplet meets the margin. */
  lemma HingesZero(yPred: Matrix, alpha: real)
    requires SameWidth(yPred)
    ensures var h := TripletHinges(yPred, alpha);
      (forall i :: 0 <= i < |h| ==> h[i] == 0.0) <==> MarginsMet(yPred, alpha)
  {
    var n := |yPred| / 3;
    var h := TripletHinges(yPred, alpha);
    if forall i :: 0 <= i < |h| ==> h[i] == 0.0 {
      forall i | 0 <= i < n ensures Dot(yPred[i], yPred[2 * n + i]) + alpha <= Dot(yPred[i], yPred[n + i]) {
        assert h[i] == TripletHinge(yPred, i, alpha) == 0.0;
      }
    }
  }

  /** Being a mean, the loss is at most any bound on every triplet's hinge. */
  lemma DeepSpeakerLossAtMost<L>(yTrue: L, yPred: Matrix, alpha: real, m: real)
    requires SameWidth(yPred) && |yPred| >= 3
    requires forall i :: 0 <= i < |yPred| / 3 ==> TripletHinge(yPred, i, alpha) <= m
    ensures DeepSpeakerLoss(yTrue, yPred, alpha).Some? && DeepSpeakerLoss(yTrue, yPred, alpha).value <= m
  {
    DeepSpeakerLossIsMean(yTrue, yPred, alpha);
    MeanAtMost(TripletHinges(yPred, alpha), m);
  }

  /**
   * Only the first `3N` rows matter, and the labels not at all: two batches
   * with the same triplet count that agree on those rows score the same.
   */
  lemma DeepSpeakerLossIgnoresRest<L>(yTrue1: L, yTrue2: L, yPred1: Matrix, yPred2: Matrix, alpha: real)
    requires SameWidth(yPred1) && SameWidth(yPred2)
    requires |yPred1| / 3 == |yPred2| / 3
    requires yPred1[..3 * (|yPred1| / 3)] == yPred2[..3 * (|yPred2| / 3)]
    ensures DeepSpeakerLoss(yTrue1, yPred1, alpha) == DeepSpeakerLoss(yTrue2, yPred2, alpha)
  {
    var n := |yPred1| / 3;
    SliceOfPrefix(yPred1, 3 * n, 0, n);
    SliceOfPrefix(yPred2, 3 * n, 0, n);
    SliceOfPrefix(yPred1, 3 * n, n, 2 * n);
    SliceOfPrefix(yPred2, 3 * n, n, 2 * n);
    SliceOfPrefix(yPred1, 3 * n, 2 * n, 3 * n);
    SliceOfPrefix(yPred2, 3 * n, 2 * n, 3 * n);
  }

  /** A slice of a prefix is the same slice of the whole. */
  lemma SliceOfPrefix<T>(s: seq<T>, m: nat, i: nat, j: nat)
    requires i <= j <= m <= |s|
    ensures s[..m][i..j] == s[i..j]
  {
  }
}
