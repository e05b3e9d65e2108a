/**
 * backend/app/models/autoencoder.py: the `AnomalyDetector` threshold state
 * machine around an opaque reconstruction network. A sample's score is the
 * mean squared difference between the sample and its reconstruction.
 */
module Autoencoder {
  import opened Common
  import Stats

  /** The trained network, opaque: it maps a feature vector to its reconstruction. */
  type Reconstructor = seq<real> -> seq<real>

  const DEFAULT_INPUT_DIM: nat := 30

  /** A layer width: the network has at least one input feature. */
  type Width = n: nat | n >= 1 witness 1

  /** `compute_threshold`'s default percentile. */
  const DEFAULT_THRESHOLD_PERCENTILE: real := 95.0

  function Difference(x: seq<real>, y: seq<real>): (d: seq<real>)
    requires |x| == |y|
    ensures |d| == |x|
    ensures forall i :: 0 <= i < |x| ==> d[i] == x[i] - y[i]
  {
    seq(|x|, i requires 0 <= i < |x| => x[i] - y[i])
  }

  /** `torch.mean((x - recon) ** 2)` over the features of one sample. */
  function MeanSquaredError(x: seq<real>, recon: seq<real>): real
    requires |x| == |recon| > 0
  {
    Stats.SumSquares(Difference(x, recon)) / |x| as real
  }

  /** A reconstruction error is never negative. */
  lemma {:induction false} MeanSquaredErrorNonNegative(x: seq<real>, recon: seq<real>)
    requires |x| == |recon| > 0
    ensures MeanSquaredError(x, recon) >= 0.0
  {
    var e := Stats.SumSquares(Difference(x, recon));
    assert e >= 0.0;
    assert e / (|x| as real) >= 0.0;
  }

  /** A perfect reconstruction has zero error. */
  lemma MeanSquaredErrorOfPerfect(x: seq<real>)
    requires |x| > 0
    ensures MeanSquaredError(x, x) == 0.0
  {
    Stats.SumSquaresOfZeros(Difference(x, x));
  }

  /** The metadata record written by `save` and read back by `load`. */
  datatype AutoencoderMeta = AutoencoderMeta(inputDim: nat, threshold: Option<real>)

  /** `AnomalyDetector`: the network, its input width and the optional threshold. */
  class AnomalyDetector {
    const inputDim: Width
    var network: Reconstructor
    var threshold: Option<real>

    /** A new detector has no threshold. */
    constructor(inputDim: Width, network: Reconstructor)
      ensures this.inputDim == inputDim && this.network == network
      ensures threshold == None
    {
      this.inputDim := inputDim;
      this.network := network;
      threshold := None;
    }

    /**
     * The network accepts only rows of `input_dim` features, and its output has
     * the width of its input.
     */
    predicate Fits(xs: seq<seq<real>>)
      reads this`network
    {
      forall i :: 0 <= i < |xs| ==> |xs[i]| == inputDim && |network(xs[i])| == |xs[i]|
    }

    /**
     * `_reconstruction_errors`: one non-negative error per row, in order; a row
     * of the wrong width makes the network fail.
     */
    function ReconstructionErrors(xs: seq<seq<real>>): (r: Result<seq<real>>)
      reads this`network
      ensures r.Err? <==> !Fits(xs)
      ensures r.Err? ==> r.error == ShapeMismatch
      ensures r.Ok? ==> |r.value| == |xs|
      ensures r.Ok? ==> forall i :: 0 <= i < |xs| ==>
                |xs[i]| == inputDim && |network(xs[i])| == |xs[i]| &&
                r.value[i] == MeanSquaredError(xs[i], network(xs[i]))
      ensures r.Ok? ==> forall i :: 0 <= i < |xs| ==> r.value[i] >= 0.0
    {
      if !Fits(xs) then Err(ShapeMismatch)
      else
        var f := network;
        var errors := seq(|xs|, i requires 0 <= i < |xs| && |xs[i]| >= 1 && |f(xs[i])| == |xs[i]| =>
          MeanSquaredError(xs[i], f(xs[i])));
        assert forall i :: 0 <= i < |xs| ==> errors[i] >= 0.0 by {
          forall i | 0 <= i < |xs|
            ensures errors[i] >= 0.0
          {
            MeanSquaredErrorNonNegative(xs[i], f(xs[i]));
          }
        }
        Ok(errors)
    }

    /**
     * `compute_threshold`: the given percentile (95 by default) of the validation errors becomes
     * the threshold and is returned; it lies between the smallest and largest
     * error. When the errors or the percentile cannot be computed nothing changes.
     */
    method ComputeThreshold(xVal: seq<seq<real>>, percentile: real := DEFAULT_THRESHOLD_PERCENTILE)
      returns (r: Result<real>)
      modifies this
      ensures network == old(network)
      ensures ReconstructionErrors(xVal).Err? ==> r == Err(ShapeMismatch)
      ensures ReconstructionErrors(xVal).Ok? ==> r == Stats.Percentile(ReconstructionErrors(xVal).value, percentile)
      ensures r.Ok? ==> threshold == Some(r.value) && r.value >= 0.0
      ensures r.Ok? ==> Stats.MinOf(ReconstructionErrors(xVal).value) <= r.value <= Stats.MaxOf(ReconstructionErrors(xVal).value)
      ensures r.Err? ==> threshold == old(threshold)
    {
      var errors := ReconstructionErrors(xVal);
      if errors.Err? {
        return Err(errors.error);
      }
      r := Stats.Percentile(errors.value, percentile);
      if r.Ok? {
        Stats.PercentileBetweenMinAndMax(errors.value, percentile);
        assert Stats.MinOf(errors.value) >= 0.0 by {
          var k :| 0 <= k < |errors.value| && errors.value[k] == Stats.MinOf(errors.value);
        }
        threshold := Some(r.value);
      }
    }

    /**
     * `predict`: fails until a threshold is set; then one error per row, and
     * label 1 exactly for the errors above the threshold, 0 for the rest.
     */
    function Predict(xs: seq<seq<real>>): (r: Result<Scored>)
      reads this
      ensures threshold.None? ==> r == Err(ThresholdNotSet)
      ensures threshold.Some? ==> (r.Err? <==> !Fits(xs))
      ensures r.Ok? ==> r.value.scores == ReconstructionErrors(xs).value
      ensures r.Ok? ==> |r.value.scores| == |xs| && |r.value.labels| == |xs|
      ensures r.Ok? ==> forall i :: 0 <= i < |xs| ==>
                && r.value.scores[i] >= 0.0
                && (r.value.labels[i] == 1 <==> r.value.scores[i] > threshold.value)
                && (r.value.labels[i] == 0 <==> r.value.scores[i] <= threshold.value)
    {
      if threshold.None? then Err(ThresholdNotSet)
      else
        match ReconstructionErrors(xs)
        case Err(e) => Err(e)
        case Ok(s) => Ok(Scored(s, Stats.AboveThreshold(s, threshold.value)))
    }

    /** `save`'s metadata record. */
    function Save(): AutoencoderMeta
      reads this
    {
      AutoencoderMeta(inputDim, threshold)
    }

    /** `load`: saving the loaded detector gives back the record it was loaded from. */
    static method Load(meta: AutoencoderMeta, weights: Reconstructor) returns (d: AnomalyDetector)
      requires meta.inputDim >= 1
      ensures fresh(d)
      ensures d.Save() == meta
      ensures d.network == weights
    {
      d := new AnomalyDetector(meta.inputDim as Width, weights);
      d.threshold := meta.threshold;
    }
  }

  /** Same record and same weights give the same predictions, so a save/load round trip keeps them. */
  lemma SameStateSamePrediction(a: AnomalyDetector, b: AnomalyDetector, xs: seq<seq<real>>)
    requires a.Save() == b.Save() && a.network == b.network
    ensures a.Predict(xs) == b.Predict(xs)
  {
    assert a.inputDim == a.Save().inputDim == b.inputDim;
    assert a.threshold == b.threshold;
    assert a.Fits(xs) == b.Fits(xs);
    assert a.ReconstructionErrors(xs) == b.ReconstructionErrors(xs);
  }
}
