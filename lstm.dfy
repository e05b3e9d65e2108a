/**
 * backend/app/models/lstm.py: `create_sequences`, which cuts a feature series
 * into overlapping sequences labelled by their last timestep, and the
 * `LSTMDetector` threshold state machine around an opaque network that maps a
 * sequence to an anomaly probability.
 */
module Lstm {
  import opened Common
  import Stats
  import Strided

  /** The result of `create_sequences`: the sequences and, when labels were given, one label each. */
  datatype SequenceSet = SequenceSet(sequences: seq<seq<seq<real>>>, labels: Option<seq<int>>)

  /**
   * `create_sequences`: for i = 0, stride, 2 * stride, ... while
   * i <= n_timesteps - sequence_length, take rows [i, i + sequence_length) and,
   * when labels are given, the label of row i + sequence_length - 1.
   * `X.shape` must unpack into two dimensions.
   */
  method CreateSequences(x: Matrix<real>, y: Option<seq<int>>, sequenceLength: nat, stride: nat)
    returns (r: Result<SequenceSet>)
    requires stride >= 1 && sequenceLength >= 1
    requires y.Some? ==> |y.value| == |x.rows|
    ensures r.Err? <==> x.ndim != 2
    ensures r.Err? ==> r.error == NotTwoDimensional
    ensures r.Ok? ==> r.value.sequences == Strided.Slices(x.rows, sequenceLength, stride)
    ensures r.Ok? ==> (r.value.labels.Some? <==> y.Some?)
    ensures r.Ok? && y.Some? ==>
              && |r.value.labels.value| == |r.value.sequences|
              && forall j :: 0 <= j < |r.value.sequences| ==>
                   j * stride + sequenceLength - 1 < |x.rows| &&
                   r.value.labels.value[j] == y.value[j * stride + sequenceLength - 1]
  {
    if x.ndim != 2 {
      return Err(NotTwoDimensional);
    }
    var n := |x.rows|;
    var count := Strided.SliceCount(n, sequenceLength, stride);
    Strided.AllSlicesFit(n, sequenceLength, stride);
    var sequences: seq<seq<seq<real>>> := [];
    var labels: seq<int> := [];
    var i := 0;
    while i < n - sequenceLength + 1
      invariant |sequences| <= count
      invariant i == |sequences| * stride
      invariant sequences == Strided.Slices(x.rows, sequenceLength, stride)[..|sequences|]
      invariant y.Some? ==> |labels| == |sequences|
      invariant y.Some? ==> forall j :: 0 <= j < |labels| ==>
                  labels[j] == y.value[j * stride + sequenceLength - 1]
      decreases n - i
    {
      Strided.SliceFitsIff(n, sequenceLength, stride, |sequences|);
      Strided.SlicesPrefixStep(x.rows, sequenceLength, stride, |sequences|);
      Strided.NextStart(|sequences|, stride, 0);
      sequences := sequences + [x.rows[i .. i + sequenceLength]];
      if y.Some? {
        labels := labels + [y.value[i + sequenceLength - 1]];
      }
      i := i + stride;
    }
    Strided.SliceFitsIff(n, sequenceLength, stride, |sequences|);
    assert |sequences| == count;
    assert Strided.Slices(x.rows, sequenceLength, stride)[..count] == Strided.Slices(x.rows, sequenceLength, stride);
    if y.Some? {
      return Ok(SequenceSet(sequences, Some(labels)));
    }
    return Ok(SequenceSet(sequences, None));
  }

  /**
   * Sequence j ends with row j * stride + sequence_length - 1, the row whose
   * label it carries; the count is `max(0, (T - L) // stride + 1)`.
   */
  lemma {:induction false} SequenceEndsAtLabelledRow(rows: seq<seq<real>>, sequenceLength: nat, stride: nat, j: nat)
    requires stride >= 1 && sequenceLength >= 1
    requires j < |Strided.Slices(rows, sequenceLength, stride)|
    ensures |Strided.Slices(rows, sequenceLength, stride)| ==
              (if (|rows| - sequenceLength) / stride + 1 < 0 then 0 else (|rows| - sequenceLength) / stride + 1)
    ensures j * stride + sequenceLength - 1 < |rows|
    ensures Strided.Slices(rows, sequenceLength, stride)[j][sequenceLength - 1] ==
              rows[j * stride + sequenceLength - 1]
  {
    Strided.SliceElement(rows, sequenceLength, stride, j, sequenceLength - 1);
  }

  /** The three cases the repository's tests fix: 100 rows give 91 sequences of 10 at stride 1, 19 at stride 5, and 81 sequences of 20 at stride 1. */
  lemma SequenceCountExamples()
    ensures Strided.SliceCount(100, 10, 1) == 91
    ensures Strided.SliceCount(100, 10, 5) == 19
    ensures Strided.SliceCount(100, 20, 1) == 81
  {
  }

  /** An anomaly probability: the network ends in a sigmoid. */
  type Probability = r: real | 0.0 <= r <= 1.0

  /** The trained network, opaque: one probability per sequence. */
  type SequenceScorer = seq<seq<real>> -> Probability

  const DEFAULT_INPUT_DIM: nat := 30
  const DEFAULT_SEQUENCE_LENGTH: nat := 100
  const DEFAULT_HIDDEN_DIM_1: nat := 64
  const DEFAULT_HIDDEN_DIM_2: nat := 32

  /** `compute_threshold`'s default percentile. */
  const DEFAULT_THRESHOLD_PERCENTILE: real := 50.0

  /** The metadata record written by `save` and read back by `load`. */
  datatype LstmMeta = LstmMeta(
    inputDim: nat, sequenceLength: nat, hiddenDim1: nat, hiddenDim2: nat, threshold: Option<real>)

  /** `LSTMDetector`: the network, its configuration and the optional decision threshold. */
  class LstmDetector {
    const inputDim: nat
    const sequenceLength: nat
    const hiddenDim1: nat
    const hiddenDim2: nat
    var network: SequenceScorer
    var threshold: Option<real>

    /** A new detector has no threshold. */
    constructor(inputDim: nat, sequenceLength: nat, hiddenDim1: nat, hiddenDim2: nat, network: SequenceScorer)
      ensures this.inputDim == inputDim && this.sequenceLength == sequenceLength
      ensures this.hiddenDim1 == hiddenDim1 && this.hiddenDim2 == hiddenDim2
      ensures this.network == network
      ensures threshold == None
    {
      this.inputDim := inputDim;
      this.sequenceLength := sequenceLength;
      this.hiddenDim1 := hiddenDim1;
      this.hiddenDim2 := hiddenDim2;
      this.network := network;
      threshold := None;
    }

    /** `_get_anomaly_scores`: one probability in [0, 1] per sequence, in order. */
    function Scores(xs: seq<seq<seq<real>>>): (s: seq<real>)
      reads this`network
      ensures |s| == |xs|
      ensures forall i :: 0 <= i < |xs| ==> 0.0 <= s[i] <= 1.0 && s[i] == network(xs[i]) as real
    {
      var f := network;
      seq(|xs|, i requires 0 <= i < |xs| => f(xs[i]) as real)
    }

    /**
     * The first LSTM layer (`nn.LSTM(input_size=input_dim)`) accepts only
     * sequences whose rows have `input_dim` features.
     */
    predicate Fits(xs: seq<seq<seq<real>>>)
    {
      forall i, j :: 0 <= i < |xs| && 0 <= j < |xs[i]| ==> |xs[i][j]| == inputDim
    }

    /**
     * `compute_threshold`: the given percentile (50 by default) of the validation scores becomes
     * the threshold and is returned; it lies between the smallest and largest
     * score, hence in [0, 1]. Sequences of the wrong width make the network
     * fail; when the percentile cannot be taken (no scores, or a percentile
     * outside [0, 100]) the call fails too. A failed call changes nothing.
     */
    method ComputeThreshold(xVal: seq<seq<seq<real>>>, percentile: real := DEFAULT_THRESHOLD_PERCENTILE)
      returns (r: Result<real>)
      modifies this
      ensures network == old(network)
      ensures !Fits(xVal) ==> r == Err(ShapeMismatch)
      ensures Fits(xVal) ==> r == Stats.Percentile(Scores(xVal), percentile)
      ensures r.Ok? ==> threshold == Some(r.value)
      ensures r.Ok? ==> Stats.MinOf(Scores(xVal)) <= r.value <= Stats.MaxOf(Scores(xVal))
      ensures r.Ok? ==> 0.0 <= r.value <= 1.0
      ensures r.Err? ==> threshold == old(threshold)
    {
      if !Fits(xVal) {
        return Err(ShapeMismatch);
      }
      var scores := Scores(xVal);
      r := Stats.Percentile(scores, percentile);
      if r.Ok? {
        Stats.PercentileBetweenMinAndMax(scores, percentile);
        assert Stats.MinOf(scores) >= 0.0 by {
          var k :| 0 <= k < |scores| && scores[k] == Stats.MinOf(scores);
        }
        assert Stats.MaxOf(scores) <= 1.0 by {
          var k :| 0 <= k < |scores| && scores[k] == Stats.MaxOf(scores);
        }
        threshold := Some(r.value);
      }
    }

    /**
     * `predict`: fails until a threshold is set, then on sequences of the
     * wrong width; otherwise one score per sequence, and label 1 exactly for
     * the scores above the threshold, 0 for the rest.
     */
    function Predict(xs: seq<seq<seq<real>>>): (r: Result<Scored>)
      reads this
      ensures threshold.None? ==> r == Err(ThresholdNotSet)
      ensures threshold.Some? ==> (r.Err? <==> !Fits(xs))
      ensures threshold.Some? && r.Err? ==> r.error == ShapeMismatch
      ensures r.Ok? ==> |r.value.scores| == |xs| && |r.value.labels| == |xs|
      ensures r.Ok? ==> r.value.scores == Scores(xs)
      ensures r.Ok? ==> forall i :: 0 <= i < |xs| ==>
                && 0.0 <= r.value.scores[i] <= 1.0
                && (r.value.labels[i] == 1 <==> r.value.scores[i] > threshold.value)
                && (r.value.labels[i] == 0 <==> r.value.scores[i] <= threshold.value)
    {
      if threshold.None? then Err(ThresholdNotSet)
      else if !Fits(xs) then Err(ShapeMismatch)
      else
        var s := Scores(xs);
        Ok(Scored(s, Stats.AboveThreshold(s, threshold.value)))
    }

    /** `save`'s metadata record. */
    function Save(): LstmMeta
      reads this
    {
      LstmMeta(inputDim, sequenceLength, hiddenDim1, hiddenDim2, threshold)
    }

    /**
     * `load`: a detector built from a saved record and saved weights; saving it
     * again gives back the same record, and it scores like the saved network.
     */
    static method Load(meta: LstmMeta, weights: SequenceScorer) returns (d: LstmDetector)
      ensures fresh(d)
      ensures d.Save() == meta
      ensures d.network == weights
    {
      d := new LstmDetector(meta.inputDim, meta.sequenceLength, meta.hiddenDim1, meta.hiddenDim2, weights);
      d.threshold := meta.threshold;
    }
  }

  /** Two detectors with the same record and the same weights predict alike, so a save/load round trip keeps predictions. */
  lemma SameStateSamePrediction(a: LstmDetector, b: LstmDetector, xs: seq<seq<seq<real>>>)
    requires a.Save() == b.Save() && a.network == b.network
    ensures a.Predict(xs) == b.Predict(xs)
  {
    assert a.threshold == a.Save().threshold == b.threshold;
    assert a.Scores(xs) == b.Scores(xs);
  }
}
