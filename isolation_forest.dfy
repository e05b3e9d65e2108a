/**
 * backend/app/models/isolation_forest.py: the `IsolationForestDetector` fitted
 * flag around an opaque scikit-learn forest, its guarded queries, and the
 * negate-then-min-max rescaling that turns decision values into anomaly scores.
 */
module IsolationForest {
  import opened Common
  import Stats

  /** The forest's raw verdict: -1 for an outlier, 1 for an inlier. */
  type RawLabel = r: int | r == -1 || r == 1 witness 1

  /**
   * The scikit-learn estimator: the row width it was fitted on
   * (`n_features_in_`) and, opaque, its per-sample verdict and its decision
   * value (more negative means more anomalous).
   */
  datatype Forest = Forest(nFeaturesIn: nat, verdict: seq<real> -> RawLabel, decision: seq<real> -> real)

  /** Fitting, opaque: the estimator learned from a training set. */
  type Fit = seq<seq<real>> -> Forest

  const DEFAULT_N_ESTIMATORS: nat := 100
  const DEFAULT_CONTAMINATION: real := 0.1
  const DEFAULT_MAX_SAMPLES: nat := 256
  const DEFAULT_RANDOM_STATE: int := 42

  function Negate(d: seq<real>): (n: seq<real>)
    ensures |n| == |d|
    ensures forall i :: 0 <= i < |d| ==> n[i] == -d[i]
  {
    seq(|d|, i requires 0 <= i < |d| => -d[i])
  }

  /**
   * `_normalize_scores`: negate the decision values, then rescale them to
   * [0, 1] by min and max, or to all zeros when their spread is below 1e-10.
   * The minimum of an empty array raises.
   */
  function NormalizeScores(d: seq<real>): (r: Option<seq<real>>)
    ensures r.Some? <==> |d| > 0
    ensures r.Some? ==> |r.value| == |d|
  {
    Stats.MinMaxScale(Negate(d))
  }

  /** Negation swaps the extremes. */
  lemma {:induction false} NegateExtremes(d: seq<real>)
    requires |d| > 0
    ensures Stats.MaxOf(Negate(d)) == -Stats.MinOf(d)
    ensures Stats.MinOf(Negate(d)) == -Stats.MaxOf(d)
  {
    var n := Negate(d);
    var i :| 0 <= i < |d| && d[i] == Stats.MinOf(d);
    var j :| 0 <= j < |n| && n[j] == Stats.MaxOf(n);
    assert n[i] <= Stats.MaxOf(n);
    assert Stats.MinOf(d) <= d[j];
    var k :| 0 <= k < |d| && d[k] == Stats.MaxOf(d);
    var m :| 0 <= m < |n| && n[m] == Stats.MinOf(n);
    assert Stats.MinOf(n) <= n[k];
    assert d[m] <= Stats.MaxOf(d);
  }

  /** Every normalised score lies in [0, 1]. */
  lemma {:induction false} NormalizedInUnitInterval(d: seq<real>, i: int)
    requires 0 <= i < |d|
    ensures 0.0 <= NormalizeScores(d).value[i] <= 1.0
  {
    Stats.MinMaxScaleInUnitInterval(Negate(d), i);
  }

  /** A spread of decision values below 1e-10 gives all-zero scores. */
  lemma {:induction false} NormalizedFlat(d: seq<real>)
    requires |d| > 0 && Stats.MaxOf(d) - Stats.MinOf(d) < Stats.SCALE_EPSILON
    ensures forall i :: 0 <= i < |d| ==> NormalizeScores(d).value[i] == 0.0
  {
    NegateExtremes(d);
    Stats.MinMaxScaleFlat(Negate(d));
  }

  /** The order is reversed: a lower decision value never gets a lower score. */
  lemma {:induction false} NormalizedReversesOrder(d: seq<real>, i: int, j: int)
    requires 0 <= i < |d| && 0 <= j < |d| && d[i] <= d[j]
    ensures NormalizeScores(d).value[i] >= NormalizeScores(d).value[j]
  {
    Stats.MinMaxScaleMonotone(Negate(d), j, i);
  }

  /**
   * Unless the spread is below 1e-10, the most anomalous sample (minimum
   * decision value) scores 1 and the least anomalous (maximum) scores 0.
   */
  lemma {:induction false} NormalizedExtremes(d: seq<real>, i: int)
    requires 0 <= i < |d| && Stats.MaxOf(d) - Stats.MinOf(d) >= Stats.SCALE_EPSILON
    ensures d[i] == Stats.MinOf(d) ==> NormalizeScores(d).value[i] == 1.0
    ensures d[i] == Stats.MaxOf(d) ==> NormalizeScores(d).value[i] == 0.0
  {
    NegateExtremes(d);
    Stats.MinMaxScaleExtremes(Negate(d), i);
  }

  /** What `fit` accepts: at least one row, at least one feature, and rows of one width. */
  predicate TrainingShape(xs: seq<seq<real>>)
  {
    |xs| > 0 && |xs[0]| > 0 && forall i :: 0 <= i < |xs| ==> |xs[i]| == |xs[0]|
  }

  /** The metadata record written by `save` and read back by `load`. */
  datatype ForestMeta = ForestMeta(
    nEstimators: nat, contamination: real, maxSamples: nat, randomState: int, isFitted: bool)

  /** `IsolationForestDetector`: configuration, the estimator and the fitted flag. */
  class IsolationForestDetector {
    const nEstimators: nat
    const contamination: real
    const maxSamples: nat
    const randomState: int
    var forest: Forest
    var isFitted: bool

    /** A new detector is not fitted. */
    constructor(nEstimators: nat, contamination: real, maxSamples: nat, randomState: int, forest: Forest)
      ensures this.nEstimators == nEstimators && this.contamination == contamination
      ensures this.maxSamples == maxSamples && this.randomState == randomState
      ensures this.forest == forest
      ensures !isFitted
    {
      this.nEstimators := nEstimators;
      this.contamination := contamination;
      this.maxSamples := maxSamples;
      this.randomState := randomState;
      this.forest := forest;
      isFitted := false;
    }

    /**
     * The ranges scikit-learn's `fit` checks the stored parameters against
     * before it looks at the data: at least one tree, a contamination in
     * (0, 0.5] and at least one sample per tree.
     */
    predicate ValidParameters()
    {
      nEstimators >= 1 && 0.0 < contamination <= 0.5 && maxSamples >= 1
    }

    /** The seeds numpy's `RandomState` accepts, checked after the data. */
    predicate ValidSeed()
    {
      0 <= randomState < 0x1_0000_0000
    }

    /** The error of a rejected `fit`, in the order the checks run. */
    function TrainError(xTrain: seq<seq<real>>): Error
    {
      if !ValidParameters() then InvalidParameter
      else if |xTrain| == 0 then EmptyInput
      else if !TrainingShape(xTrain) then ShapeMismatch
      else InvalidParameter
    }

    /**
     * `train_model`: scikit-learn's `fit` rejects parameters out of range,
     * then a training set without rows, then one without features or with
     * rows of unequal width, then a seed numpy cannot use; otherwise the
     * estimator is fitted, recording the training width as `n_features_in_`,
     * and the detector becomes fitted. A rejected call changes nothing.
     */
    method TrainModel(xTrain: seq<seq<real>>, fit: Fit) returns (r: Result<()>)
      modifies this
      ensures r.Ok? <==> ValidParameters() && TrainingShape(xTrain) && ValidSeed()
      ensures r.Err? ==> r.error == TrainError(xTrain)
      ensures r.Err? ==> forest == old(forest) && isFitted == old(isFitted)
      ensures r.Ok? ==> forest == fit(xTrain).(nFeaturesIn := |xTrain[0]|) && isFitted
      ensures r.Ok? ==> forall i :: 0 <= i < |xTrain| ==> |xTrain[i]| == forest.nFeaturesIn
    {
      if !ValidParameters() {
        return Err(InvalidParameter);
      }
      if |xTrain| == 0 {
        return Err(EmptyInput);
      }
      if !TrainingShape(xTrain) {
        return Err(ShapeMismatch);
      }
      if !ValidSeed() {
        return Err(InvalidParameter);
      }
      forest := fit(xTrain).(nFeaturesIn := |xTrain[0]|);
      isFitted := true;
      return Ok(());
    }

    /** The estimator accepts only rows of the width it was fitted on. */
    predicate Fits(xs: seq<seq<real>>)
      reads this`forest
    {
      forall i :: 0 <= i < |xs| ==> |xs[i]| == forest.nFeaturesIn
    }

    /** The estimator's decision values, one per row. */
    function Decisions(xs: seq<seq<real>>): (d: seq<real>)
      reads this`forest
      ensures |d| == |xs|
      ensures forall i :: 0 <= i < |xs| ==> d[i] == forest.decision(xs[i])
    {
      var f := forest.decision;
      seq(|xs|, i requires 0 <= i < |xs| => f(xs[i]))
    }

    /**
     * `decision_function`: fails on an unfitted detector; then the estimator
     * rejects no rows, and rows whose width is not the fitted width; otherwise
     * the raw decision values.
     */
    function DecisionFunction(xs: seq<seq<real>>): (r: Result<seq<real>>)
      reads this
      ensures r.Ok? <==> isFitted && |xs| > 0 && Fits(xs)
      ensures r.Err? ==> r.error == QueryError(xs)
      ensures r.Ok? ==> r.value == Decisions(xs)
    {
      if !isFitted then Err(NotTrained)
      else if |xs| == 0 then Err(EmptyInput)
      else if !Fits(xs) then Err(ShapeMismatch)
      else Ok(Decisions(xs))
    }

    /** The error of a rejected query, in the order the checks run. */
    function QueryError(xs: seq<seq<real>>): Error
      reads this
    {
      if !isFitted then NotTrained else if |xs| == 0 then EmptyInput else ShapeMismatch
    }

    /**
     * `predict`: fails on an unfitted detector, then as the estimator does (no
     * rows, or rows of the wrong width); otherwise label 1 exactly where the
     * forest says -1, and the normalised scores.
     */
    function Predict(xs: seq<seq<real>>): (r: Result<Scored>)
      reads this
      ensures r.Ok? <==> isFitted && |xs| > 0 && Fits(xs)
      ensures r.Err? ==> r.error == QueryError(xs)
      ensures r.Ok? ==> |r.value.labels| == |xs| && |r.value.scores| == |xs|
      ensures r.Ok? ==> forall i :: 0 <= i < |xs| ==>
                && (r.value.labels[i] == 1 <==> forest.verdict(xs[i]) == -1)
                && (r.value.labels[i] == 0 <==> forest.verdict(xs[i]) == 1)
      ensures r.Ok? ==> r.value.scores == NormalizeScores(Decisions(xs)).value
      ensures r.Ok? ==> forall i :: 0 <= i < |xs| ==> 0.0 <= r.value.scores[i] <= 1.0
    {
      if !isFitted then Err(NotTrained)
      else if |xs| == 0 then Err(EmptyInput)
      else if !Fits(xs) then Err(ShapeMismatch)
      else
        var v := forest.verdict;
        var labels := seq(|xs|, i requires 0 <= i < |xs| => Bit(v(xs[i]) == -1));
        var d := Decisions(xs);
        var scores := NormalizeScores(d).value;
        assert forall i :: 0 <= i < |xs| ==> 0.0 <= scores[i] <= 1.0 by {
          forall i | 0 <= i < |xs|
            ensures 0.0 <= scores[i] <= 1.0
          {
            NormalizedInUnitInterval(d, i);
          }
        }
        Ok(Scored(scores, labels))
    }

    /** `save`'s metadata record. */
    function Save(): ForestMeta
      reads this
    {
      ForestMeta(nEstimators, contamination, maxSamples, randomState, isFitted)
    }

    /** `load`: the fitted flag and the configuration come back from the record, the estimator from its file. */
    static method Load(meta: ForestMeta, saved: Forest) returns (d: IsolationForestDetector)
      ensures fresh(d)
      ensures d.Save() == meta
      ensures d.isFitted == meta.isFitted
      ensures d.forest == saved
    {
      d := new IsolationForestDetector(meta.nEstimators, meta.contamination, meta.maxSamples, meta.randomState, saved);
      d.isFitted := meta.isFitted;
    }
  }

  /** Same record and same estimator give the same predictions, so a save/load round trip keeps them. */
  lemma SameStateSamePrediction(a: IsolationForestDetector, b: IsolationForestDetector, xs: seq<seq<real>>)
    requires a.Save() == b.Save() && a.forest == b.forest
    ensures a.Predict(xs) == b.Predict(xs)
  {
    assert a.isFitted == a.Save().isFitted == b.isFitted;
    assert a.Decisions(xs) == b.Decisions(xs);
  }
}
