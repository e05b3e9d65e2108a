/**
 * backend/app/models/ensemble.py: the `EnsembleDetector`, which holds up to
 * three detectors and their weights, combines the present detectors' scores
 * into one weighted score per sample (without renormalising the weights of
 * absent detectors), and derives binary labels and three alert levels.
 */
module Ensemble {
  import opened Common
  import Stats
  import Autoencoder
  import IsolationForest
  import Lstm

  const DEFAULT_WEIGHT_AUTOENCODER: real := 0.4
  const DEFAULT_WEIGHT_ISOLATION_FOREST: real := 0.3
  const DEFAULT_WEIGHT_LSTM: real := 0.3

  /** `_compute_labels`' default threshold. */
  const LABEL_THRESHOLD: real := 0.5

  /** `_compute_alert_levels`' boundaries: below 0.3 normal, from 0.7 critical. */
  const WARNING_LEVEL: real := 0.3
  const CRITICAL_LEVEL: real := 0.7

  /** The keys of the `models` and `weights` dictionaries. */
  datatype Model = AutoencoderModel | IsolationForestModel | LstmModel

  const ALL_MODELS: set<Model> := {AutoencoderModel, IsolationForestModel, LstmModel}

  datatype AlertLevel = Normal | Warning | Critical

  /** The alert level one score receives. */
  function Classify(s: real): AlertLevel
  {
    if s < WARNING_LEVEL then Normal
    else if s < CRITICAL_LEVEL then Warning
    else Critical
  }

  function Severity(a: AlertLevel): nat
  {
    match a
    case Normal => 0
    case Warning => 1
    case Critical => 2
  }

  /**
   * `_compute_alert_levels` as the code runs it: an array of empty slots, then
   * one masked assignment per level. The three masks are disjoint and together
   * cover every score, so every slot ends up holding exactly the level
   * `Classify` gives.
   */
  method ComputeAlertLevels(scores: seq<real>) returns (levels: seq<AlertLevel>)
    ensures |levels| == |scores|
    ensures forall i :: 0 <= i < |scores| ==> levels[i] == Classify(scores[i])
  {
    var n := |scores|;
    var a := new Option<AlertLevel>[n](_ => None);
    for i := 0 to n
      invariant forall k :: 0 <= k < i ==> a[k] == (if scores[k] < WARNING_LEVEL then Some(Normal) else None)
      invariant forall k :: i <= k < n ==> a[k] == None
    {
      if scores[i] < WARNING_LEVEL {
        a[i] := Some(Normal);
      }
    }
    for i := 0 to n
      invariant forall k :: 0 <= k < i ==>
                  a[k] == (if scores[k] < WARNING_LEVEL then Some(Normal)
                           else if scores[k] < CRITICAL_LEVEL then Some(Warning) else None)
      invariant forall k :: i <= k < n ==> a[k] == (if scores[k] < WARNING_LEVEL then Some(Normal) else None)
    {
      if WARNING_LEVEL <= scores[i] && scores[i] < CRITICAL_LEVEL {
        a[i] := Some(Warning);
      }
    }
    for i := 0 to n
      invariant forall k :: 0 <= k < i ==> a[k] == Some(Classify(scores[k]))
      invariant forall k :: i <= k < n ==>
                  a[k] == (if scores[k] < WARNING_LEVEL then Some(Normal)
                           else if scores[k] < CRITICAL_LEVEL then Some(Warning) else None)
    {
      if scores[i] >= CRITICAL_LEVEL {
        a[i] := Some(Critical);
      }
    }
    levels := [];
    for i := 0 to n
      invariant |levels| == i
      invariant forall k :: 0 <= k < i ==> levels[k] == Classify(scores[k])
    {
      levels := levels + [a[i].value];
    }
  }

  /** A higher score never gets a lower alert level. */
  lemma ClassifyMonotone(s: real, t: real)
    requires s <= t
    ensures Severity(Classify(s)) <= Severity(Classify(t))
  {
  }

  /**
   * Labels and alert levels agree: a critical score is labelled anomalous, an
   * anomalous one is at least a warning, and a normal one is labelled 0.
   */
  lemma LabelAgreesWithLevel(scores: seq<real>, i: int)
    requires 0 <= i < |scores|
    ensures var bit := Stats.AboveThreshold(scores, LABEL_THRESHOLD)[i];
      && (Classify(scores[i]) == Critical ==> bit == 1)
      && (bit == 1 ==> Classify(scores[i]) != Normal)
      && (Classify(scores[i]) == Normal ==> bit == 0)
  {
  }

  /** One detector's share of sample i: its weight times its score, or nothing when it is absent. */
  function Term(weight: real, scores: Option<seq<real>>, i: nat): real
  {
    if scores.Some? && i < |scores.value| then weight * scores.value[i] else 0.0
  }

  /** The weight a detector adds to the largest possible composite: its own when it is present. */
  function Share(weight: real, scores: Option<seq<real>>): real
  {
    if scores.Some? then weight else 0.0
  }

  /** `_normalize_scores` applied to the autoencoder's errors, when there are any. */
  function Normalized(raw: Option<seq<real>>): (r: Option<seq<real>>)
    ensures r.Some? <==> raw.Some? && |raw.value| > 0
    ensures r.Some? ==> |r.value| == |raw.value|
  {
    if raw.None? then None else Stats.MinMaxScale(raw.value)
  }

  /** Every present score lies in [0, 1] at sample i. */
  predicate UnitAt(scores: Option<seq<real>>, i: nat)
  {
    scores.Some? ==> i < |scores.value| && 0.0 <= scores.value[i] <= 1.0
  }

  /** A present detector adds between 0 and its weight; an absent one adds nothing. */
  lemma TermBetween(w: real, scores: Option<seq<real>>, i: nat)
    requires w >= 0.0 && UnitAt(scores, i)
    ensures 0.0 <= Term(w, scores, i) <= Share(w, scores)
  {
    if scores.Some? {
      var v := scores.value[i];
      Stats.MulNonNegative(w, v);
      Stats.MulNonNegative(w, 1.0 - v);
      assert w * (1.0 - v) == w - w * v;
    }
  }

  /**
   * With non-negative weights and present scores in [0, 1], the composite of
   * sample i lies between 0 and the sum of the present detectors' weights:
   * the weights of absent detectors are not redistributed.
   */
  lemma CompositeBounds(
    wa: real, a: Option<seq<real>>, wf: real, f: Option<seq<real>>, wl: real, l: Option<seq<real>>, i: nat)
    requires wa >= 0.0 && wf >= 0.0 && wl >= 0.0
    requires UnitAt(a, i) && UnitAt(f, i) && UnitAt(l, i)
    ensures 0.0 <= Term(wa, a, i) + Term(wf, f, i) + Term(wl, l, i)
    ensures Term(wa, a, i) + Term(wf, f, i) + Term(wl, l, i) <= Share(wa, a) + Share(wf, f) + Share(wl, l)
  {
    TermBetween(wa, a, i);
    TermBetween(wf, f, i);
    TermBetween(wl, l, i);
  }

  /**
   * With the default weights and no autoencoder, the composite never exceeds
   * 0.6, so no sample is ever critical.
   */
  lemma AbsentAutoencoderNeverCritical(f: Option<seq<real>>, l: Option<seq<real>>, i: nat)
    requires UnitAt(f, i) && UnitAt(l, i)
    ensures var c := Term(DEFAULT_WEIGHT_AUTOENCODER, None, i)
                   + Term(DEFAULT_WEIGHT_ISOLATION_FOREST, f, i) + Term(DEFAULT_WEIGHT_LSTM, l, i);
      c <= 0.6 && Classify(c) != Critical
  {
    CompositeBounds(DEFAULT_WEIGHT_AUTOENCODER, None, DEFAULT_WEIGHT_ISOLATION_FOREST, f, DEFAULT_WEIGHT_LSTM, l, i);
  }

  /** A batch of one sample: its autoencoder score normalises to 0, so the autoencoder adds nothing. */
  lemma SingleSampleIgnoresAutoencoder(raw: seq<real>, wa: real)
    requires |raw| == 1
    ensures Normalized(Some(raw)) == Some([0.0])
    ensures Term(wa, Normalized(Some(raw)), 0) == 0.0
  {
    assert Stats.MinOf(raw) == raw[0] == Stats.MaxOf(raw);
    Stats.MinMaxScaleFlat(raw);
    assert Stats.MinMaxScale(raw).value == [0.0];
  }

  /** Every normalised autoencoder score lies in [0, 1]. */
  lemma NormalizedInUnitInterval(raw: Option<seq<real>>)
    requires raw.Some?
    ensures forall i :: 0 <= i < |raw.value| ==> UnitAt(Normalized(raw), i)
  {
    forall i | 0 <= i < |raw.value|
      ensures UnitAt(Normalized(raw), i)
    {
      Stats.MinMaxScaleInUnitInterval(raw.value, i);
    }
  }

  /** `ensemble_scores += weight * scores` for a present detector; nothing for an absent one. */
  function Accumulate(acc: seq<real>, w: real, s: Option<seq<real>>): (r: seq<real>)
    requires s.Some? ==> |s.value| == |acc|
    ensures |r| == |acc|
    ensures forall i :: 0 <= i < |acc| ==> r[i] == acc[i] + Term(w, s, i)
  {
    if s.None? then acc else seq(|acc|, i requires 0 <= i < |acc| => acc[i] + w * s.value[i])
  }

  /**
   * The composite scores of n samples: starting from zeros, each detector in
   * turn adds its weighted scores. Sample i receives the sum of the three
   * detectors' terms.
   */
  function Composite(
    n: nat, wa: real, a: Option<seq<real>>, wf: real, f: Option<seq<real>>, wl: real, l: Option<seq<real>>)
    : (c: seq<real>)
    requires a.Some? ==> |a.value| == n
    requires f.Some? ==> |f.value| == n
    requires l.Some? ==> |l.value| == n
    ensures |c| == n
    ensures forall i :: 0 <= i < n ==> c[i] == Term(wa, a, i) + Term(wf, f, i) + Term(wl, l, i)
  {
    Accumulate(Accumulate(Accumulate(seq(n, _ => 0.0), wa, a), wf, f), wl, l)
  }

  /**
   * With non-negative weights and present scores in [0, 1], every composite
   * lies between 0 and the sum of the present detectors' weights.
   */
  lemma {:induction false} CompositeWithinWeights(
    n: nat, wa: real, a: Option<seq<real>>, wf: real, f: Option<seq<real>>, wl: real, l: Option<seq<real>>)
    requires a.Some? ==> |a.value| == n
    requires f.Some? ==> |f.value| == n
    requires l.Some? ==> |l.value| == n
    requires wa >= 0.0 && wf >= 0.0 && wl >= 0.0
    requires forall i :: 0 <= i < n ==> UnitAt(a, i) && UnitAt(f, i) && UnitAt(l, i)
    ensures forall i :: 0 <= i < n ==>
              0.0 <= Composite(n, wa, a, wf, f, wl, l)[i] <= Share(wa, a) + Share(wf, f) + Share(wl, l)
  {
    forall i | 0 <= i < n
      ensures 0.0 <= Composite(n, wa, a, wf, f, wl, l)[i] <= Share(wa, a) + Share(wf, f) + Share(wl, l)
    {
      CompositeBounds(wa, a, wf, f, wl, l, i);
    }
  }

  /** The loaded detectors' own scores, `None` for a detector that is not loaded. */
  datatype Components = Components(autoencoder: Option<seq<real>>, iforest: Option<seq<real>>, lstm: Option<seq<real>>)
  {
    /** Every present score array has one entry per sample. */
    predicate Sized(n: nat)
    {
      && (autoencoder.Some? ==> |autoencoder.value| == n)
      && (iforest.Some? ==> |iforest.value| == n && forall i :: 0 <= i < n ==> 0.0 <= iforest.value[i] <= 1.0)
      && (lstm.Some? ==> |lstm.value| == n && forall i :: 0 <= i < n ==> 0.0 <= lstm.value[i] <= 1.0)
    }

    /** The scores of one detector, `None` when it is not loaded. */
    function Of(m: Model): Option<seq<real>>
    {
      match m
      case AutoencoderModel => autoencoder
      case IsolationForestModel => iforest
      case LstmModel => lstm
    }

    /** The detectors that produced scores. */
    function Scored(): (s: set<Model>)
      ensures forall m :: m in s <==> Of(m).Some?
    {
      (if autoencoder.Some? then {AutoencoderModel} else {})
      + (if iforest.Some? then {IsolationForestModel} else {})
      + (if lstm.Some? then {LstmModel} else {})
    }
  }

  /** What `predict` returns on success. */
  datatype EnsembleResult = EnsembleResult(
    scores: seq<real>,
    labels: seq<int>,
    alertLevels: seq<AlertLevel>,
    autoencoderScores: Option<seq<real>>,
    iforestScores: Option<seq<real>>,
    lstmScores: Option<seq<real>>,
    weights: map<Model, real>)

  /**
   * What `predict` returns for the scores c of n samples combined with the
   * weights wA, wF, wL: each present detector's n scores, passed through
   * unchanged; composite i the weighted sum of row i's scores, the
   * autoencoder's min-max rescaled first; label 1 exactly for composites
   * above 0.5; and the alert level of each composite.
   */
  predicate Combined(res: EnsembleResult, c: Components, wA: real, wF: real, wL: real, n: nat)
  {
    && |res.scores| == n && |res.labels| == n && |res.alertLevels| == n
    && c.Sized(n)
    && res.autoencoderScores == c.autoencoder && res.iforestScores == c.iforest && res.lstmScores == c.lstm
    && (forall i :: 0 <= i < n ==>
          res.scores[i] == Term(wA, Normalized(c.autoencoder), i) + Term(wF, c.iforest, i) + Term(wL, c.lstm, i))
    && res.labels == Stats.AboveThreshold(res.scores, LABEL_THRESHOLD)
    && (forall i :: 0 <= i < n ==> res.alertLevels[i] == Classify(res.scores[i]))
  }

  /** The summary `get_model_summary` returns: which detectors are loaded, and all three weights. */
  datatype ModelSummary = ModelSummary(models: map<Model, bool>, weights: map<Model, real>)

  /** The configuration record `save` writes beside the detectors' own directories. */
  datatype EnsembleConfig = EnsembleConfig(
    weightAutoencoder: real, weightIsolationForest: real, weightLstm: real,
    hasAutoencoder: bool, hasIsolationForest: bool, hasLstm: bool)

  /** `EnsembleDetector`: up to three detectors and the weight of each. */
  class EnsembleDetector {
    var autoencoder: Autoencoder.AnomalyDetector?
    var isolationForest: IsolationForest.IsolationForestDetector?
    var lstm: Lstm.LstmDetector?
    var weightAutoencoder: real
    var weightIsolationForest: real
    var weightLstm: real

    /** The weights pass `np.isclose(total, 1.0)`. */
    predicate WeightsNormalized()
      reads this
    {
      IsCloseToOne(weightAutoencoder + weightIsolationForest + weightLstm)
    }

    predicate NonNegativeWeights()
      reads this
    {
      weightAutoencoder >= 0.0 && weightIsolationForest >= 0.0 && weightLstm >= 0.0
    }

    /** `__init__` when the weights pass the check. */
    constructor(
      autoencoder: Autoencoder.AnomalyDetector?, isolationForest: IsolationForest.IsolationForestDetector?,
      lstm: Lstm.LstmDetector?, weightAutoencoder: real, weightIsolationForest: real, weightLstm: real)
      requires IsCloseToOne(weightAutoencoder + weightIsolationForest + weightLstm)
      ensures this.autoencoder == autoencoder && this.isolationForest == isolationForest && this.lstm == lstm
      ensures this.weightAutoencoder == weightAutoencoder
      ensures this.weightIsolationForest == weightIsolationForest
      ensures this.weightLstm == weightLstm
      ensures WeightsNormalized()
    {
      this.autoencoder := autoencoder;
      this.isolationForest := isolationForest;
      this.lstm := lstm;
      this.weightAutoencoder := weightAutoencoder;
      this.weightIsolationForest := weightIsolationForest;
      this.weightLstm := weightLstm;
    }

    /** `__init__`: weights that do not sum to 1.0 raise instead of producing an ensemble. */
    static method Create(
      autoencoder: Autoencoder.AnomalyDetector?, isolationForest: IsolationForest.IsolationForestDetector?,
      lstm: Lstm.LstmDetector?, weightAutoencoder: real, weightIsolationForest: real, weightLstm: real)
      returns (r: Result<EnsembleDetector>)
      ensures r.Err? <==> !IsCloseToOne(weightAutoencoder + weightIsolationForest + weightLstm)
      ensures r.Err? ==> r.error == WeightsNotNormalized
      ensures r.Ok? ==> fresh(r.value) && r.value.WeightsNormalized()
      ensures r.Ok? ==> r.value.autoencoder == autoencoder && r.value.isolationForest == isolationForest
      ensures r.Ok? ==> r.value.lstm == lstm && r.value.weightAutoencoder == weightAutoencoder
      ensures r.Ok? ==> r.value.weightIsolationForest == weightIsolationForest && r.value.weightLstm == weightLstm
    {
      if !IsCloseToOne(weightAutoencoder + weightIsolationForest + weightLstm) {
        return Err(WeightsNotNormalized);
      }
      var e := new EnsembleDetector(autoencoder, isolationForest, lstm, weightAutoencoder, weightIsolationForest, weightLstm);
      return Ok(e);
    }

    /**
     * `set_weights`: rejected weights leave the old ones in place; accepted
     * ones replace all three. Either way the weights stay normalised.
     */
    method SetWeights(autoencoderWeight: real, isolationForestWeight: real, lstmWeight: real)
      returns (r: Result<()>)
      modifies this
      ensures autoencoder == old(autoencoder) && isolationForest == old(isolationForest) && lstm == old(lstm)
      ensures r.Err? <==> !IsCloseToOne(autoencoderWeight + isolationForestWeight + lstmWeight)
      ensures r.Err? ==> r.error == WeightsNotNormalized
      ensures r.Err? ==> (weightAutoencoder == old(weightAutoencoder) &&
                          weightIsolationForest == old(weightIsolationForest) && weightLstm == old(weightLstm))
      ensures r.Ok? ==> (weightAutoencoder == autoencoderWeight &&
                         weightIsolationForest == isolationForestWeight && weightLstm == lstmWeight)
      ensures old(WeightsNormalized()) ==> WeightsNormalized()
      ensures r.Ok? ==> WeightsNormalized()
    {
      if !IsCloseToOne(autoencoderWeight + isolationForestWeight + lstmWeight) {
        return Err(WeightsNotNormalized);
      }
      weightAutoencoder := autoencoderWeight;
      weightIsolationForest := isolationForestWeight;
      weightLstm := lstmWeight;
      return Ok(());
    }

    /** `save`'s configuration record. */
    function Config(): EnsembleConfig
      reads this
    {
      EnsembleConfig(weightAutoencoder, weightIsolationForest, weightLstm,
                     autoencoder != null, isolationForest != null, lstm != null)
    }

    /**
     * `load`: each detector flagged in the record comes back from its own
     * directory (given here as the detector loaded from it), and the ensemble
     * is rebuilt through the constructor, so saved weights that do not sum to
     * 1.0 are rejected. A loaded ensemble saves back to the same record.
     */
    static method Load(
      config: EnsembleConfig, savedAutoencoder: Autoencoder.AnomalyDetector?,
      savedIsolationForest: IsolationForest.IsolationForestDetector?, savedLstm: Lstm.LstmDetector?)
      returns (r: Result<EnsembleDetector>)
      requires config.hasAutoencoder ==> savedAutoencoder != null
      requires config.hasIsolationForest ==> savedIsolationForest != null
      requires config.hasLstm ==> savedLstm != null
      ensures r.Err? <==> !IsCloseToOne(config.weightAutoencoder + config.weightIsolationForest + config.weightLstm)
      ensures r.Err? ==> r.error == WeightsNotNormalized
      ensures r.Ok? ==> fresh(r.value) && r.value.Config() == config && r.value.WeightsNormalized()
      ensures r.Ok? ==> r.value.autoencoder == (if config.hasAutoencoder then savedAutoencoder else null)
      ensures r.Ok? ==> r.value.isolationForest == (if config.hasIsolationForest then savedIsolationForest else null)
      ensures r.Ok? ==> r.value.lstm == (if config.hasLstm then savedLstm else null)
    {
      var autoencoder := if config.hasAutoencoder then savedAutoencoder else null;
      var isolationForest := if config.hasIsolationForest then savedIsolationForest else null;
      var lstm := if config.hasLstm then savedLstm else null;
      r := Create(autoencoder, isolationForest, lstm,
                  config.weightAutoencoder, config.weightIsolationForest, config.weightLstm);
    }

    /** The detectors that are loaded. */
    function Present(): (p: set<Model>)
      reads this
      ensures p <= ALL_MODELS
      ensures AutoencoderModel in p <==> autoencoder != null
      ensures IsolationForestModel in p <==> isolationForest != null
      ensures LstmModel in p <==> lstm != null
    {
      (if autoencoder != null then {AutoencoderModel} else {})
      + (if isolationForest != null then {IsolationForestModel} else {})
      + (if lstm != null then {LstmModel} else {})
    }

    function Weight(m: Model): real
      reads this
    {
      match m
      case AutoencoderModel => weightAutoencoder
      case IsolationForestModel => weightIsolationForest
      case LstmModel => weightLstm
    }

    /** The sum of the loaded detectors' weights: the largest composite score there can be. */
    function ActiveWeightSum(): real
      reads this
    {
      (if autoencoder != null then weightAutoencoder else 0.0)
      + (if isolationForest != null then weightIsolationForest else 0.0)
      + (if lstm != null then weightLstm else 0.0)
    }

    /**
     * The detector calls of `predict`, in the code's order: the autoencoder
     * (whose errors `_normalize_scores` then needs to be non-empty), the
     * isolation forest, and the LSTM, which needs a sequence array and whose
     * scores must line up with the samples. The first failure is returned;
     * it succeeds exactly when every loaded detector does, and then holds each
     * loaded detector's own scores, one per sample.
     */
    function Query(x: seq<seq<real>>, xSequences: Option<seq<seq<seq<real>>>>): (r: Result<Components>)
      reads this, autoencoder, isolationForest, lstm
      ensures r.Ok? <==>
                && (autoencoder != null ==> autoencoder.Predict(x).Ok? && |x| > 0)
                && (isolationForest != null ==> isolationForest.Predict(x).Ok?)
                && (lstm != null ==> xSequences.Some? && lstm.Predict(xSequences.value).Ok? &&
                                     |xSequences.value| == |x|)
      ensures autoencoder != null && autoencoder.Predict(x).Err? ==> r == Err(autoencoder.Predict(x).error)
      ensures autoencoder != null && autoencoder.Predict(x).Ok? && |x| == 0 ==> r == Err(EmptyInput)
      ensures (autoencoder == null || (autoencoder.Predict(x).Ok? && |x| > 0)) &&
              isolationForest != null && isolationForest.Predict(x).Err? ==>
                r == Err(isolationForest.Predict(x).error)
      ensures r.Ok? && lstm != null ==> xSequences.Some?
      ensures r.Ok? ==> (r.value.autoencoder ==
                         (if autoencoder == null then None else Some(autoencoder.Predict(x).value.scores)))
      ensures r.Ok? ==> (r.value.iforest ==
                         (if isolationForest == null then None else Some(isolationForest.Predict(x).value.scores)))
      ensures r.Ok? ==> (r.value.lstm ==
                         (if lstm == null then None else Some(lstm.Predict(xSequences.value).value.scores)))
      ensures r.Ok? ==> r.value.Sized(|x|)
      ensures r.Ok? ==> r.value.Scored() == Present()
    {
      if autoencoder != null && autoencoder.Predict(x).Err? then Err(autoencoder.Predict(x).error)
      else if autoencoder != null && |x| == 0 then Err(EmptyInput)
      else if isolationForest != null && isolationForest.Predict(x).Err? then Err(isolationForest.Predict(x).error)
      else if lstm != null && xSequences.None? then Err(SequencesRequired)
      else if lstm != null && lstm.Predict(xSequences.value).Err? then Err(lstm.Predict(xSequences.value).error)
      else if lstm != null && |xSequences.value| != |x| then Err(ShapeMismatch)
      else
        Ok(Components(
          if autoencoder == null then None else Some(autoencoder.Predict(x).value.scores),
          if isolationForest == null then None else Some(isolationForest.Predict(x).value.scores),
          if lstm == null then None else Some(lstm.Predict(xSequences.value).value.scores)))
    }

    /** A loaded LSTM without a sequence array always makes `predict` fail, with `SequencesRequired` unless an earlier detector failed first. */
    lemma SequencesRequiredWithLstm(x: seq<seq<real>>)
      requires lstm != null
      ensures Query(x, None).Err?
      ensures Query(x, None) != Err(SequencesRequired) ==>
                (autoencoder != null && (autoencoder.Predict(x).Err? || |x| == 0)) ||
                (isolationForest != null && isolationForest.Predict(x).Err?)
    {
    }

    /**
     * The accumulation in `predict`: starting from zeros, each loaded
     * detector adds its weight times its scores (the autoencoder's after
     * min-max normalisation) and records its weight.
     */
    method CombineScores(c: Components, n: nat) returns (scores: seq<real>, weights: map<Model, real>)
      requires c.Sized(n)
      ensures scores == Composite(n, weightAutoencoder, Normalized(c.autoencoder), weightIsolationForest, c.iforest,
                                  weightLstm, c.lstm)
      ensures weights.Keys == c.Scored()
      ensures forall m :: m in weights ==> weights[m] == Weight(m)
      ensures NonNegativeWeights() ==> forall i :: 0 <= i < n ==>
                0.0 <= scores[i] <= Share(weightAutoencoder, Normalized(c.autoencoder))
                                    + Share(weightIsolationForest, c.iforest) + Share(weightLstm, c.lstm)
    {
      scores := seq(n, _ => 0.0);
      ghost var zeros := scores;
      weights := map[];
      if c.autoencoder.Some? {
        scores := Accumulate(scores, weightAutoencoder, Normalized(c.autoencoder));
        weights := weights[AutoencoderModel := weightAutoencoder];
      }
      assert scores == Accumulate(zeros, weightAutoencoder, Normalized(c.autoencoder));
      if c.iforest.Some? {
        scores := Accumulate(scores, weightIsolationForest, c.iforest);
        weights := weights[IsolationForestModel := weightIsolationForest];
      }
      if c.lstm.Some? {
        scores := Accumulate(scores, weightLstm, c.lstm);
        weights := weights[LstmModel := weightLstm];
      }
      if NonNegativeWeights() {
        if c.autoencoder.Some? {
          NormalizedInUnitInterval(c.autoencoder);
        }
        CompositeWithinWeights(n, weightAutoencoder, Normalized(c.autoencoder), weightIsolationForest, c.iforest,
                               weightLstm, c.lstm);
      }
    }

    /**
     * `predict`: the first failure in the code's order, or else one composite
     * score per sample equal to the sum over the loaded detectors of weight
     * times score (the autoencoder's errors min-max normalised first; absent
     * detectors add nothing), labels at 0.5, one alert level per sample, each
     * detector's own scores when it is loaded, and the weights of exactly the
     * loaded detectors. With non-negative weights every composite lies between
     * 0 and the sum of the loaded detectors' weights.
     */
    method Predict(x: seq<seq<real>>, xSequences: Option<seq<seq<seq<real>>>>) returns (r: Result<EnsembleResult>)
      ensures r.Err? <==> Query(x, xSequences).Err?
      ensures r.Err? ==> r.error == Query(x, xSequences).error
      ensures r.Ok? ==> Combined(r.value, Query(x, xSequences).value,
                                 weightAutoencoder, weightIsolationForest, weightLstm, |x|)
      ensures r.Ok? ==> r.value.weights.Keys == Present()
      ensures r.Ok? ==> forall m :: m in r.value.weights ==> r.value.weights[m] == Weight(m)
      ensures r.Ok? && NonNegativeWeights() ==> forall i :: 0 <= i < |x| ==>
                0.0 <= r.value.scores[i] <= ActiveWeightSum()
    {
      var q := Query(x, xSequences);
      if q.Err? {
        return Err(q.error);
      }
      var c := q.value;
      var n := |x|;
      var scores, weights := CombineScores(c, n);
      assert ActiveWeightSum() == Share(weightAutoencoder, Normalized(c.autoencoder))
        + Share(weightIsolationForest, c.iforest) + Share(weightLstm, c.lstm);
      var labels := Stats.AboveThreshold(scores, LABEL_THRESHOLD);
      var levels := ComputeAlertLevels(scores);
      return Ok(EnsembleResult(scores, labels, levels, c.autoencoder, c.iforest, c.lstm, weights));
    }

    /** `get_model_summary`: a presence flag and the weight of each of the three detectors. */
    function GetModelSummary(): (s: ModelSummary)
      reads this
      ensures s.models.Keys == ALL_MODELS && s.weights.Keys == ALL_MODELS
      ensures forall m :: m in s.models ==> (s.models[m] <==> m in Present())
      ensures forall m :: m in s.weights ==> s.weights[m] == Weight(m)
    {
      ModelSummary(
        map[AutoencoderModel := autoencoder != null,
            IsolationForestModel := isolationForest != null,
            LstmModel := lstm != null],
        map[AutoencoderModel := weightAutoencoder,
            IsolationForestModel := weightIsolationForest,
            LstmModel := weightLstm])
    }
  }
}
