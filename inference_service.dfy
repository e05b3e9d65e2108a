/**
 * backend/app/services/inference_service.py: the `InferenceService`, which
 * holds the loaded ensemble, turns an ensemble prediction into one response
 * entry per row plus a summary, and reports the health of the loaded
 * detectors.
 */
module Inference {
  import opened Common
  import Stats
  import Autoencoder
  import IsolationForest
  import Lstm
  import Ensemble

  /** One entry of the `predictions` list. */
  datatype Prediction = Prediction(
    sampleIndex: nat,
    ensembleScore: real,
    alertLevel: Ensemble.AlertLevel,
    isAnomaly: bool,
    individualScores: map<Ensemble.Model, real>)

  /** The `summary` dictionary; the mean of no scores is NaN in numpy, here `None`. */
  datatype Summary = Summary(
    totalSamples: nat,
    anomaliesDetected: nat,
    normalCount: nat,
    warningCount: nat,
    criticalCount: nat,
    avgEnsembleScore: Option<real>)

  datatype Response = Response(predictions: seq<Prediction>, summary: Summary)

  datatype HealthStatus = Healthy | Degraded | Unhealthy

  /** One entry of the health report's `models` list. */
  datatype ModelStatus = ModelStatus(name: Ensemble.Model, threshold: Option<real>)

  /** The health report; `weights` is `None` where the code returns an empty `ensemble_config`. */
  datatype Health = Health(status: HealthStatus, models: seq<ModelStatus>, weights: Option<map<Ensemble.Model, real>>)

  /** The per-detector score arrays of an ensemble result. */
  function ComponentsOf(res: Ensemble.EnsembleResult): Ensemble.Components
  {
    Ensemble.Components(res.autoencoderScores, res.iforestScores, res.lstmScores)
  }

  /** An ensemble result whose arrays all have one entry per sample. */
  predicate WellFormed(res: Ensemble.EnsembleResult)
  {
    && |res.labels| == |res.scores|
    && |res.alertLevels| == |res.scores|
    && (forall m :: ComponentsOf(res).Of(m).Some? ==> |ComponentsOf(res).Of(m).value| == |res.scores|)
  }

  /**
   * The `individual_scores` dictionary of row i: one key per detector whose
   * score array is present, holding its score for that row.
   */
  method IndividualScores(res: Ensemble.EnsembleResult, i: nat) returns (m: map<Ensemble.Model, real>)
    requires WellFormed(res) && i < |res.scores|
    ensures m.Keys == ComponentsOf(res).Scored()
    ensures forall k :: k in m ==> ComponentsOf(res).Of(k).Some? && m[k] == ComponentsOf(res).Of(k).value[i]
  {
    m := map[];
    if res.autoencoderScores.Some? {
      assert ComponentsOf(res).Of(Ensemble.AutoencoderModel).Some?;
      m := m[Ensemble.AutoencoderModel := res.autoencoderScores.value[i]];
    }
    if res.iforestScores.Some? {
      assert ComponentsOf(res).Of(Ensemble.IsolationForestModel).Some?;
      m := m[Ensemble.IsolationForestModel := res.iforestScores.value[i]];
    }
    if res.lstmScores.Some? {
      assert ComponentsOf(res).Of(Ensemble.LstmModel).Some?;
      m := m[Ensemble.LstmModel := res.lstmScores.value[i]];
    }
  }

  /**
   * The loop of `predict` that builds the `predictions` list: entry i carries
   * index i, the composite score, the alert level, the label as a boolean and
   * the individual scores of row i.
   */
  method FormatPredictions(res: Ensemble.EnsembleResult) returns (preds: seq<Prediction>)
    requires WellFormed(res)
    ensures |preds| == |res.scores|
    ensures forall i :: 0 <= i < |preds| ==>
              && preds[i].sampleIndex == i
              && preds[i].ensembleScore == res.scores[i]
              && preds[i].alertLevel == res.alertLevels[i]
              && (preds[i].isAnomaly <==> res.labels[i] != 0)
    ensures forall i :: 0 <= i < |preds| ==> preds[i].individualScores.Keys == ComponentsOf(res).Scored()
    ensures forall i, k :: 0 <= i < |preds| && k in preds[i].individualScores ==>
              ComponentsOf(res).Of(k).Some? && preds[i].individualScores[k] == ComponentsOf(res).Of(k).value[i]
  {
    preds := [];
    for i := 0 to |res.scores|
      invariant |preds| == i
      invariant forall j :: 0 <= j < i ==>
                  && preds[j].sampleIndex == j
                  && preds[j].ensembleScore == res.scores[j]
                  && preds[j].alertLevel == res.alertLevels[j]
                  && (preds[j].isAnomaly <==> res.labels[j] != 0)
      invariant forall j :: 0 <= j < i ==> preds[j].individualScores.Keys == ComponentsOf(res).Scored()
      invariant forall j, k :: 0 <= j < i && k in preds[j].individualScores ==>
                  ComponentsOf(res).Of(k).Some? && preds[j].individualScores[k] == ComponentsOf(res).Of(k).value[j]
    {
      var individual := IndividualScores(res, i);
      preds := preds + [Prediction(i, res.scores[i], res.alertLevels[i], res.labels[i] != 0, individual)];
    }
  }

  /** `(alert_levels == level).sum()`. */
  function CountLevel(levels: seq<Ensemble.AlertLevel>, a: Ensemble.AlertLevel): (c: nat)
    ensures c <= |levels|
  {
    if levels == [] then 0 else (if levels[0] == a then 1 else 0) + CountLevel(levels[1..], a)
  }

  /** Every level is one of the three, so the three counts add up to the number of samples. */
  lemma {:induction false} LevelCountsPartition(levels: seq<Ensemble.AlertLevel>)
    ensures CountLevel(levels, Ensemble.Normal) + CountLevel(levels, Ensemble.Warning)
            + CountLevel(levels, Ensemble.Critical) == |levels|
  {
    if levels != [] {
      LevelCountsPartition(levels[1..]);
    }
  }

  /**
   * When every critical sample is flagged and every flagged sample is at
   * least a warning, the anomaly count lies between the critical count and
   * the warning and critical counts together.
   */
  lemma {:induction false} AnomaliesBetweenLevelCounts(labels: seq<int>, levels: seq<Ensemble.AlertLevel>)
    requires |labels| == |levels|
    requires forall i :: 0 <= i < |levels| ==>
               (levels[i] == Ensemble.Critical ==> labels[i] == 1) && (labels[i] == 1 ==> levels[i] != Ensemble.Normal)
    ensures CountLevel(levels, Ensemble.Critical) <= Stats.CountOnes(labels)
    ensures Stats.CountOnes(labels) <= CountLevel(levels, Ensemble.Warning) + CountLevel(levels, Ensemble.Critical)
  {
    if levels != [] {
      AnomaliesBetweenLevelCounts(labels[1..], levels[1..]);
    }
  }

  /**
   * The summary of `predict`: the sample count, the number of 1-labels, the
   * count of each alert level (which add up to the sample count) and the mean
   * composite score when there is one, which lies between the smallest and
   * the largest score.
   */
  function Summarize(scores: seq<real>, labels: seq<int>, levels: seq<Ensemble.AlertLevel>): (s: Summary)
    ensures s.totalSamples == |scores|
    ensures s.anomaliesDetected == Stats.CountOnes(labels)
    ensures s.normalCount == CountLevel(levels, Ensemble.Normal)
    ensures s.warningCount == CountLevel(levels, Ensemble.Warning)
    ensures s.criticalCount == CountLevel(levels, Ensemble.Critical)
    ensures |levels| == |scores| ==> s.normalCount + s.warningCount + s.criticalCount == s.totalSamples
    ensures s.avgEnsembleScore.None? <==> |scores| == 0
    ensures s.avgEnsembleScore.Some? ==>
              Stats.MinOf(scores) <= s.avgEnsembleScore.value <= Stats.MaxOf(scores)
  {
    LevelCountsPartition(levels);
    Summary(
      |scores|,
      Stats.CountOnes(labels),
      CountLevel(levels, Ensemble.Normal),
      CountLevel(levels, Ensemble.Warning),
      CountLevel(levels, Ensemble.Critical),
      if |scores| == 0 then None else Some(Stats.Mean(scores)))
  }

  /**
   * What `predict` answers for detector scores c and weights wA, wF, wL:
   * entry i is sample i, its composite score is the weighted sum of the
   * (min-max rescaled) autoencoder score and the forest and LSTM scores of
   * row i, its alert level and anomaly flag follow from that score, and its
   * individual scores are those of the detectors that scored. The summary
   * counts the entries: the level counts add up to the number of samples,
   * and the anomaly count lies between the critical count and the warning
   * and critical counts.
   */
  predicate Answers(resp: Response, c: Ensemble.Components, wA: real, wF: real, wL: real)
  {
    && (forall i :: 0 <= i < |resp.predictions| ==>
          var p := resp.predictions[i];
          && p.sampleIndex == i
          && p.ensembleScore == Ensemble.Term(wA, Ensemble.Normalized(c.autoencoder), i)
                                + Ensemble.Term(wF, c.iforest, i) + Ensemble.Term(wL, c.lstm, i)
          && p.alertLevel == Ensemble.Classify(p.ensembleScore)
          && (p.isAnomaly <==> p.ensembleScore > Ensemble.LABEL_THRESHOLD)
          && p.individualScores.Keys == c.Scored()
          && forall k :: k in p.individualScores ==> c.Of(k).Some? && i < |c.Of(k).value| && p.individualScores[k] == c.Of(k).value[i])
    && resp.summary.totalSamples == |resp.predictions|
    && resp.summary.normalCount + resp.summary.warningCount + resp.summary.criticalCount
       == resp.summary.totalSamples
    && resp.summary.criticalCount <= resp.summary.anomaliesDetected
       <= resp.summary.warningCount + resp.summary.criticalCount
    && resp.summary == Summarize(Scores(resp.predictions), Flags(resp.predictions), Levels(resp.predictions))
  }

  /**
   * The response shaping of `predict`: the entries, then the summary computed
   * from the result's arrays, for a result whose composite scores were
   * combined with weights wA, wF, wL.
   */
  method Respond(res: Ensemble.EnsembleResult, ghost c: Ensemble.Components,
                 ghost wA: real, ghost wF: real, ghost wL: real, ghost n: nat) returns (resp: Response)
    requires Ensemble.Combined(res, c, wA, wF, wL, n)
    ensures |resp.predictions| == n
    ensures Answers(resp, c, wA, wF, wL)
  {
    assert ComponentsOf(res) == c;
    assert WellFormed(res) by {
      forall m | c.Of(m).Some? ensures |c.Of(m).value| == n {
      }
    }
    var preds := FormatPredictions(res);
    forall i | 0 <= i < |res.scores|
      ensures res.labels[i] == 1 <==> res.scores[i] > Ensemble.LABEL_THRESHOLD
      ensures res.labels[i] != 0 <==> res.scores[i] > Ensemble.LABEL_THRESHOLD
      ensures res.alertLevels[i] == Ensemble.Critical ==> res.labels[i] == 1
      ensures res.labels[i] == 1 ==> res.alertLevels[i] != Ensemble.Normal
    {
      Ensemble.LabelAgreesWithLevel(res.scores, i);
    }
    AnomaliesBetweenLevelCounts(res.labels, res.alertLevels);
    assert Scores(preds) == res.scores;
    assert Flags(preds) == res.labels;
    assert Levels(preds) == res.alertLevels;
    var summary := Summarize(res.scores, res.labels, res.alertLevels);
    return Response(preds, summary);
  }

  /** The threshold a health entry reports: the autoencoder's or the LSTM's own, none for the forest. */
  function ReportedThreshold(name: Ensemble.Model, autoencoderThreshold: Option<real>, lstmThreshold: Option<real>): Option<real>
  {
    match name
    case AutoencoderModel => autoencoderThreshold
    case IsolationForestModel => None
    case LstmModel => lstmThreshold
  }

  /**
   * The `models` list of `get_health_status`: an entry for each loaded
   * detector, appended in the order autoencoder, isolation forest, LSTM,
   * each with the threshold it reports.
   */
  method ReportModels(loaded: set<Ensemble.Model>, autoencoderThreshold: Option<real>, lstmThreshold: Option<real>)
    returns (models: seq<ModelStatus>)
    ensures Names(models) == InOrder(loaded)
    ensures forall k :: 0 <= k < |models| ==>
              models[k].threshold == ReportedThreshold(models[k].name, autoencoderThreshold, lstmThreshold)
  {
    ghost var first := if Ensemble.AutoencoderModel in loaded then [Ensemble.AutoencoderModel] else [];
    ghost var second := first + if Ensemble.IsolationForestModel in loaded then [Ensemble.IsolationForestModel] else [];
    models := [];
    if Ensemble.AutoencoderModel in loaded {
      models := models + [ModelStatus(Ensemble.AutoencoderModel, autoencoderThreshold)];
    }
    assert Names(models) == first;
    if Ensemble.IsolationForestModel in loaded {
      models := models + [ModelStatus(Ensemble.IsolationForestModel, None)];
    }
    assert Names(models) == second;
    if Ensemble.LstmModel in loaded {
      models := models + [ModelStatus(Ensemble.LstmModel, lstmThreshold)];
    }
  }

  /** `InferenceService`: the loaded ensemble and the loaded flag. */
  class InferenceService {
    var ensemble: Ensemble.EnsembleDetector?
    var modelsLoaded: bool

    /** A new service has nothing loaded. */
    constructor()
      ensures ensemble == null && !modelsLoaded
      ensures !IsReady()
    {
      ensemble := null;
      modelsLoaded := false;
    }

    /** `is_ready`: models were loaded and an ensemble is present. */
    predicate IsReady()
      reads this
    {
      modelsLoaded && ensemble != null
    }

    /**
     * `load_models`: a missing directory raises and changes nothing;
     * otherwise each detector whose sub-directory exists (given here as the
     * detector loaded from it, or null) goes into a new ensemble with the
     * default weights, and the service becomes ready.
     */
    method LoadModels(
      directoryExists: bool, autoencoder: Autoencoder.AnomalyDetector?,
      isolationForest: IsolationForest.IsolationForestDetector?, lstm: Lstm.LstmDetector?)
      returns (r: Result<()>)
      modifies this
      ensures r.Err? <==> !directoryExists
      ensures r.Err? ==> r.error == DirectoryNotFound && ensemble == old(ensemble) && modelsLoaded == old(modelsLoaded)
      ensures r.Ok? ==> IsReady() && fresh(ensemble)
      ensures r.Ok? ==> ensemble.autoencoder == autoencoder && ensemble.isolationForest == isolationForest
      ensures r.Ok? ==> ensemble.lstm == lstm
      ensures r.Ok? ==> ensemble.weightAutoencoder == Ensemble.DEFAULT_WEIGHT_AUTOENCODER
      ensures r.Ok? ==> ensemble.weightIsolationForest == Ensemble.DEFAULT_WEIGHT_ISOLATION_FOREST
      ensures r.Ok? ==> ensemble.weightLstm == Ensemble.DEFAULT_WEIGHT_LSTM
      ensures r.Ok? ==> ensemble.WeightsNormalized()
    {
      if !directoryExists {
        return Err(DirectoryNotFound);
      }
      ensemble := new Ensemble.EnsembleDetector(
        autoencoder, isolationForest, lstm,
        Ensemble.DEFAULT_WEIGHT_AUTOENCODER, Ensemble.DEFAULT_WEIGHT_ISOLATION_FOREST, Ensemble.DEFAULT_WEIGHT_LSTM);
      modelsLoaded := true;
      return Ok(());
    }

    /**
     * `load_from_ensemble`: the saved ensemble replaces the current one and
     * the service becomes ready; when loading it fails nothing changes.
     */
    method LoadFromEnsemble(
      config: Ensemble.EnsembleConfig, savedAutoencoder: Autoencoder.AnomalyDetector?,
      savedIsolationForest: IsolationForest.IsolationForestDetector?, savedLstm: Lstm.LstmDetector?)
      returns (r: Result<()>)
      requires config.hasAutoencoder ==> savedAutoencoder != null
      requires config.hasIsolationForest ==> savedIsolationForest != null
      requires config.hasLstm ==> savedLstm != null
      modifies this
      ensures r.Err? <==> !IsCloseToOne(config.weightAutoencoder + config.weightIsolationForest + config.weightLstm)
      ensures r.Err? ==> r.error == WeightsNotNormalized
      ensures r.Err? ==> ensemble == old(ensemble) && modelsLoaded == old(modelsLoaded)
      ensures r.Ok? ==> IsReady() && fresh(ensemble) && ensemble.Config() == config
    {
      var loaded := Ensemble.EnsembleDetector.Load(config, savedAutoencoder, savedIsolationForest, savedLstm);
      if loaded.Err? {
        return Err(loaded.error);
      }
      ensemble := loaded.value;
      modelsLoaded := true;
      return Ok(());
    }

    /**
     * `predict`: fails while the service is not ready, then on features that
     * are not two-dimensional, then wherever the ensemble fails. Otherwise
     * there is one entry per row, in order, whose score is the ensemble's
     * composite for that row, whose level and flag follow from that score,
     * and whose individual scores are exactly the loaded detectors' own
     * scores for that row. The summary counts agree with the entries.
     */
    method Predict(features: Matrix<real>, sequences: Option<seq<seq<seq<real>>>>) returns (r: Result<Response>)
      ensures !IsReady() ==> r == Err(ModelsNotLoaded)
      ensures IsReady() && features.ndim != 2 ==> r == Err(NotTwoDimensional)
      ensures IsReady() && features.ndim == 2 ==>
                && (r.Err? <==> ensemble.Query(features.rows, sequences).Err?)
                && (r.Err? ==> r.error == ensemble.Query(features.rows, sequences).error)
      ensures r.Ok? ==> IsReady() && |r.value.predictions| == |features.rows|
      ensures r.Ok? ==> Answers(r.value, ensemble.Query(features.rows, sequences).value,
                                ensemble.weightAutoencoder, ensemble.weightIsolationForest, ensemble.weightLstm)
    {
      if !IsReady() {
        return Err(ModelsNotLoaded);
      }
      if features.ndim != 2 {
        return Err(NotTwoDimensional);
      }
      var result := ensemble.Predict(features.rows, sequences);
      if result.Err? {
        return Err(result.error);
      }
      var res := result.value;
      var resp := Respond(res, ensemble.Query(features.rows, sequences).value,
                          ensemble.weightAutoencoder, ensemble.weightIsolationForest, ensemble.weightLstm,
                          |features.rows|);
      return Ok(resp);
    }

    /**
     * `get_health_status`: an unready service is unhealthy with no models and
     * no configuration. Otherwise one entry per loaded detector, in the order
     * autoencoder, isolation forest, LSTM, with the thresholds of the
     * autoencoder and the LSTM; healthy with all three, degraded with one or
     * two, unhealthy with none; and the ensemble's three weights.
     */
    method GetHealthStatus() returns (h: Health)
      ensures !IsReady() ==> h == Health(Unhealthy, [], None)
      ensures IsReady() ==> h.weights == Some(ensemble.GetModelSummary().weights)
      ensures IsReady() ==> Names(h.models) == InOrder(ensemble.Present())
      ensures IsReady() ==> forall k :: 0 <= k < |h.models| ==>
                && (h.models[k].name == Ensemble.AutoencoderModel ==>
                      ensemble.autoencoder != null && h.models[k].threshold == ensemble.autoencoder.threshold)
                && (h.models[k].name == Ensemble.IsolationForestModel ==> h.models[k].threshold == None)
                && (h.models[k].name == Ensemble.LstmModel ==>
                      ensemble.lstm != null && h.models[k].threshold == ensemble.lstm.threshold)
      ensures h.status == Healthy <==>
                IsReady() && ensemble.autoencoder != null && ensemble.isolationForest != null && ensemble.lstm != null
      ensures h.status == Unhealthy <==>
                !IsReady() || (ensemble.autoencoder == null && ensemble.isolationForest == null && ensemble.lstm == null)
    {
      if !IsReady() {
        return Health(Unhealthy, [], None);
      }
      var summary := ensemble.GetModelSummary();
      var loaded := set m | m in summary.models && summary.models[m];
      assert loaded == ensemble.Present();
      var autoencoderThreshold := if ensemble.autoencoder != null then ensemble.autoencoder.threshold else None;
      var lstmThreshold := if ensemble.lstm != null then ensemble.lstm.threshold else None;
      var models := ReportModels(loaded, autoencoderThreshold, lstmThreshold);
      var loadedCount := |models|;
      var status;
      if loadedCount == 3 {
        status := Healthy;
      } else if loadedCount > 0 {
        status := Degraded;
      } else {
        status := Unhealthy;
      }
      return Health(status, models, Some(summary.weights));
    }
  }

  /** The composite scores of the entries. */
  function Scores(preds: seq<Prediction>): (s: seq<real>)
    ensures |s| == |preds| && forall i :: 0 <= i < |preds| ==> s[i] == preds[i].ensembleScore
  {
    seq(|preds|, i requires 0 <= i < |preds| => preds[i].ensembleScore)
  }

  /** The anomaly flags of the entries as 0/1 labels. */
  function Flags(preds: seq<Prediction>): (s: seq<int>)
    ensures |s| == |preds| && forall i :: 0 <= i < |preds| ==> s[i] == Bit(preds[i].isAnomaly)
  {
    seq(|preds|, i requires 0 <= i < |preds| => Bit(preds[i].isAnomaly))
  }

  /** The alert levels of the entries. */
  function Levels(preds: seq<Prediction>): (s: seq<Ensemble.AlertLevel>)
    ensures |s| == |preds| && forall i :: 0 <= i < |preds| ==> s[i] == preds[i].alertLevel
  {
    seq(|preds|, i requires 0 <= i < |preds| => preds[i].alertLevel)
  }

  /** The detector names of a health report's entries. */
  function Names(models: seq<ModelStatus>): (s: seq<Ensemble.Model>)
    ensures |s| == |models| && forall i :: 0 <= i < |models| ==> s[i] == models[i].name
  {
    seq(|models|, i requires 0 <= i < |models| => models[i].name)
  }

  /** The detectors of a set in the fixed order autoencoder, isolation forest, LSTM. */
  function InOrder(p: set<Ensemble.Model>): (s: seq<Ensemble.Model>)
    ensures forall m :: m in s <==> m in p
    ensures forall i, j :: 0 <= i < j < |s| ==> s[i] != s[j]
  {
    var s := (if Ensemble.AutoencoderModel in p then [Ensemble.AutoencoderModel] else [])
      + (if Ensemble.IsolationForestModel in p then [Ensemble.IsolationForestModel] else [])
      + (if Ensemble.LstmModel in p then [Ensemble.LstmModel] else []);
    assert forall m :: m in s <==> m in p by {
      forall m
        ensures m in s <==> m in p
      {
        if m.AutoencoderModel? {
        } else if m.IsolationForestModel? {
        }
      }
    }
    s
  }
}
