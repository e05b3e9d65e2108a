/**
 * ml_pipeline/scripts/train_models.py: the discrete parts of the training
 * pipeline. Recordings are windowed and turned into feature rows labelled
 * by the phase of each window's first sample; the windows are split into
 * train and test sets by a shuffled index order; the normal training rows
 * are split again into training and validation rows; and predictions are
 * scored by confusion counts and the ratios derived from them.
 */
module Training {
  import opened Common
  import Stats
  import Strided
  import SignalProcessing
  import FeatureExtraction

  // ----- Evaluation metrics -----

  /** Positions where the prediction is p and the truth is t: `((y_pred == p) & (y_true == t)).sum()`. */
  function CountPairs(yPred: seq<int>, yTrue: seq<int>, p: int, t: int): (c: nat)
    requires |yPred| == |yTrue|
    ensures c <= |yPred|
  {
    if yPred == [] then 0
    else (if yPred[0] == p && yTrue[0] == t then 1 else 0) + CountPairs(yPred[1..], yTrue[1..], p, t)
  }

  /** Every label is 0 or 1. */
  predicate Binary(y: seq<int>)
  {
    forall i :: 0 <= i < |y| ==> y[i] == 0 || y[i] == 1
  }

  /** A share `num / den` that is 0.0 when the denominator is 0. */
  function Ratio(num: nat, den: nat): real
  {
    if den > 0 then num as real / den as real else 0.0
  }

  /** What `evaluate` reports (before rounding to four decimals). */
  datatype Metrics = Metrics(precision: real, recall: real, f1: real, fpr: real, tp: nat, fp: nat, fn: nat, tn: nat)

  /**
   * The ratios `evaluate` derives from the four counts: precision
   * tp / (tp + fp), recall tp / (tp + fn), F1 their harmonic mean, and the
   * false-positive rate fp / (fp + tn), each 0.0 where its denominator is 0.
   * Every ratio lies in [0, 1].
   */
  function MetricsOf(tp: nat, fp: nat, fn: nat, tn: nat): (m: Metrics)
    ensures m.tp == tp && m.fp == fp && m.fn == fn && m.tn == tn
    ensures 0.0 <= m.precision <= 1.0 && 0.0 <= m.recall <= 1.0 && 0.0 <= m.fpr <= 1.0
    ensures 0.0 <= m.f1 <= 1.0
    ensures m.precision == Ratio(tp, tp + fp) && m.recall == Ratio(tp, tp + fn) && m.fpr == Ratio(fp, fp + tn)
    ensures m.precision + m.recall > 0.0 ==> m.f1 == HarmonicMean(m.precision, m.recall)
    ensures m.precision + m.recall == 0.0 ==> m.f1 == 0.0
  {
    var precision := Ratio(tp, tp + fp);
    var recall := Ratio(tp, tp + fn);
    RatioInUnit(tp, tp + fp);
    RatioInUnit(tp, tp + fn);
    RatioInUnit(fp, fp + tn);
    var f1 := if precision + recall > 0.0 then HarmonicMean(precision, recall) else 0.0;
    Metrics(precision, recall, f1, Ratio(fp, fp + tn), tp, fp, fn, tn)
  }

  /**
   * `evaluate`: the confusion counts of the predictions against the truth and
   * the ratios derived from them; for 0/1 labels the four counts add up to
   * the number of samples.
   */
  function Evaluate(yTrue: seq<int>, yPred: seq<int>): (m: Metrics)
    requires |yTrue| == |yPred|
    ensures m == MetricsOf(CountPairs(yPred, yTrue, 1, 1), CountPairs(yPred, yTrue, 1, 0),
                           CountPairs(yPred, yTrue, 0, 1), CountPairs(yPred, yTrue, 0, 0))
    ensures Binary(yTrue) && Binary(yPred) ==> m.tp + m.fp + m.fn + m.tn == |yTrue|
  {
    var tp := CountPairs(yPred, yTrue, 1, 1);
    var fp := CountPairs(yPred, yTrue, 1, 0);
    var fn := CountPairs(yPred, yTrue, 0, 1);
    var tn := CountPairs(yPred, yTrue, 0, 0);
    assert Binary(yTrue) && Binary(yPred) ==> tp + fp + fn + tn == |yTrue| by {
      if Binary(yTrue) && Binary(yPred) {
        ConfusionPartition(yTrue, yPred);
      }
    }
    MetricsOf(tp, fp, fn, tn)
  }

  /** With 0/1 labels every position falls in exactly one of the four cells. */
  lemma {:induction false} ConfusionPartition(yTrue: seq<int>, yPred: seq<int>)
    requires |yTrue| == |yPred| && Binary(yTrue) && Binary(yPred)
    ensures CountPairs(yPred, yTrue, 1, 1) + CountPairs(yPred, yTrue, 1, 0)
            + CountPairs(yPred, yTrue, 0, 1) + CountPairs(yPred, yTrue, 0, 0) == |yTrue|
  {
    if yTrue != [] {
      assert yTrue[0] == 0 || yTrue[0] == 1;
      assert yPred[0] == 0 || yPred[0] == 1;
      ConfusionPartition(yTrue[1..], yPred[1..]);
    }
  }

  lemma RatioInUnit(num: nat, den: nat)
    requires num <= den
    ensures 0.0 <= Ratio(num, den) <= 1.0
  {
    if den > 0 {
      Stats.QuotientInUnit(num as real, den as real);
    }
  }

  /** `2 * p * r / (p + r)`: for p and r in [0, 1], not both 0, it lies in [0, 1]. */
  function HarmonicMean(p: real, r: real): (f: real)
    requires 0.0 <= p <= 1.0 && 0.0 <= r <= 1.0 && p + r > 0.0
    ensures 0.0 <= f <= 1.0
  {
    Stats.MulNonNegative(p, r);
    Stats.MulNonNegative(p, 1.0 - r);
    Stats.MulNonNegative(r, 1.0 - p);
    assert p * (1.0 - r) == p - p * r;
    assert r * (1.0 - p) == r - p * r;
    assert 2.0 * p * r == 2.0 * (p * r);
    Stats.QuotientInUnit(2.0 * p * r, p + r);
    2.0 * p * r / (p + r)
  }

  /** Where prediction and truth never differ, no position is a false positive or a false negative. */
  lemma {:induction false} NoMismatchCounts(y: seq<int>)
    ensures CountPairs(y, y, 1, 0) == 0 && CountPairs(y, y, 0, 1) == 0
  {
    if y != [] {
      NoMismatchCounts(y[1..]);
    }
  }

  /** No false positives or negatives and at least one true positive score 1, 1, 1 and 0. */
  lemma PerfectCountsScoreOne(tp: nat, tn: nat)
    requires tp > 0
    ensures MetricsOf(tp, 0, 0, tn).precision == 1.0 && MetricsOf(tp, 0, 0, tn).recall == 1.0
    ensures MetricsOf(tp, 0, 0, tn).f1 == 1.0 && MetricsOf(tp, 0, 0, tn).fpr == 0.0
  {
    RatioOfSelf(tp);
    RatioOfNothing(tn);
    assert HarmonicMean(1.0, 1.0) == 1.0;
  }

  lemma RatioOfSelf(n: nat)
    requires n > 0
    ensures Ratio(n, n) == 1.0
  {
  }

  lemma RatioOfNothing(den: nat)
    ensures Ratio(0, den) == 0.0
  {
  }

  /**
   * Perfect predictions with at least one anomaly score precision, recall
   * and F1 of 1 and a false-positive rate of 0.
   */
  lemma PerfectPredictionScoresOne(y: seq<int>)
    requires CountPairs(y, y, 1, 1) > 0
    ensures Evaluate(y, y).precision == 1.0 && Evaluate(y, y).recall == 1.0
    ensures Evaluate(y, y).f1 == 1.0 && Evaluate(y, y).fpr == 0.0
  {
    NoMismatchCounts(y);
    PerfectCountsScoreOne(CountPairs(y, y, 1, 1), CountPairs(y, y, 0, 0));
  }

  // ----- Window labels and feature extraction -----

  /**
   * The window-level labels of `extract_features_from_df`: window k starts at
   * sample k * hop and is labelled 1 exactly when that sample's phase is
   * "anomaly". For as many windows as `window_signal` cuts from the
   * recording, every start lies inside it.
   */
  function WindowLabels(phases: seq<string>, nWindows: nat): (labels: seq<int>)
    requires nWindows <= Strided.SliceCount(|phases|, SignalProcessing.DEFAULT_WINDOW_SIZE, SignalProcessing.DEFAULT_HOP_SIZE)
    ensures |labels| == nWindows
    ensures forall k :: 0 <= k < nWindows ==>
              && k * SignalProcessing.DEFAULT_HOP_SIZE < |phases|
              && (labels[k] == 1 <==> phases[k * SignalProcessing.DEFAULT_HOP_SIZE] == "anomaly")
              && (labels[k] == 0 <==> phases[k * SignalProcessing.DEFAULT_HOP_SIZE] != "anomaly")
  {
    Strided.AllSlicesFit(|phases|, SignalProcessing.DEFAULT_WINDOW_SIZE, SignalProcessing.DEFAULT_HOP_SIZE);
    seq(nWindows, k requires 0 <= k < nWindows =>
      Bit(phases[k * SignalProcessing.DEFAULT_HOP_SIZE] == "anomaly"))
  }

  /** One recording (one source file): its channel samples and the phase of each sample. */
  datatype Recording = Recording(samples: seq<Sample>, phases: seq<string>)

  /** A recording as the data frame yields it: at least one row, one phase per sample. */
  predicate WellFormed(rec: Recording)
  {
    0 < |rec.samples| == |rec.phases|
  }

  /** A cleaned window as floats; every sample is finite once cleaned. */
  function Values(w: seq<Sample>): (v: seq<real>)
    ensures |v| == |w|
  {
    seq(|w|, i requires 0 <= i < |w| => if w[i].Finite? then w[i].value else 0.0)
  }

  /** `window_signal` with the default window and hop on a recording's samples. */
  function Windows(rec: Recording): (ws: seq<seq<real>>)
    requires WellFormed(rec)
    ensures |ws| == Strided.SliceCount(|rec.samples|, SignalProcessing.DEFAULT_WINDOW_SIZE, SignalProcessing.DEFAULT_HOP_SIZE)
    ensures forall k :: 0 <= k < |ws| ==> |ws[k]| == SignalProcessing.DEFAULT_WINDOW_SIZE
  {
    var rows := SignalProcessing.WindowSignal(
      SignalProcessing.Signal(1, rec.samples), SignalProcessing.DEFAULT_WINDOW_SIZE, SignalProcessing.DEFAULT_HOP_SIZE).value.rows;
    seq(|rows|, i requires 0 <= i < |rows| => Values(rows[i]))
  }

  /** The feature rows of a sequence of windows, one per window. */
  function FeatureRows(d: FeatureExtraction.Domains, ws: seq<seq<real>>): (rows: seq<seq<real>>)
    ensures |rows| == |ws|
  {
    seq(|ws|, i requires 0 <= i < |ws| => FeatureExtraction.FeatureRow(d, SignalProcessing.SAMPLE_RATE, ws[i]))
  }

  predicate AllWellFormed(recs: seq<Recording>)
  {
    forall i :: 0 <= i < |recs| ==> WellFormed(recs[i])
  }

  /** The number of windows cut from all recordings. */
  function TotalWindows(recs: seq<Recording>): nat
    requires AllWellFormed(recs)
  {
    if recs == [] then 0 else TotalWindows(recs[..|recs| - 1]) + |Windows(recs[|recs| - 1])|
  }

  /** The feature rows of all recordings, recording after recording. */
  function AllRows(d: FeatureExtraction.Domains, recs: seq<Recording>): seq<seq<real>>
    requires AllWellFormed(recs)
  {
    if recs == [] then [] else AllRows(d, recs[..|recs| - 1]) + FeatureRows(d, Windows(recs[|recs| - 1]))
  }

  /** The window labels of all recordings, recording after recording. */
  function AllLabels(recs: seq<Recording>): seq<int>
    requires AllWellFormed(recs)
  {
    if recs == [] then []
    else
      var last := recs[|recs| - 1];
      AllLabels(recs[..|recs| - 1]) + WindowLabels(last.phases, |Windows(last)|)
  }

  /** There is one label per feature row, and one row per window. */
  lemma {:induction false} RowsMatchLabels(d: FeatureExtraction.Domains, recs: seq<Recording>)
    requires AllWellFormed(recs)
    ensures |AllRows(d, recs)| == TotalWindows(recs)
    ensures |AllLabels(recs)| == TotalWindows(recs)
  {
    if recs != [] {
      RowsMatchLabels(d, recs[..|recs| - 1]);
    }
  }

  /** The stacked feature rows and their window labels. */
  datatype Dataset = Dataset(features: seq<seq<real>>, labels: seq<int>)

  /**
   * `extract_features_from_df`: for each recording in turn, window the
   * channel, skip the recording when no window fits, otherwise append its
   * feature rows and window labels. Stacking no arrays at all fails.
   */
  method ExtractFeatures(d: FeatureExtraction.Domains, recs: seq<Recording>) returns (r: Result<Dataset>)
    requires AllWellFormed(recs)
    ensures r.Err? <==> TotalWindows(recs) == 0
    ensures r.Err? ==> r.error == NoWindowedData
    ensures r.Ok? ==> r.value.features == AllRows(d, recs) && r.value.labels == AllLabels(recs)
    ensures r.Ok? ==> |r.value.features| == |r.value.labels| == TotalWindows(recs)
    ensures r.Ok? ==> forall k :: 0 <= k < |r.value.features| ==> |r.value.features[k]| == FeatureExtraction.NUM_FEATURES
  {
    var features: seq<seq<real>> := [];
    var labels: seq<int> := [];
    var stacked := 0;
    for i := 0 to |recs|
      invariant AllWellFormed(recs[..i])
      invariant features == AllRows(d, recs[..i]) && labels == AllLabels(recs[..i])
      invariant stacked == TotalWindows(recs[..i])
      invariant forall k :: 0 <= k < |features| ==> |features[k]| == FeatureExtraction.NUM_FEATURES
    {
      assert recs[..i + 1][..i] == recs[..i];
      var rec := recs[i];
      var windows := SignalProcessing.WindowSignal(
        SignalProcessing.Signal(1, rec.samples), SignalProcessing.DEFAULT_WINDOW_SIZE, SignalProcessing.DEFAULT_HOP_SIZE);
      var ws := Windows(rec);
      if |windows.value.rows| > 0 {
        assert !FeatureExtraction.HasShortWindow(ws);
        var extracted := FeatureExtraction.Extract(d, SignalProcessing.SAMPLE_RATE, Matrix(2, SignalProcessing.DEFAULT_WINDOW_SIZE, ws));
        assert extracted.value.rows == FeatureRows(d, ws);
        forall k | 0 <= k < |ws|
          ensures |extracted.value.rows[k]| == FeatureExtraction.NUM_FEATURES
        {
          FeatureExtraction.FeatureRowLayout(d, SignalProcessing.SAMPLE_RATE, ws[k]);
        }
        features := features + extracted.value.rows;
        labels := labels + WindowLabels(rec.phases, |ws|);
        stacked := stacked + |ws|;
      } else {
        assert FeatureRows(d, ws) == [] && WindowLabels(rec.phases, |ws|) == [];
      }
    }
    assert recs[..|recs|] == recs;
    if stacked == 0 {
      return Err(NoWindowedData);
    }
    RowsMatchLabels(d, recs);
    return Ok(Dataset(features, labels));
  }

  // ----- Train / test and validation splits -----

  /** The shuffled order of `rng.shuffle(np.arange(n))`: every index below n exactly once. */
  predicate IsShuffle(s: seq<nat>, n: nat)
  {
    && |s| == n
    && (forall i :: 0 <= i < n ==> s[i] < n)
    && (forall i, j :: 0 <= i < j < n ==> s[i] != s[j])
    && (forall k :: 0 <= k < n ==> k in s)
  }

  /**
   * The split of `main`: `split = int(n * (1 - test_ratio))`, the first
   * `split` shuffled indices train and the rest test (a negative `split`
   * counts from the end, as a Python slice bound does). For a ratio in
   * [0, 1] the training part holds floor(n * (1 - test_ratio)) indices.
   */
  function TrainTestSplit(shuffled: seq<nat>, testRatio: real): (r: (seq<nat>, seq<nat>))
    ensures r.0 + r.1 == shuffled
    ensures 0.0 <= testRatio <= 1.0 ==> |r.0| == Trunc(|shuffled| as real * (1.0 - testRatio))
  {
    var n := |shuffled|;
    var split := PyStop(n, Trunc(n as real * (1.0 - testRatio)));
    assert 0.0 <= testRatio <= 1.0 ==> 0.0 <= n as real * (1.0 - testRatio) <= n as real by {
      if 0.0 <= testRatio <= 1.0 {
        Stats.MulNonNegative(n as real, 1.0 - testRatio);
        Stats.MulNonNegative(n as real, testRatio);
        assert n as real * (1.0 - testRatio) == n as real - n as real * testRatio;
      }
    }
    assert shuffled[..split] + shuffled[split..] == shuffled;
    (shuffled[..split], shuffled[split..])
  }

  /** For a shuffle of 0..n-1 the two parts are disjoint and together hold every index. */
  lemma {:induction false} SplitPartitionsIndices(shuffled: seq<nat>, n: nat, testRatio: real)
    requires IsShuffle(shuffled, n)
    ensures forall k :: k in TrainTestSplit(shuffled, testRatio).0 ==> k !in TrainTestSplit(shuffled, testRatio).1
    ensures forall k :: 0 <= k < n ==> k in TrainTestSplit(shuffled, testRatio).0 || k in TrainTestSplit(shuffled, testRatio).1
  {
    var r := TrainTestSplit(shuffled, testRatio);
    var train, test := r.0, r.1;
    var split := |train|;
    assert shuffled == train + test;
    forall k | k in train
      ensures k !in test
    {
      var i :| 0 <= i < |train| && train[i] == k;
      assert shuffled[i] == k;
    }
    forall k | 0 <= k < n
      ensures k in train || k in test
    {
      assert k in shuffled;
      var i :| 0 <= i < n && shuffled[i] == k;
      if i < split {
        assert train[i] == k;
      } else {
        assert |test| == n - split;
        assert (train + test)[i] == test[i - split];
      }
    }
  }

  /** The training indices whose window is normal (`normal_mask`), in order. */
  function NormalIndices(train: seq<nat>, y: seq<int>): (r: seq<nat>)
    requires forall i :: 0 <= i < |train| ==> train[i] < |y|
    ensures forall k :: k in r ==> k in train && y[k] == 0
    ensures forall k :: k in train && y[k] == 0 ==> k in r
  {
    if train == [] then []
    else
      var rest := NormalIndices(train[1..], y);
      if y[train[0]] == 0 then [train[0]] + rest else rest
  }

  /**
   * The validation split of `main`: `n_val = max(1, int(len * val_ratio))`,
   * validation is the last `n_val` normal training rows and training keeps
   * the rows before them; when there are fewer rows than `n_val` all of them
   * validate. Both parts come from `normal`, in order.
   */
  function ValidationSplit<T>(normal: seq<T>, valRatio: real): (r: (seq<T>, seq<T>))
    ensures r.0 + r.1 == normal
    ensures var nVal := Trunc(|normal| as real * valRatio);
      |r.1| == if nVal <= 1 then (if |normal| == 0 then 0 else 1)
               else if nVal <= |normal| then nVal else |normal|
    ensures |normal| > 0 ==> |r.1| >= 1
  {
    var nVal := Trunc(|normal| as real * valRatio);
    var nValClamped := if nVal < 1 then 1 else nVal;
    var cut := PyStop(|normal|, -nValClamped);
    assert normal[..cut] + normal[cut..] == normal;
    (normal[..cut], normal[cut..])
  }

  /**
   * No validation or training row of the autoencoder is a test row or an
   * anomalous window: both come from the normal training indices, which the
   * test indices never share.
   */
  lemma ValidationRowsAreNormalTrainingRows(shuffled: seq<nat>, y: seq<int>, testRatio: real, valRatio: real)
    requires IsShuffle(shuffled, |y|)
    ensures var (train, test) := TrainTestSplit(shuffled, testRatio);
      var normal := NormalIndices(train, y);
      var (fitRows, valRows) := ValidationSplit(normal, valRatio);
      forall k :: k in fitRows || k in valRows ==> k !in test && k < |y| && y[k] == 0
  {
    var (train, test) := TrainTestSplit(shuffled, testRatio);
    SplitPartitionsIndices(shuffled, |y|, testRatio);
    var normal := NormalIndices(train, y);
    var (fitRows, valRows) := ValidationSplit(normal, valRatio);
    forall k | k in fitRows || k in valRows
      ensures k in normal
    {
      assert k in fitRows + valRows;
    }
  }
}
