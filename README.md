# Bearing vibration anomaly detection — a Dafny model of the core

This project models the core of a bearing-vibration anomaly detector and
proves properties of that model. The detector works in these steps:

1. A raw vibration signal is validated and cut into fixed-length,
   overlapping windows.
2. Each window becomes a 30-value feature row: ten time-domain,
   ten frequency-domain and ten wavelet-domain features.
3. Three detectors score the rows: an autoencoder (reconstruction error
   against a percentile threshold), an isolation forest (decision values
   min-max rescaled and reversed) and an LSTM (one probability per
   sequence of rows).
4. An ensemble combines the loaded detectors' scores into one weighted
   score per sample. From that score it derives a binary label (above 0.5)
   and an alert level: normal below 0.3, warning below 0.7, critical
   otherwise.
5. The inference service shapes that result into one response entry per
   sample plus a summary, and reports the health of the loaded models.

From the offline training script, the model covers:
- the window labels;
- the stacking of feature rows;
- the shuffled train/test split and the validation split;
- the evaluation metrics.

The neural networks and the fitted forest are opaque functions held in
the detectors' state. The model covers the code around them:
- the threshold state machines;
- the combination arithmetic;
- the error paths and their order;
- the response and health shapes.

Arithmetic is exact over the reals. Python's `int()` truncation and
Python slice bounds are written out (`Common.Trunc`, `Common.PyStop`).

Modules, one per source file, plus three shared ones:
- `Common`: errors, `Result`/`Option`, float64 samples, matrices,
  `np.isclose`, `int()` and slice bounds.
- `Stats`: numpy sums, min/max, the 'linear' percentile, min-max
  rescaling, thresholding.
- `Strided`: the strided slicing shared by `window_signal` and
  `create_sequences`.
- `SignalProcessing`, `FeatureExtraction`, `Autoencoder`,
  `IsolationForest`, `Lstm`, `Ensemble`, `Inference` (the inference
  service) and `Training` (`ml_pipeline/scripts/train_models.py`).

## Model

| member | source | states |
|---|---|---|
| SignalProcessing.Validated | backend/app/preprocessing/signal_processing.py:58-71 | validation fails on a non-1-D signal, then on an empty one; otherwise, as ValidatedIsFiniteCopy proves, a same-length copy where every sample is finite, finite samples kept and the rest read as 0.0 |
| SignalProcessing.ValidateSignal | backend/app/preprocessing/signal_processing.py:58-71 | the in-place cleaning loop returns exactly the validated signal: rank checked first, then emptiness, then every NaN/inf replaced by 0.0 |
| SignalProcessing.ValidatedIsFiniteCopy | backend/app/preprocessing/signal_processing.py:58-71 | validation keeps the length and every finite sample, and leaves only finite samples (a non-finite one becomes 0.0) |
| SignalProcessing.WindowSignal | backend/app/preprocessing/signal_processing.py:22-52 | by WindowSignalErrors, WindowSignalShape and WindowSignalContents: the validation errors, then a bad window or hop size; otherwise a 2-D array of full windows taken every hop samples from the cleaned signal |
| SignalProcessing.WindowSignalErrors | backend/app/preprocessing/signal_processing.py:41-43 | errors come in the code's order (not 1-D, empty, bad window or hop size), and windowing succeeds exactly when none applies |
| SignalProcessing.WindowSignalShape | backend/app/preprocessing/signal_processing.py:45-52 | the result is 2-D with `max(0, (len - window) // hop + 1)` rows of `window` samples, and window m exists iff it ends inside the signal |
| SignalProcessing.WindowSignalContents | backend/app/preprocessing/signal_processing.py:50-52 | sample k of window j is the cleaned sample `j * hop + k`, which lies inside the signal and is finite |
| SignalProcessing.WindowSignalDropsTail | backend/app/preprocessing/signal_processing.py:45-47 | no padding: no window iff the signal is shorter than one window, and one more window would not fit |
| SignalProcessing.WindowSignalOverlap | backend/app/preprocessing/signal_processing.py:50-52 | consecutive windows overlap by `window - hop` samples |
| Strided.SliceCount | backend/app/preprocessing/signal_processing.py:45 | `max(0, (n - size) // step + 1)` with Python's floor division; by SliceFitsIff it counts exactly the positions m where `m * step + size <= n` |
| Strided.SliceFitsIff | backend/app/preprocessing/signal_processing.py:45 | slice m is counted iff `m * step + size <= n` |
| Strided.Slices | backend/app/preprocessing/signal_processing.py:45-52 | there are `max(0, (n - size) // step + 1)` slices, each of `size` items |
| Strided.SliceElement | backend/app/preprocessing/signal_processing.py:50-52 | item k of slice j is item `j * step + k` of the input, and that index is in range |
| Strided.SlicesOverlap | backend/app/models/lstm.py:321-327 | consecutive slices share `size - step` items |
| Strided.TailDropped | backend/app/preprocessing/signal_processing.py:45-52 | every slice is full and the slice after the last would overrun |
| Strided.NoSliceIffTooShort | backend/app/preprocessing/signal_processing.py:45-47 | there is no slice iff the input is shorter than one slice |
| FeatureExtraction.NoDuplicatesAppend | backend/app/preprocessing/feature_extraction.py:59-61 | two duplicate-free, disjoint name lists concatenate without duplicates |
| FeatureExtraction.GroupsDistinct | backend/app/preprocessing/feature_extraction.py:25-59 | no feature name repeats within its domain group |
| FeatureExtraction.GroupsDisjoint | backend/app/preprocessing/feature_extraction.py:25-59 | no name appears in two domain groups |
| FeatureExtraction.FeatureNamesLayout | backend/app/preprocessing/feature_extraction.py:25-63 | exactly 30 distinct names: time in columns 0-9, frequency in 10-19, wavelet in 20-29 |
| FeatureExtraction.Abs | backend/app/preprocessing/feature_extraction.py:79 | a magnitude is non-negative and equals x or -x |
| FeatureExtraction.SumAbs | backend/app/preprocessing/feature_extraction.py:91 | the sum of magnitudes is non-negative |
| FeatureExtraction.Peak | backend/app/preprocessing/feature_extraction.py:79 | the peak is the magnitude of some sample and bounds every sample's magnitude |
| FeatureExtraction.SumSquaresBound | backend/app/preprocessing/feature_extraction.py:90 | samples bounded by p have energy at most `n * p^2` |
| FeatureExtraction.SumAbsBound | backend/app/preprocessing/feature_extraction.py:91 | samples bounded by p have an absolute sum at most `n * p` |
| FeatureExtraction.MeanSquare | backend/app/preprocessing/feature_extraction.py:78 | rms squared; by MeanSquareBound and PeakDominatesRms it lies between 0 and the peak squared |
| FeatureExtraction.MeanAbs | backend/app/preprocessing/feature_extraction.py:91 | the mean absolute value; by MeanAbsBound and MeanAbsBelowPeak it lies between 0 and the peak |
| FeatureExtraction.EnergyIsScaledMeanSquare | backend/app/preprocessing/feature_extraction.py:78-90 | energy is non-negative and equals the window length times rms squared |
| FeatureExtraction.MeanSquareBound | backend/app/preprocessing/feature_extraction.py:78 | the mean square is at most the square of any bound on the samples |
| FeatureExtraction.PeakDominatesRms | backend/app/preprocessing/feature_extraction.py:78-79 | the peak is non-negative and at least the rms (peak squared at least the mean square) |
| FeatureExtraction.MeanAbsBound | backend/app/preprocessing/feature_extraction.py:91 | the mean absolute value lies between 0 and any bound on the samples |
| FeatureExtraction.MeanAbsBelowPeak | backend/app/preprocessing/feature_extraction.py:79-91 | the mean absolute value lies between 0 and the peak |
| FeatureExtraction.PeakToPeak | backend/app/preprocessing/feature_extraction.py:92 | the spread of the window; PeakToPeakNonNegative proves it is never negative |
| FeatureExtraction.PeakToPeakNonNegative | backend/app/preprocessing/feature_extraction.py:92 | peak-to-peak is never negative |
| FeatureExtraction.BandsPartition | backend/app/preprocessing/feature_extraction.py:112 | the four half-open bands are pairwise disjoint and together cover exactly [0, 10000) Hz |
| FeatureExtraction.BandPower | backend/app/preprocessing/feature_extraction.py:146-149 | a band's power is non-negative |
| FeatureExtraction.BandPowers | backend/app/preprocessing/feature_extraction.py:146-149 | the band loop yields one non-negative power per band, in band order, each the power of the bins inside that band |
| FeatureExtraction.BandPowersWithinTotal | backend/app/preprocessing/feature_extraction.py:146-149 | the band powers never exceed the total power, and equal it when every bin lies in [0, 10000) |
| FeatureExtraction.PositiveFrequencies | backend/app/preprocessing/feature_extraction.py:119-125 | the positive half of `fftfreq` has `(n - 1) // 2` bins |
| FeatureExtraction.PositiveBinIffMinWindow | backend/app/preprocessing/feature_extraction.py:119-130 | a non-empty window has a positive-frequency bin, which `np.argmax(mag_pos)` needs, iff it has at least 3 samples |
| FeatureExtraction.PositiveFrequenciesBelowNyquist | backend/app/preprocessing/feature_extraction.py:119-125 | every positive bin lies strictly between 0 and the Nyquist frequency |
| FeatureExtraction.TotalBandPower | backend/app/preprocessing/feature_extraction.py:146-149 | the sum of the four band powers; by BandPowersWithinTotal and BandPowersCoverSpectrum it never exceeds the spectrum power and equals it at the 20 kHz rate |
| FeatureExtraction.BandPowersCoverSpectrum | backend/app/preprocessing/feature_extraction.py:112-149 | at the 20 kHz rate the four band powers add up to the whole positive-frequency power |
| FeatureExtraction.SumSquaresAppend | backend/app/preprocessing/feature_extraction.py:136 | the power of a concatenation is the sum of the parts' powers |
| FeatureExtraction.CumulativePower | backend/app/preprocessing/feature_extraction.py:136 | the cumulative power has one entry per bin |
| FeatureExtraction.CumulativePowerSorted | backend/app/preprocessing/feature_extraction.py:136-137 | the cumulative power is ascending, as the search requires |
| FeatureExtraction.SearchSortedLeft | backend/app/preprocessing/feature_extraction.py:137 | the result is the first index whose entry reaches v, or the length when none does |
| FeatureExtraction.RolloffIndex | backend/app/preprocessing/feature_extraction.py:136-138 | the rolloff bin exists iff there is a positive-frequency bin, and is a valid bin index |
| FeatureExtraction.RolloffReachesFraction | backend/app/preprocessing/feature_extraction.py:136-138 | the clamp never fires: the chosen bin is the first where the cumulative power reaches 85% of the total |
| FeatureExtraction.FeatureRow | backend/app/preprocessing/feature_extraction.py:250-259 | one window's features; by FeatureRowLayout 30 values, time then frequency of the tapered window then wavelet, matching FEATURE_NAMES |
| FeatureExtraction.FeatureRowLayout | backend/app/preprocessing/feature_extraction.py:250-259 | a row has 30 values: the time features, then the frequency features of the tapered window, then the wavelet features |
| FeatureExtraction.Extract | backend/app/preprocessing/feature_extraction.py:233-265 | a non-2-D input is rejected, then one holding a window of fewer than 3 samples (no sample for the peak, or no positive-frequency bin for the dominant frequency); otherwise one 30-column row per window in window order, row i being window i's feature row |
| Autoencoder.MeanSquaredError | backend/app/models/autoencoder.py:186 | the mean of the squared differences; by MeanSquaredErrorNonNegative never negative, and by MeanSquaredErrorOfPerfect zero for a perfect reconstruction |
| Autoencoder.MeanSquaredErrorNonNegative | backend/app/models/autoencoder.py:186 | a reconstruction error is never negative |
| Autoencoder.MeanSquaredErrorOfPerfect | backend/app/models/autoencoder.py:186 | a perfect reconstruction has error 0 |
| Stats.SumSquaresOfZeros | backend/app/models/autoencoder.py:186 | the sum of squares of an all-zero array is 0 |
| Autoencoder.AnomalyDetector.constructor | backend/app/models/autoencoder.py:70-74 | a new detector keeps its width and network and has no threshold |
| Autoencoder.AnomalyDetector.ReconstructionErrors | backend/app/models/autoencoder.py:179-187 | one non-negative mean squared error per row, in order; a row of the wrong width fails |
| Autoencoder.AnomalyDetector.ComputeThreshold | backend/app/models/autoencoder.py:128-136 | the percentile of the validation errors becomes the threshold and lies between the smallest and largest error; on failure the threshold is unchanged |
| Autoencoder.AnomalyDetector.Predict | backend/app/models/autoencoder.py:141-153 | fails without a threshold or on a bad shape; otherwise the scores are the rows' reconstruction errors, one non-negative score per row, labelled 1 iff above the threshold |
| Autoencoder.AnomalyDetector.Save | backend/app/models/autoencoder.py:158-163 | the metadata record holds the input width and threshold; by Load, loading it back and saving again gives the same record |
| Autoencoder.AnomalyDetector.Load | backend/app/models/autoencoder.py:158-174 | a loaded detector saves back to the same record and scores with the saved weights |
| Autoencoder.SameStateSamePrediction | backend/app/models/autoencoder.py:158-174 | equal records and weights give equal predictions, so save/load keeps predictions |
| IsolationForest.NormalizeScores | backend/app/models/isolation_forest.py:163-181 | normalisation succeeds iff there are decision values, and keeps their count |
| IsolationForest.NegateExtremes | backend/app/models/isolation_forest.py:163-181 | negation swaps minimum and maximum (up to sign) |
| IsolationForest.NormalizedInUnitInterval | backend/app/models/isolation_forest.py:163-181 | every normalised score lies in [0, 1] |
| IsolationForest.NormalizedFlat | backend/app/models/isolation_forest.py:163-181 | near-constant decision values give all zeros |
| IsolationForest.NormalizedReversesOrder | backend/app/models/isolation_forest.py:163-181 | a lower decision value (more anomalous) never gets a lower score |
| IsolationForest.NormalizedExtremes | backend/app/models/isolation_forest.py:163-181 | otherwise the smallest decision value scores 1 and the largest 0 |
| IsolationForest.IsolationForestDetector.constructor | backend/app/models/isolation_forest.py:38-66 | a new detector keeps its parameters and is not fitted |
| IsolationForest.IsolationForestDetector.TrainModel | backend/app/models/isolation_forest.py:58-85 | fails on parameters out of range (no trees, contamination outside (0, 0.5], no samples per tree), then on no rows, then on no features or rows of unequal width, then on a seed numpy rejects, changing nothing; otherwise installs the fitted forest with the training width as its `n_features_in_` and marks the detector fitted |
| IsolationForest.IsolationForestDetector.DecisionFunction | backend/app/models/isolation_forest.py:112-119 | succeeds iff fitted, given rows, and every row has the fitted width; errors in that order (not trained, no rows, shape mismatch); otherwise the forest's decision value of each row, in order |
| IsolationForest.IsolationForestDetector.Predict | backend/app/models/isolation_forest.py:90-110 | succeeds iff fitted, given rows, and every row has the fitted width, with the same error order as decision_function; otherwise label 1 iff the forest says -1, and scores the normalised decision values, each in [0, 1] |
| IsolationForest.IsolationForestDetector.Save | backend/app/models/isolation_forest.py:124-139 | the metadata record holds the forest parameters and the fitted flag; by Load, loading it back and saving again gives the same record |
| IsolationForest.IsolationForestDetector.Load | backend/app/models/isolation_forest.py:124-158 | a loaded detector saves back to the same record and holds the saved forest |
| IsolationForest.SameStateSamePrediction | backend/app/models/isolation_forest.py:124-158 | equal records and forests give equal predictions |
| Lstm.CreateSequences | backend/app/models/lstm.py:298-332 | fails iff the input is not 2-D; otherwise the strided slices of the rows, each labelled by the label of its last row when labels are given |
| Lstm.SequenceEndsAtLabelledRow | backend/app/models/lstm.py:321-327 | there are `max(0, (T - L) // stride + 1)` sequences, and sequence j ends at row `j * stride + L - 1` |
| Lstm.LstmDetector.constructor | backend/app/models/lstm.py:102-126 | a new detector keeps its configuration and has no threshold |
| Lstm.LstmDetector.ComputeThreshold | backend/app/models/lstm.py:186-204 | sequences whose rows are not `input_dim` wide fail with nothing changed; otherwise the percentile of the validation scores becomes the threshold, between the smallest and largest score and in [0, 1]; on a percentile failure nothing changes |
| Lstm.LstmDetector.Predict | backend/app/models/lstm.py:209-222 | fails without a threshold, then on sequences whose rows are not `input_dim` wide; otherwise the scores are the network's probabilities for the sequences, each in [0, 1], labelled 1 iff above the threshold |
| Lstm.LstmDetector.Save | backend/app/models/lstm.py:227-243 | the metadata record holds the configuration and threshold; by Load, loading it back and saving again gives the same record |
| Lstm.LstmDetector.Load | backend/app/models/lstm.py:227-268 | a loaded detector saves back to the same record and scores with the saved weights |
| Lstm.SameStateSamePrediction | backend/app/models/lstm.py:227-268 | equal records and weights give equal predictions |
| Ensemble.Classify | backend/app/models/ensemble.py:289-291 | the level a score gets: by ComputeAlertLevels and ClassifyMonotone, normal below 0.3, warning from 0.3 below 0.7, critical from 0.7, never lower for a higher score |
| Ensemble.ComputeAlertLevels | backend/app/models/ensemble.py:278-293 | the three masked passes give every score exactly the level its thresholds assign |
| Ensemble.ClassifyMonotone | backend/app/models/ensemble.py:278-293 | a higher score never gets a lower alert level |
| Ensemble.LabelAgreesWithLevel | backend/app/models/ensemble.py:266-293 | a critical score is labelled anomalous, an anomalous one is at least a warning, a normal one is labelled 0 |
| Ensemble.Normalized | backend/app/models/ensemble.py:151-157 | autoencoder scores are rescaled iff present and non-empty, keeping their count |
| Ensemble.TermBetween | backend/app/models/ensemble.py:151-177 | a present detector adds between 0 and its weight; an absent one adds nothing |
| Ensemble.CompositeBounds | backend/app/models/ensemble.py:151-177 | one composite lies between 0 and the sum of the present detectors' weights |
| Ensemble.AbsentAutoencoderNeverCritical | backend/app/models/ensemble.py:151-177 | with default weights and no autoencoder, no composite exceeds 0.6, so none is critical |
| Ensemble.SingleSampleIgnoresAutoencoder | backend/app/models/ensemble.py:295-311 | a one-sample batch rescales its autoencoder error to 0, so the autoencoder adds nothing |
| Ensemble.NormalizedInUnitInterval | backend/app/models/ensemble.py:295-311 | every rescaled autoencoder score lies in [0, 1] |
| Ensemble.Composite | backend/app/models/ensemble.py:146-177 | composite i is the sum of the three detectors' terms for sample i |
| Ensemble.CompositeWithinWeights | backend/app/models/ensemble.py:146-177 | every composite lies between 0 and the sum of the present weights |
| Ensemble.Components.Scored | backend/app/models/ensemble.py:183-191 | a detector is listed iff it produced scores |
| Ensemble.EnsembleDetector.constructor | backend/app/models/ensemble.py:57-92 | the ensemble keeps its detectors and weights, which sum to 1 |
| Ensemble.EnsembleDetector.Create | backend/app/models/ensemble.py:84-92 | weights that do not sum to 1 are rejected; otherwise a fresh ensemble with those detectors and weights |
| Ensemble.EnsembleDetector.SetWeights | backend/app/models/ensemble.py:97-119 | rejected weights leave the old ones; accepted ones replace all three; the weights stay normalised |
| Ensemble.EnsembleDetector.Config | backend/app/models/ensemble.py:221-228 | the saved configuration: the three weights and which detectors are loaded; by Load, loading it back and saving again gives the same record |
| Ensemble.EnsembleDetector.Load | backend/app/models/ensemble.py:232-261 | exactly the flagged detectors come back with the saved weights, rejected if they do not sum to 1; the loaded ensemble saves back to the same record |
| Ensemble.EnsembleDetector.Present | backend/app/models/ensemble.py:316-333 | a detector is present iff it is loaded |
| Ensemble.EnsembleDetector.Query | backend/app/models/ensemble.py:124-177 | succeeds iff every loaded detector does (with sequences for the LSTM, of matching count); the first failure in the code's order otherwise; then each loaded detector's scores, one per sample |
| Ensemble.EnsembleDetector.SequencesRequiredWithLstm | backend/app/models/ensemble.py:169-172 | a loaded LSTM without sequences always fails, with the sequence error unless an earlier detector failed |
| Ensemble.EnsembleDetector.CombineScores | backend/app/models/ensemble.py:146-177 | the accumulation equals the composite, records exactly the present detectors' weights, and is bounded by them |
| Ensemble.EnsembleDetector.Predict | backend/app/models/ensemble.py:124-191 | fails exactly as the detector calls do; otherwise composites, labels and levels as the combination defines them, each detector's own scores, the present detectors' weights, and composites within [0, active weight sum] for non-negative weights |
| Ensemble.EnsembleDetector.GetModelSummary | backend/app/models/ensemble.py:316-333 | all three detectors appear, flagged iff loaded, with their weights |
| Inference.IndividualScores | backend/app/services/inference_service.py:135-146 | one key per detector that scored, holding its score for that row |
| Inference.FormatPredictions | backend/app/services/inference_service.py:124-148 | entry i has index i, the composite, the level, the label as a boolean and row i's individual scores |
| Inference.CountLevel | backend/app/services/inference_service.py:150-159 | a level count never exceeds the number of samples |
| Inference.LevelCountsPartition | backend/app/services/inference_service.py:150-159 | the three level counts add up to the number of samples |
| Inference.AnomaliesBetweenLevelCounts | backend/app/services/inference_service.py:150-159 | the anomaly count lies between the critical count and the warning plus critical counts |
| Inference.Summarize | backend/app/services/inference_service.py:150-159 | the summary counts samples, anomalies and each level (the levels adding up to the total); there is a mean iff there are samples, and the mean lies between the smallest and largest score |
| Inference.Respond | backend/app/services/inference_service.py:124-159 | the response has one entry per sample, each carrying that sample's composite, level, flag and individual scores, with a consistent summary |
| Inference.ReportModels | backend/app/services/inference_service.py:182-206 | one entry per loaded detector in the fixed order, each with the threshold it reports |
| Inference.ReportedThreshold | backend/app/services/inference_service.py:182-206 | the threshold a health entry reports: by ReportModels, the autoencoder's and the LSTM's own threshold, none for the isolation forest |
| Inference.InOrder | backend/app/services/inference_service.py:182-206 | exactly the given detectors, each once |
| Inference.InferenceService.IsReady | backend/app/services/inference_service.py:223-229 | ready iff models are loaded and an ensemble is held; false after the constructor, true after a successful LoadModels or LoadFromEnsemble, unchanged by a failed one |
| Inference.InferenceService.constructor | backend/app/services/inference_service.py:36-43 | a new service has nothing loaded and is not ready |
| Inference.InferenceService.LoadModels | backend/app/services/inference_service.py:45-82 | a missing directory fails and changes nothing; otherwise a fresh ensemble of the given detectors with the default weights, and the service is ready |
| Inference.InferenceService.LoadFromEnsemble | backend/app/services/inference_service.py:84-91 | a saved ensemble with unnormalised weights fails and changes nothing; otherwise it replaces the current one and the service is ready |
| Inference.InferenceService.Predict | backend/app/services/inference_service.py:93-164 | not ready, not 2-D, then the ensemble's failure; otherwise one entry per row whose score, level, flag and individual scores follow from the detectors' scores and the weights, with a consistent summary |
| Inference.InferenceService.GetHealthStatus | backend/app/services/inference_service.py:166-221 | unready is unhealthy with nothing; otherwise the loaded detectors in order with their thresholds, healthy with all three, degraded with one or two, unhealthy with none, and the weights |
| Stats.SumSquares | backend/app/preprocessing/feature_extraction.py:90 | a sum of squares is never negative |
| Stats.MinOf | backend/app/models/ensemble.py:304-305 | the minimum is an element and no element is below it |
| Stats.MaxOf | backend/app/models/ensemble.py:304-305 | the maximum is an element and no element is above it |
| Stats.SortAscending | backend/app/models/autoencoder.py:135 | an ascending permutation of the input |
| Stats.Percentile | backend/app/models/autoencoder.py:135 | defined iff the input is non-empty and the percentile in [0, 100], with the matching error otherwise |
| Stats.Interpolate | backend/app/models/autoencoder.py:135 | the interpolated value lies between the first and last order statistic |
| Stats.PercentileBetweenMinAndMax | backend/app/models/autoencoder.py:135 | a percentile lies between the minimum and the maximum |
| Stats.SumBetween | backend/app/services/inference_service.py:158 | a sum of n values between lo and hi lies between n * lo and n * hi |
| Stats.Mean | backend/app/services/inference_service.py:158 | the mean of a non-empty array lies between its minimum and maximum |
| Stats.MinMaxScale | backend/app/models/ensemble.py:295-311 | defined iff the input is non-empty, keeping its length |
| Stats.MinMaxScaleInUnitInterval | backend/app/models/ensemble.py:295-311 | every rescaled score lies in [0, 1] |
| Stats.MinMaxScaleMonotone | backend/app/models/ensemble.py:295-311 | rescaling keeps the order of the scores |
| Stats.MinMaxScaleFlat | backend/app/models/ensemble.py:295-311 | a spread below 1e-10 gives all zeros |
| Stats.MinMaxScaleExtremes | backend/app/models/ensemble.py:295-311 | otherwise the minimum maps to 0 and the maximum to 1 |
| Stats.AboveThreshold | backend/app/models/ensemble.py:266-276 | one label per score, 1 iff the score is strictly above the threshold |
| Stats.CountOnes | backend/app/services/inference_service.py:150-159 | the anomaly count never exceeds the number of labels |
| Common.IsCloseToOne | backend/app/models/ensemble.py:86 | `np.isclose(total, 1.0)` with the default tolerances: total lies within 1e-8 + 1e-5 of 1; Create, SetWeights and Load reject exactly the weights outside it |
| Common.Trunc | ml_pipeline/scripts/train_models.py:181 | `int()` truncates toward zero |
| Common.PyStop | ml_pipeline/scripts/train_models.py:183 | a Python slice bound: in range as given, counted from the end when negative, clamped otherwise |
| Training.CountPairs | ml_pipeline/scripts/train_models.py:114-117 | a confusion count never exceeds the number of samples |
| Training.MetricsOf | ml_pipeline/scripts/train_models.py:119-122 | precision, recall and false-positive rate are the count ratios (0 on a zero denominator), F1 their harmonic mean, and every ratio lies in [0, 1] |
| Training.Evaluate | ml_pipeline/scripts/train_models.py:112-130 | the metrics of the four confusion counts, which add up to the sample count for 0/1 labels |
| Training.ConfusionPartition | ml_pipeline/scripts/train_models.py:114-117 | with 0/1 labels every position falls in exactly one confusion cell |
| Training.Ratio | ml_pipeline/scripts/train_models.py:119-122 | a count ratio, 0 on a zero denominator; by RatioInUnit it lies in [0, 1] for a part of its whole, and MetricsOf relies on it |
| Training.RatioInUnit | ml_pipeline/scripts/train_models.py:119-122 | a ratio of a part to its whole lies in [0, 1] |
| Training.HarmonicMean | ml_pipeline/scripts/train_models.py:121 | F1 of two ratios in [0, 1] lies in [0, 1] |
| Training.NoMismatchCounts | ml_pipeline/scripts/train_models.py:115-116 | predictions equal to the truth give no false positives or negatives |
| Training.PerfectCountsScoreOne | ml_pipeline/scripts/train_models.py:119-122 | no false positives or negatives and a true positive give precision, recall and F1 of 1 and a false-positive rate of 0 |
| Training.PerfectPredictionScoresOne | ml_pipeline/scripts/train_models.py:112-130 | perfect predictions with an anomaly score 1, 1, 1 and a false-positive rate of 0 |
| Training.WindowLabels | ml_pipeline/scripts/train_models.py:96-100 | window k is labelled 1 iff the phase of its first sample is "anomaly", and that sample lies inside the recording |
| Training.Windows | ml_pipeline/scripts/train_models.py:82-91 | a recording yields as many windows as the strided count gives, each of 1024 samples |
| Training.RowsMatchLabels | ml_pipeline/scripts/train_models.py:82-106 | there is one label per feature row and one row per window |
| Training.ExtractFeatures | ml_pipeline/scripts/train_models.py:66-106 | fails iff no recording yields a window; otherwise every recording's 30-value rows and window labels, recording after recording |
| Training.TrainTestSplit | ml_pipeline/scripts/train_models.py:178-185 | the two parts concatenate to the shuffled order, and training holds `int(n * (1 - test_ratio))` indices for a ratio in [0, 1] |
| Training.SplitPartitionsIndices | ml_pipeline/scripts/train_models.py:181-183 | for a shuffle of the indices, the parts are disjoint and together hold every index |
| Training.NormalIndices | ml_pipeline/scripts/train_models.py:188-189 | exactly the training indices whose label is 0 |
| Training.ValidationSplit | ml_pipeline/scripts/train_models.py:192-193 | the parts concatenate to the normal rows, and validation holds `max(1, int(n * val_ratio))` rows, at least one when there are any, or all of them when there are fewer |
| Training.ValidationRowsAreNormalTrainingRows | ml_pipeline/scripts/train_models.py:178-193 | no autoencoder training or validation row is a test row or an anomalous window |

## Left out

- The neural networks (autoencoder, LSTM) and the fitted isolation forest are opaque functions. Their `train_model` loops, optimisers, devices, float32 casts and random seeds are not modelled; the isolation forest's `fit` is a parameter.
- The FFT, the wavelet decomposition and the features that need square roots, logarithms or higher moments (rms itself, kurtosis, skewness, entropies) are opaque functions. Only the quantities that are exact over the reals are modelled: energy, mean square, peak, mean absolute value, peak-to-peak, band powers, the positive frequency bins and the rolloff index.
- `apply_hanning_window` is an opaque taper.
- Persistence is modelled as records. `save` produces a metadata record. `load` takes that record plus the saved weights or forest as parameters. File and directory I/O is not modelled.
- Inference.InferenceService.LoadModels: whether the directory and each detector's sub-directory exist are parameters. The detectors loaded from them are passed in (null when absent).
- Training.TrainTestSplit: the shuffle's random generator is not modelled. Its output is a parameter, constrained by `IsShuffle` where a lemma needs it.
- The split is modelled on indices, not on the row arrays they select.
- Training.Evaluate: rounding the ratios to four decimals is not modelled. The ratios are exact. Equal lengths of truth and prediction are required, where numpy would broadcast or raise.
- Training.ExtractFeatures: each recording is assumed non-empty with one phase per sample. CSV loading (`load_bearing_data`), `download_data` and the command-line entry point are not modelled.
- Training.WindowLabels: a window is labelled by the phase of its first sample, as the code does, although the code's comment speaks of any sample in the window.
- Inference.Summarize: numpy's mean of an empty array (NaN, with a warning) is modelled as `None`.
- Inference.InferenceService.GetHealthStatus: the unready report's empty `ensemble_config` is modelled as `None`.
- Inference.InferenceService.Predict: the bound of every composite by the active weight sum is stated on Ensemble.EnsembleDetector.Predict, not repeated here.
- The singleton `__new__` of the inference service is not modelled. Each service is a separate object.
- Lstm.LstmDetector.Predict: numpy broadcasting of a length-1 LSTM score array against the samples is treated as a shape mismatch in Ensemble.EnsembleDetector.Query.
- Lstm.LstmDetector.Predict: of torch's input checks only the feature width is modelled; sequences of unequal length (impossible in a 3-D array) and an empty batch or empty sequences are not rejected.
- IsolationForest.IsolationForestDetector.Predict: the rows are finite reals, so scikit-learn's rejection of NaN or infinite features is not modelled.
- Ensemble.EnsembleDetector.Predict: the weights of absent detectors are not redistributed, as in the code. `np.isclose(total, 1.0)` is written out with its default tolerances.
- Autoencoder.MeanSquaredError: only one direction of "zero error iff perfect reconstruction" is proved (a perfect reconstruction gives 0); the converse needs facts about squares that the solver does not reuse.
- Autoencoder.AnomalyDetector.constructor: an input width of at least 1 is a type (`Width`).
- Lstm.CreateSequences: a sequence length and a stride of at least 1 are preconditions. With a sequence length of 0 the code yields n + 1 empty sequences, the first labelled with the last label (`y[-1]`); with a stride of 0 `range` raises. Neither case is modelled.
- IsolationForest.IsolationForestDetector.TrainModel: `max_samples` is modelled as an integer only (not "auto" or a fraction), and a `max_samples` above the number of rows, which scikit-learn lowers with a warning, is not distinguished.
- The API routes and schemas, `main.py` and `normalization.py` (the standard scaler) are not part of this model.
