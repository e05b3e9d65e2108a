/**
 * backend/app/preprocessing/feature_extraction.py: the fixed 30-entry feature
 * layout, the shape contract of `FeatureExtractor.extract` (the three domain
 * computations are opaque functions returning 10 values each), the time-domain
 * quantities that are exact over the reals, the frequency bands and the
 * clamped spectral-rolloff index.
 */
module FeatureExtraction {
  import opened Common
  import Stats
  import SignalProcessing

  // ---------------------------------------------------------------------------
  // Feature names
  // ---------------------------------------------------------------------------

  /** The names of the time-domain features, columns 0-9. */
  const TIME_FEATURES: seq<string> := [
    "rms", "peak", "crest_factor", "kurtosis", "skewness",
    "std_dev", "energy", "mean_abs_value", "peak_to_peak", "impulse_factor"]

  /** The names of the frequency-domain features, columns 10-19. */
  const FREQUENCY_FEATURES: seq<string> := [
    "dominant_freq", "spectral_centroid", "spectral_rolloff_85", "spectral_spread",
    "band_power_0_1k", "band_power_1_2k", "band_power_2_5k", "band_power_5_10k",
    "freq_variance", "spectral_kurtosis"]

  /** The names of the wavelet-domain features, columns 20-29. */
  const WAVELET_FEATURES: seq<string> := [
    "wavelet_detail_energy_1", "wavelet_detail_energy_2", "wavelet_detail_energy_3",
    "wavelet_detail_energy_4", "wavelet_approx_energy_4",
    "wavelet_entropy_1", "wavelet_entropy_2", "wavelet_entropy_3", "wavelet_entropy_4",
    "wavelet_variance"]

  /** The canonical column order. */
  const FEATURE_NAMES: seq<string> := TIME_FEATURES + FREQUENCY_FEATURES + WAVELET_FEATURES

  const NUM_FEATURES: nat := |FEATURE_NAMES|

  predicate NoDuplicates(s: seq<string>)
  {
    forall i, j :: 0 <= i < j < |s| ==> s[i] != s[j]
  }

  predicate Disjoint(a: seq<string>, b: seq<string>)
  {
    forall i, j :: 0 <= i < |a| && 0 <= j < |b| ==> a[i] != b[j]
  }

  lemma NoDuplicatesAppend(a: seq<string>, b: seq<string>)
    requires NoDuplicates(a) && NoDuplicates(b) && Disjoint(a, b)
    ensures NoDuplicates(a + b)
  {
  }

  lemma GroupsDistinct()
    ensures NoDuplicates(TIME_FEATURES) && NoDuplicates(FREQUENCY_FEATURES) && NoDuplicates(WAVELET_FEATURES)
  {
  }

  lemma GroupsDisjoint()
    ensures Disjoint(TIME_FEATURES, FREQUENCY_FEATURES)
    ensures Disjoint(TIME_FEATURES, WAVELET_FEATURES)
    ensures Disjoint(FREQUENCY_FEATURES, WAVELET_FEATURES)
  {
  }

  /** Exactly 30 names, none repeated, ten per domain in the order time, frequency, wavelet. */
  lemma FeatureNamesLayout()
    ensures NUM_FEATURES == 30
    ensures NoDuplicates(FEATURE_NAMES)
    ensures FEATURE_NAMES[..10] == TIME_FEATURES
    ensures FEATURE_NAMES[10..20] == FREQUENCY_FEATURES
    ensures FEATURE_NAMES[20..] == WAVELET_FEATURES
  {
    GroupsDistinct();
    GroupsDisjoint();
    NoDuplicatesAppend(TIME_FEATURES, FREQUENCY_FEATURES);
    assert Disjoint(TIME_FEATURES + FREQUENCY_FEATURES, WAVELET_FEATURES);
    NoDuplicatesAppend(TIME_FEATURES + FREQUENCY_FEATURES, WAVELET_FEATURES);
  }

  // ---------------------------------------------------------------------------
  // Time-domain quantities that are exact over the reals
  // ---------------------------------------------------------------------------

  function Abs(x: real): (a: real)
    ensures a >= 0.0 && (a == x || a == -x)
  {
    if x < 0.0 then -x else x
  }

  /** `np.mean(window ** 2)`, the square of the rms. */
  function MeanSquare(w: seq<real>): real
    requires |w| > 0
  {
    Stats.SumSquares(w) / |w| as real
  }

  /** `np.sum(np.abs(window))`. */
  function SumAbs(w: seq<real>): (s: real)
    ensures s >= 0.0
  {
    if w == [] then 0.0 else Abs(w[0]) + SumAbs(w[1..])
  }

  /** `np.mean(np.abs(window))`, the mean absolute value. */
  function MeanAbs(w: seq<real>): real
    requires |w| > 0
  {
    SumAbs(w) / |w| as real
  }

  /** `np.max(np.abs(window))`: the largest magnitude, attained by some sample. */
  function Peak(w: seq<real>): (p: real)
    requires |w| > 0
    ensures exists i :: 0 <= i < |w| && Abs(w[i]) == p
    ensures forall i :: 0 <= i < |w| ==> Abs(w[i]) <= p
  {
    if |w| == 1 then Abs(w[0])
    else
      var t := Peak(w[1..]);
      if Abs(w[0]) >= t then Abs(w[0]) else t
  }

  /** `np.ptp(window)`: largest minus smallest sample. */
  function PeakToPeak(w: seq<real>): real
    requires |w| > 0
  {
    Stats.MaxOf(w) - Stats.MinOf(w)
  }

  lemma SquareBelow(x: real, p: real)
    requires Abs(x) <= p
    ensures x * x <= p * p
  {
    var a := Abs(x);
    assert x * x == a * a;
    assert a * a <= a * p;
    assert a * p <= p * p;
  }

  lemma {:induction false} SumSquaresBound(w: seq<real>, p: real)
    requires forall i :: 0 <= i < |w| ==> Abs(w[i]) <= p
    ensures Stats.SumSquares(w) <= |w| as real * (p * p)
  {
    if w != [] {
      SquareBelow(w[0], p);
      SumSquaresBound(w[1..], p);
    }
  }

  lemma {:induction false} SumAbsBound(w: seq<real>, p: real)
    requires forall i :: 0 <= i < |w| ==> Abs(w[i]) <= p
    ensures SumAbs(w) <= |w| as real * p
  {
    if w != [] {
      SumAbsBound(w[1..], p);
    }
  }

  lemma DivideBound(x: real, n: real, c: real)
    requires n > 0.0 && x <= n * c
    ensures x / n <= c
  {
    assert x / n * n == x;
  }

  /** Energy = n * rms^2, and it is never negative. */
  lemma {:induction false} EnergyIsScaledMeanSquare(w: seq<real>)
    requires |w| > 0
    ensures Stats.SumSquares(w) >= 0.0
    ensures Stats.SumSquares(w) == |w| as real * MeanSquare(w)
  {
    var n := |w| as real;
    assert Stats.SumSquares(w) / n * n == Stats.SumSquares(w);
  }

  lemma {:induction false} MeanSquareBound(w: seq<real>, p: real)
    requires |w| > 0
    requires forall i :: 0 <= i < |w| ==> Abs(w[i]) <= p
    ensures MeanSquare(w) <= Stats.Square(p)
  {
    SumSquaresBound(w, p);
    DivideBound(Stats.SumSquares(w), |w| as real, p * p);
  }

  /** The peak is at least the rms: peak >= 0 and peak^2 >= mean of the squares. */
  lemma {:induction false} PeakDominatesRms(w: seq<real>)
    requires |w| > 0
    ensures Peak(w) >= 0.0
    ensures MeanSquare(w) <= Stats.Square(Peak(w))
  {
    var p := Peak(w);
    assert Abs(w[0]) <= p;
    MeanSquareBound(w, p);
  }

  lemma {:induction false} MeanAbsBound(w: seq<real>, p: real)
    requires |w| > 0
    requires forall i :: 0 <= i < |w| ==> Abs(w[i]) <= p
    ensures 0.0 <= MeanAbs(w) <= p
  {
    SumAbsBound(w, p);
    DivideBound(SumAbs(w), |w| as real, p);
    Stats.DivNonNegative(SumAbs(w), |w| as real);
  }

  /** The mean absolute value lies between 0 and the peak. */
  lemma {:induction false} MeanAbsBelowPeak(w: seq<real>)
    requires |w| > 0
    ensures 0.0 <= MeanAbs(w) <= Peak(w)
  {
    MeanAbsBound(w, Peak(w));
  }

  /** Peak-to-peak is never negative. */
  lemma {:induction false} PeakToPeakNonNegative(w: seq<real>)
    requires |w| > 0
    ensures PeakToPeak(w) >= 0.0
  {
    assert Stats.MinOf(w) <= w[0] <= Stats.MaxOf(w);
  }

  // ---------------------------------------------------------------------------
  // Frequency bands and spectral rolloff
  // ---------------------------------------------------------------------------

  /** A frequency band [lo, hi) in Hz. */
  datatype Band = Band(lo: real, hi: real)

  const BANDS: seq<Band> := [Band(0.0, 1000.0), Band(1000.0, 2000.0), Band(2000.0, 5000.0), Band(5000.0, 10000.0)]

  /** `(freqs_pos >= lo) & (freqs_pos < hi)`: the bands are half-open. */
  predicate InBand(f: real, b: Band)
  {
    b.lo <= f < b.hi
  }

  /** No frequency lies in two bands, and every one in [0, 10000) lies in one. */
  lemma BandsPartition(f: real)
    ensures forall i, j :: 0 <= i < j < |BANDS| ==> !(InBand(f, BANDS[i]) && InBand(f, BANDS[j]))
    ensures 0.0 <= f < 10000.0 <==> exists i :: 0 <= i < |BANDS| && InBand(f, BANDS[i])
  {
    if 0.0 <= f < 10000.0 {
      if f < 1000.0 {
        assert InBand(f, BANDS[0]);
      } else if f < 2000.0 {
        assert InBand(f, BANDS[1]);
      } else if f < 5000.0 {
        assert InBand(f, BANDS[2]);
      } else {
        assert InBand(f, BANDS[3]);
      }
    }
  }

  /** `power[mask].sum()`: the power (squared magnitude) of the bins inside band b. */
  function BandPower(freqs: seq<real>, mag: seq<real>, b: Band): (p: real)
    requires |freqs| == |mag|
    ensures p >= 0.0
  {
    if freqs == [] then 0.0
    else
      Stats.SquareNonNegative(mag[0]);
      (if InBand(freqs[0], b) then mag[0] * mag[0] else 0.0) + BandPower(freqs[1..], mag[1..], b)
  }

  /** The band-power loop: one entry per band, in band order. */
  method BandPowers(freqs: seq<real>, mag: seq<real>) returns (powers: seq<real>)
    requires |freqs| == |mag|
    ensures |powers| == |BANDS|
    ensures forall b :: 0 <= b < |BANDS| ==> powers[b] == BandPower(freqs, mag, BANDS[b]) && powers[b] >= 0.0
  {
    powers := [];
    var b := 0;
    while b < |BANDS|
      invariant 0 <= b <= |BANDS|
      invariant |powers| == b
      invariant forall k :: 0 <= k < b ==> powers[k] == BandPower(freqs, mag, BANDS[k])
    {
      powers := powers + [BandPower(freqs, mag, BANDS[b])];
      b := b + 1;
    }
  }

  function TotalBandPower(freqs: seq<real>, mag: seq<real>): real
    requires |freqs| == |mag|
  {
    BandPower(freqs, mag, BANDS[0]) + BandPower(freqs, mag, BANDS[1])
      + BandPower(freqs, mag, BANDS[2]) + BandPower(freqs, mag, BANDS[3])
  }

  /**
   * Each bin adds to at most one band power, so the band powers together never
   * exceed the total power; when every bin lies in [0, 10000) they add up to it.
   */
  lemma {:induction false} BandPowersWithinTotal(freqs: seq<real>, mag: seq<real>)
    requires |freqs| == |mag|
    ensures TotalBandPower(freqs, mag) <= Stats.SumSquares(mag)
    ensures (forall k :: 0 <= k < |freqs| ==> 0.0 <= freqs[k] < 10000.0) ==>
              TotalBandPower(freqs, mag) == Stats.SumSquares(mag)
  {
    if freqs != [] {
      BandPowersWithinTotal(freqs[1..], mag[1..]);
      BandsPartition(freqs[0]);
      Stats.SquareNonNegative(mag[0]);
      if 0.0 <= freqs[0] < 10000.0 {
        assert forall k :: 1 <= k < |freqs| ==> freqs[1..][k - 1] == freqs[k];
      }
    }
  }

  /**
   * The positive half of `fftfreq(n, d=1/rate)`: bins k * rate / n for
   * k = 1 .. (n - 1) // 2.
   */
  function PositiveFrequencies(n: nat, rate: nat): (f: seq<real>)
    requires n >= 1
    ensures |f| == (n - 1) / 2
  {
    seq((n - 1) / 2, k requires 0 <= k < (n - 1) / 2 => ((k + 1) * rate) as real / n as real)
  }

  lemma DivideBelow(a: real, n: real, c: real)
    requires n > 0.0 && a < n * c
    ensures a / n < c
  {
    assert a / n * n == a;
  }

  /** Every positive bin lies strictly between 0 and the Nyquist frequency rate / 2. */
  lemma PositiveFrequenciesBelowNyquist(n: nat, rate: nat, k: nat)
    requires n >= 1 && rate >= 1 && k < (n - 1) / 2
    ensures 0.0 < PositiveFrequencies(n, rate)[k] < rate as real / 2.0
  {
    var a := ((k + 1) * rate) as real;
    assert 2 * (k + 1) < n;
    assert 2 * (k + 1) * rate < n * rate;
    assert 2.0 * a < n as real * rate as real;
    DivideBelow(a, n as real, rate as real / 2.0);
    assert a > 0.0;
  }

  /**
   * At the 20 kHz sample rate every positive bin lies in exactly one band, so the
   * four band powers add up to the whole positive-frequency power.
   */
  lemma {:induction false} BandPowersCoverSpectrum(n: nat, mag: seq<real>)
    requires n >= 1 && |mag| == (n - 1) / 2
    ensures TotalBandPower(PositiveFrequencies(n, SignalProcessing.SAMPLE_RATE), mag) == Stats.SumSquares(mag)
  {
    var f := PositiveFrequencies(n, SignalProcessing.SAMPLE_RATE);
    forall k | 0 <= k < |f|
      ensures 0.0 <= f[k] < 10000.0
    {
      PositiveFrequenciesBelowNyquist(n, SignalProcessing.SAMPLE_RATE, k);
    }
    BandPowersWithinTotal(f, mag);
  }

  lemma {:induction false} SumSquaresAppend(a: seq<real>, b: seq<real>)
    ensures Stats.SumSquares(a + b) == Stats.SumSquares(a) + Stats.SumSquares(b)
  {
    if a != [] {
      assert (a + b)[0] == a[0];
      assert (a + b)[1..] == a[1..] + b;
      SumSquaresAppend(a[1..], b);
    } else {
      assert a + b == b;
    }
  }

  /** `np.cumsum(power)`: entry i is the power of bins 0 .. i. */
  function CumulativePower(mag: seq<real>): (c: seq<real>)
    ensures |c| == |mag|
  {
    seq(|mag|, i requires 0 <= i < |mag| => Stats.SumSquares(mag[..i + 1]))
  }

  /** The cumulative power never decreases, as `np.searchsorted` requires. */
  lemma {:induction false} CumulativePowerSorted(mag: seq<real>)
    ensures Stats.Sorted(CumulativePower(mag))
  {
    var c := CumulativePower(mag);
    forall i, j | 0 <= i < j < |c|
      ensures c[i] <= c[j]
    {
      assert mag[..j + 1] == mag[..i + 1] + mag[i + 1..j + 1];
      SumSquaresAppend(mag[..i + 1], mag[i + 1..j + 1]);
    }
  }

  /**
   * `np.searchsorted(a, v)` (side 'left') on an ascending array: the first
   * index whose entry is at least v, or |a| when there is none.
   */
  function SearchSortedLeft(a: seq<real>, v: real): (i: nat)
    ensures i <= |a|
    ensures forall k :: 0 <= k < i ==> a[k] < v
    ensures i < |a| ==> a[i] >= v
  {
    if a == [] then 0
    else if a[0] >= v then 0
    else 1 + SearchSortedLeft(a[1..], v)
  }

  /** The rolloff fraction. */
  const ROLLOFF_FRACTION: real := 0.85

  /**
   * The spectral-rolloff bin: the first bin where the cumulative power reaches
   * 85% of the total, clamped by `min(idx, len(freqs_pos) - 1)`. With no
   * positive-frequency bin `cum_power[-1]` raises.
   */
  function RolloffIndex(mag: seq<real>): (r: Result<nat>)
    ensures r.Ok? <==> |mag| > 0
    ensures r.Ok? ==> r.value < |mag|
  {
    if |mag| == 0 then Err(EmptyInput)
    else
      var c := CumulativePower(mag);
      var idx := SearchSortedLeft(c, ROLLOFF_FRACTION * c[|c| - 1]);
      Ok(if idx < |mag| - 1 then idx else |mag| - 1)
  }

  /**
   * The clamp never fires: the total power is not negative, so the search
   * always finds a bin, and the chosen bin is the first one at which the
   * cumulative power reaches 85% of the total.
   */
  lemma {:induction false} RolloffReachesFraction(mag: seq<real>)
    requires |mag| > 0
    ensures var c := CumulativePower(mag);
      var i := RolloffIndex(mag).value;
      && i == SearchSortedLeft(c, ROLLOFF_FRACTION * c[|c| - 1])
      && c[i] >= ROLLOFF_FRACTION * c[|c| - 1]
      && forall k :: 0 <= k < i ==> c[k] < ROLLOFF_FRACTION * c[|c| - 1]
  {
    var c := CumulativePower(mag);
    var total := c[|c| - 1];
    assert total >= 0.0;
    assert total >= ROLLOFF_FRACTION * total;
    var idx := SearchSortedLeft(c, ROLLOFF_FRACTION * total);
    assert idx < |c|;
  }

  // ---------------------------------------------------------------------------
  // FeatureExtractor.extract
  // ---------------------------------------------------------------------------

  /** A vector of the ten features of one domain. */
  type Vec10 = s: seq<real> | |s| == 10 witness [0.0, 0.0, 0.0, 0.0, 0.0, 0.0, 0.0, 0.0, 0.0, 0.0]

  /**
   * The per-window computations, opaque here: the three domain feature
   * functions (the frequency one also takes the sample rate) and the Hanning
   * taper of `apply_hanning_window`.
   */
  datatype Domains = Domains(
    time: seq<real> -> Vec10,
    frequency: (seq<real>, nat) -> Vec10,
    wavelet: seq<real> -> Vec10,
    taper: seq<real> -> seq<real>)

  /** The feature row of one window: time and wavelet on the raw window, frequency on the tapered one. */
  function FeatureRow(d: Domains, sampleRate: nat, w: seq<real>): seq<real>
  {
    d.time(w) + d.frequency(d.taper(w), sampleRate) + d.wavelet(w)
  }

  /** Every row holds 30 values whose three groups of ten follow FEATURE_NAMES. */
  lemma FeatureRowLayout(d: Domains, sampleRate: nat, w: seq<real>)
    ensures |FeatureRow(d, sampleRate, w)| == NUM_FEATURES
    ensures FeatureRow(d, sampleRate, w)[..10] == d.time(w)
    ensures FeatureRow(d, sampleRate, w)[10..20] == d.frequency(d.taper(w), sampleRate)
    ensures FeatureRow(d, sampleRate, w)[20..] == d.wavelet(w)
  {
    var t: seq<real>, f: seq<real>, v: seq<real> := d.time(w), d.frequency(d.taper(w), sampleRate), d.wavelet(w);
    assert (t + f + v)[..10] == t;
    assert (t + f + v)[10..20] == f;
    assert (t + f + v)[20..] == v;
  }

  /**
   * The fewest samples a window needs: one for the time-domain `np.max`, and
   * three for the spectrum to have a positive-frequency bin for `np.argmax`.
   */
  const MIN_WINDOW_SIZE: nat := 3

  /** A window of at least one sample has a positive-frequency bin iff it has MIN_WINDOW_SIZE samples. */
  lemma PositiveBinIffMinWindow(n: nat, rate: nat)
    requires n >= 1
    ensures |PositiveFrequencies(n, rate)| > 0 <==> n >= MIN_WINDOW_SIZE
  {
  }

  /** Some window is too short for the features: no sample to reduce, or no positive-frequency bin. */
  predicate HasShortWindow(rows: seq<seq<real>>)
  {
    exists i :: 0 <= i < |rows| && |rows[i]| < MIN_WINDOW_SIZE
  }

  /**
   * `FeatureExtractor.extract`: reject input that is not 2-D; otherwise build
   * one 30-value row per window, in window order (zero windows give a 0 x 30
   * array). A window without samples makes the time-domain peak fail, and one
   * of one or two samples the dominant-frequency search.
   */
  method Extract(d: Domains, sampleRate: nat, windows: Matrix<real>) returns (r: Result<Matrix<real>>)
    ensures r.Err? <==> windows.ndim != 2 || HasShortWindow(windows.rows)
    ensures r.Err? ==> r.error == (if windows.ndim != 2 then NotTwoDimensional else EmptyInput)
    ensures r.Ok? ==> r.value.ndim == 2 && r.value.cols == NUM_FEATURES && Rectangular(r.value)
    ensures r.Ok? ==> |r.value.rows| == |windows.rows|
    ensures r.Ok? ==> forall i :: 0 <= i < |windows.rows| ==>
              r.value.rows[i] == FeatureRow(d, sampleRate, windows.rows[i])
  {
    if windows.ndim != 2 {
      return Err(NotTwoDimensional);
    }
    if |windows.rows| == 0 {
      return Ok(Matrix(2, NUM_FEATURES, []));
    }
    var rows: seq<seq<real>> := [];
    var i := 0;
    while i < |windows.rows|
      invariant 0 <= i <= |windows.rows|
      invariant |rows| == i
      invariant forall k :: 0 <= k < i ==> |windows.rows[k]| >= MIN_WINDOW_SIZE
      invariant forall k :: 0 <= k < i ==> rows[k] == FeatureRow(d, sampleRate, windows.rows[k])
      invariant forall k :: 0 <= k < i ==> |rows[k]| == NUM_FEATURES
    {
      var raw := windows.rows[i];
      if |raw| < MIN_WINDOW_SIZE {
        return Err(EmptyInput);
      }
      var tapered := d.taper(raw);
      var td: seq<real> := d.time(raw);
      var fd: seq<real> := d.frequency(tapered, sampleRate);
      var wd: seq<real> := d.wavelet(raw);
      FeatureRowLayout(d, sampleRate, raw);
      rows := rows + [td + fd + wd];
      i := i + 1;
    }
    return Ok(Matrix(2, NUM_FEATURES, rows));
  }
}
