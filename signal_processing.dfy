/**
 * backend/app/preprocessing/signal_processing.py: input validation of a raw
 * vibration signal and its cutting into fixed-length, hop-spaced windows.
 */
module SignalProcessing {
  import opened Common
  import Strided

  const SAMPLE_RATE: nat := 20000
  const DEFAULT_WINDOW_SIZE: nat := 1024
  const DEFAULT_HOP_SIZE: nat := 512

  /** The raw input of `window_signal`: an array of float64 samples and its rank. */
  datatype Signal = Signal(ndim: nat, samples: seq<Sample>)

  /** What `_validate_signal` leaves at one position: a non-finite sample becomes 0.0. */
  function Cleaned(x: Sample): Sample
  {
    if x.Finite? then x else Finite(0.0)
  }

  /**
   * `_validate_signal`: a non-1-D or empty array is rejected (rank checked
   * first); otherwise the samples with every NaN or infinity replaced by 0.0.
   */
  function Validated(sig: Signal): Result<seq<Sample>>
  {
    if sig.ndim != 1 then Err(NotOneDimensional)
    else if |sig.samples| == 0 then Err(EmptySignal)
    else Ok(seq(|sig.samples|, i requires 0 <= i < |sig.samples| => Cleaned(sig.samples[i])))
  }

  /**
   * `_validate_signal` as the code runs it: copy the samples into a fresh
   * buffer, then overwrite each non-finite entry with 0.0.
   */
  method ValidateSignal(sig: Signal) returns (r: Result<seq<Sample>>)
    ensures r == Validated(sig)
  {
    if sig.ndim != 1 {
      return Err(NotOneDimensional);
    }
    if |sig.samples| == 0 {
      return Err(EmptySignal);
    }
    var n := |sig.samples|;
    var a := new Sample[n](i requires 0 <= i < n => sig.samples[i]);
    var i := 0;
    while i < n
      invariant 0 <= i <= n
      invariant forall k :: 0 <= k < i ==> a[k] == Cleaned(sig.samples[k])
      invariant forall k :: i <= k < n ==> a[k] == sig.samples[k]
    {
      if !a[i].Finite? {
        a[i] := Finite(0.0);
      }
      i := i + 1;
    }
    assert a[..] == Validated(sig).value;
    return Ok(a[..]);
  }

  /**
   * Validation keeps the length and every finite sample, and leaves only finite
   * samples behind: a non-finite one is read back as 0.0.
   */
  lemma {:induction false} ValidatedIsFiniteCopy(sig: Signal)
    requires Validated(sig).Ok?
    ensures |Validated(sig).value| == |sig.samples|
    ensures forall i :: 0 <= i < |sig.samples| ==> Validated(sig).value[i].Finite?
    ensures forall i :: 0 <= i < |sig.samples| && sig.samples[i].Finite? ==>
              Validated(sig).value[i] == sig.samples[i]
    ensures forall i :: 0 <= i < |sig.samples| && !sig.samples[i].Finite? ==>
              Validated(sig).value[i] == Finite(0.0)
  {
  }

  /**
   * `window_signal`: validate the signal, then reject window_size < 1 or
   * hop_size < 1, then return the `(n_windows, window_size)` array of windows,
   * window j being samples [j * hop_size, j * hop_size + window_size).
   */
  function WindowSignal(sig: Signal, windowSize: int, hopSize: int): Result<Matrix<Sample>>
  {
    match Validated(sig)
    case Err(e) => Err(e)
    case Ok(x) =>
      if windowSize < 1 || hopSize < 1 then Err(BadWindowParams)
      else Ok(Matrix(2, windowSize, Strided.Slices(x, windowSize, hopSize)))
  }

  /**
   * The error cases, in the order the code checks them: rank, emptiness, then
   * the window parameters. A bad signal is reported whatever the parameters.
   */
  lemma {:induction false} WindowSignalErrors(sig: Signal, windowSize: int, hopSize: int)
    ensures sig.ndim != 1 ==> WindowSignal(sig, windowSize, hopSize) == Err(NotOneDimensional)
    ensures sig.ndim == 1 && |sig.samples| == 0 ==> WindowSignal(sig, windowSize, hopSize) == Err(EmptySignal)
    ensures sig.ndim == 1 && |sig.samples| > 0 && (windowSize < 1 || hopSize < 1) ==>
              WindowSignal(sig, windowSize, hopSize) == Err(BadWindowParams)
    ensures WindowSignal(sig, windowSize, hopSize).Ok? <==>
              sig.ndim == 1 && |sig.samples| > 0 && windowSize >= 1 && hopSize >= 1
  {
  }

  /**
   * Shape: `max(0, (len - window_size) // hop_size + 1)` rows of exactly
   * window_size samples each, and window m exists exactly when it ends inside
   * the signal.
   */
  lemma {:induction false} WindowSignalShape(sig: Signal, windowSize: int, hopSize: int, m: nat)
    requires WindowSignal(sig, windowSize, hopSize).Ok?
    ensures var w := WindowSignal(sig, windowSize, hopSize).value;
      && w.ndim == 2 && w.cols == windowSize && Rectangular(w)
      && |w.rows| == (if (|sig.samples| - windowSize) / hopSize + 1 < 0 then 0
                      else (|sig.samples| - windowSize) / hopSize + 1)
      && (m < |w.rows| <==> m * hopSize + windowSize <= |sig.samples|)
  {
    Strided.SliceFitsIff(|sig.samples|, windowSize, hopSize, m);
  }

  /**
   * Contents: sample k of window j is the validated sample j * hop_size + k,
   * which lies inside the signal; so every window value is finite.
   */
  lemma {:induction false} WindowSignalContents(sig: Signal, windowSize: int, hopSize: int, j: nat, k: nat)
    requires WindowSignal(sig, windowSize, hopSize).Ok?
    requires j < |WindowSignal(sig, windowSize, hopSize).value.rows| && k < windowSize
    ensures j * hopSize + k < |sig.samples|
    ensures WindowSignal(sig, windowSize, hopSize).value.rows[j][k] == Cleaned(sig.samples[j * hopSize + k])
    ensures WindowSignal(sig, windowSize, hopSize).value.rows[j][k].Finite?
  {
    var x := Validated(sig).value;
    Strided.SliceElement(x, windowSize, hopSize, j, k);
  }

  /**
   * Nothing is padded: a signal shorter than one window gives no window, and a
   * window at the next hop position after the last one would not fit.
   */
  lemma {:induction false} WindowSignalDropsTail(sig: Signal, windowSize: int, hopSize: int)
    requires WindowSignal(sig, windowSize, hopSize).Ok?
    ensures var rows := WindowSignal(sig, windowSize, hopSize).value.rows;
      && (|rows| == 0 <==> |sig.samples| < windowSize)
      && |rows| * hopSize + windowSize > |sig.samples|
  {
    var x := Validated(sig).value;
    Strided.NoSliceIffTooShort(|x|, windowSize, hopSize);
    Strided.TailDropped(x, windowSize, hopSize);
  }

  /** Successive windows overlap by window_size - hop_size samples. */
  lemma {:induction false} WindowSignalOverlap(sig: Signal, windowSize: int, hopSize: int, j: nat, k: nat)
    requires WindowSignal(sig, windowSize, hopSize).Ok?
    requires j + 1 < |WindowSignal(sig, windowSize, hopSize).value.rows| && k + hopSize < windowSize
    ensures var rows := WindowSignal(sig, windowSize, hopSize).value.rows;
      rows[j + 1][k] == rows[j][k + hopSize]
  {
    Strided.SlicesOverlap(Validated(sig).value, windowSize, hopSize, j, k);
  }
}
