/**
 * Shared vocabulary of the anomaly-detection model: the error results that stand
 * for the exceptions the Python code raises, float64 samples that may be
 * non-finite, and numpy arrays seen through their rank and rows.
 */
module Common {

  /** The exceptions raised by the core, one constructor per distinct failure. */
  datatype Error =
    | NotOneDimensional      // window_signal: input is not a 1-D array
    | EmptySignal            // window_signal: input has no samples
    | BadWindowParams        // window_signal: window_size < 1 or hop_size < 1
    | NotTwoDimensional      // FeatureExtractor.extract / InferenceService.predict
    | ThresholdNotSet        // detector predict before compute_threshold
    | NotTrained             // isolation forest used before train_model
    | EmptyInput             // a reduction (min, max, percentile) over no values
    | BadPercentile          // np.percentile with q outside [0, 100]
    | ShapeMismatch          // arrays whose lengths do not line up
    | WeightsNotNormalized   // ensemble weights whose sum is not close to 1
    | SequencesRequired      // ensemble has an LSTM but no sequences were given
    | ModelsNotLoaded        // inference service used before loading
    | DirectoryNotFound      // inference service: models directory missing
    | NoWindowedData         // training pipeline: no source produced a window
    | InvalidParameter       // scikit-learn: an estimator parameter outside its allowed range

  datatype Result<T> = Ok(value: T) | Err(error: Error) {
    predicate IsFailure() { Err? }
    function PropagateFailure<U>(): Result<U>
      requires Err?
    {
      Err(error)
    }
    function Extract(): T
      requires Ok?
    {
      value
    }
  }

  datatype Option<T> = None | Some(value: T)

  /** One float64 sample: a finite value, or one of the non-finite ones. */
  datatype Sample = Finite(value: real) | NaN | PosInf | NegInf

  /**
   * A numpy array handed to code that expects a matrix: its rank, and when the
   * rank is 2 its column count and its rows (for another rank the rows are
   * meaningless, and the code under study rejects the array).
   */
  datatype Matrix<T> = Matrix(ndim: nat, cols: nat, rows: seq<seq<T>>)

  /** Every row of a rank-2 array has the declared number of columns. */
  predicate Rectangular<T>(m: Matrix<T>)
  {
    forall i :: 0 <= i < |m.rows| ==> |m.rows[i]| == m.cols
  }

  /** What a detector's `predict` returns: one score and one 0/1 label per input. */
  datatype Scored = Scored(scores: seq<real>, labels: seq<int>)

  /** A 0/1 label: 1 exactly when the condition holds (numpy `bool.astype(int)`). */
  function Bit(b: bool): int
  {
    if b then 1 else 0
  }

  /**
   * `np.isclose(x, 1.0)` with its default tolerances: |x - 1| <= atol + rtol * |1|,
   * with atol = 1e-8 and rtol = 1e-5.
   */
  predicate IsCloseToOne(x: real)
  {
    -0.00001001 <= x - 1.0 <= 0.00001001
  }

  /** Python's `int(x)` on a float: truncation toward zero. */
  function Trunc(x: real): (r: int)
    ensures 0.0 <= x ==> r as real <= x < r as real + 1.0
    ensures x < 0.0 ==> r as real - 1.0 < x <= r as real
  {
    if x >= 0.0 then x.Floor else -((-x).Floor)
  }

  /**
   * Where a Python slice bound `k` lands in a sequence of length n:
   * a negative bound counts from the end, and both kinds are clamped.
   */
  function PyStop(n: nat, k: int): (r: nat)
    ensures r <= n
    ensures 0 <= k <= n ==> r == k
    ensures -(n as int) <= k < 0 ==> r == n + k
    ensures k > n ==> r == n
    ensures k < -(n as int) ==> r == 0
  {
    if k < 0 then (if n + k < 0 then 0 else n + k) else (if k < n then k else n)
  }
}
