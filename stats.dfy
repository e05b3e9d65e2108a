/**
 * The numpy reductions the core relies on, written out over exact reals:
 * sums, minimum and maximum, the default ('linear') percentile rule, min-max
 * rescaling with its near-constant guard, and score thresholding.
 */
module Stats {
  import opened Common

  function Sum(s: seq<real>): real
  {
    if s == [] then 0.0 else s[0] + Sum(s[1..])
  }

  function Square(x: real): real
  {
    x * x
  }

  /** A product of two non-negative numbers is non-negative. */
  lemma MulNonNegative(a: real, b: real)
    requires a >= 0.0 && b >= 0.0
    ensures a * b >= 0.0
  {
  }

  /** A non-negative number divided by a positive one is non-negative. */
  lemma DivNonNegative(x: real, d: real)
    requires x >= 0.0 && d > 0.0
    ensures x / d >= 0.0
  {
  }

  /** A square is never negative. */
  lemma SquareNonNegative(x: real)
    ensures x * x >= 0.0
  {
    if x < 0.0 {
      assert x * x == (-x) * (-x);
    }
  }

  /** The sum of squares, `np.sum(s ** 2)`. */
  function SumSquares(w: seq<real>): (e: real)
    ensures e >= 0.0
  {
    if w == [] then 0.0
    else
      SquareNonNegative(w[0]);
      w[0] * w[0] + SumSquares(w[1..])
  }

  /** The sum of squares of an all-zero array is zero. */
  lemma {:induction false} SumSquaresOfZeros(w: seq<real>)
    requires forall i :: 0 <= i < |w| ==> w[i] == 0.0
    ensures SumSquares(w) == 0.0
  {
    if w != [] {
      assert forall i :: 0 <= i < |w[1..]| ==> w[1..][i] == w[i + 1];
      SumSquaresOfZeros(w[1..]);
    }
  }

  /** A sum of n values between lo and hi lies between n * lo and n * hi. */
  lemma {:induction false} SumBetween(s: seq<real>, lo: real, hi: real)
    requires forall i :: 0 <= i < |s| ==> lo <= s[i] <= hi
    ensures |s| as real * lo <= Sum(s) <= |s| as real * hi
  {
    if s != [] {
      assert forall i :: 0 <= i < |s[1..]| ==> s[1..][i] == s[i + 1];
      SumBetween(s[1..], lo, hi);
      assert |s| as real * lo == lo + (|s| - 1) as real * lo;
      assert |s| as real * hi == hi + (|s| - 1) as real * hi;
    }
  }

  /** Dividing by a positive n keeps the bounds n * lo and n * hi as lo and hi. */
  lemma QuotientBetween(x: real, n: real, lo: real, hi: real)
    requires n > 0.0 && n * lo <= x <= n * hi
    ensures lo <= x / n <= hi
  {
    QuotientMonotone(n * lo, x, n);
    QuotientMonotone(x, n * hi, n);
    assert n * lo / n == lo;
    assert n * hi / n == hi;
  }

  /** Arithmetic mean (`np.mean`) of a non-empty array: it lies between the smallest and largest value. */
  function Mean(s: seq<real>): (m: real)
    requires |s| > 0
    ensures MinOf(s) <= m <= MaxOf(s)
  {
    SumBetween(s, MinOf(s), MaxOf(s));
    QuotientBetween(Sum(s), |s| as real, MinOf(s), MaxOf(s));
    Sum(s) / |s| as real
  }

  /** `s.min()`: an element of s that no element is below. */
  function MinOf(s: seq<real>): (m: real)
    requires |s| > 0
    ensures exists i :: 0 <= i < |s| && s[i] == m
    ensures forall i :: 0 <= i < |s| ==> m <= s[i]
  {
    if |s| == 1 then s[0]
    else
      var t := MinOf(s[1..]);
      if s[0] <= t then s[0] else t
  }

  /** `s.max()`: an element of s that no element is above. */
  function MaxOf(s: seq<real>): (m: real)
    requires |s| > 0
    ensures exists i :: 0 <= i < |s| && s[i] == m
    ensures forall i :: 0 <= i < |s| ==> s[i] <= m
  {
    if |s| == 1 then s[0]
    else
      var t := MaxOf(s[1..]);
      if s[0] >= t then s[0] else t
  }

  predicate Sorted(s: seq<real>)
  {
    forall i, j :: 0 <= i < j < |s| ==> s[i] <= s[j]
  }

  function Insert(x: real, s: seq<real>): (r: seq<real>)
    requires Sorted(s)
    ensures Sorted(r)
    ensures |r| == |s| + 1
    ensures multiset(r) == multiset(s) + multiset{x}
  {
    if s == [] then [x]
    else if x <= s[0] then [x] + s
    else
      var t := Insert(x, s[1..]);
      InsertBehindHead(x, s, t);
      [s[0]] + t
  }

  /** Inserting behind a smaller head keeps the order and the elements. */
  lemma InsertBehindHead(x: real, s: seq<real>, t: seq<real>)
    requires |s| > 0 && Sorted(s) && s[0] < x
    requires Sorted(t) && multiset(t) == multiset(s[1..]) + multiset{x}
    ensures Sorted([s[0]] + t)
    ensures multiset([s[0]] + t) == multiset(s) + multiset{x}
  {
    assert s == [s[0]] + s[1..];
    forall j | 0 <= j < |t|
      ensures s[0] <= t[j]
    {
      assert t[j] in multiset(t);
      if t[j] != x {
        assert t[j] in multiset(s[1..]);
        assert t[j] in s[1..];
      }
    }
  }

  /** An ascending copy of s (the sort inside `np.percentile`). */
  function SortAscending(s: seq<real>): (r: seq<real>)
    ensures Sorted(r)
    ensures |r| == |s|
    ensures multiset(r) == multiset(s)
  {
    if s == [] then []
    else
      assert s == [s[0]] + s[1..];
      Insert(s[0], SortAscending(s[1..]))
  }

  /** The fractional rank (n - 1) * q / 100 of numpy's 'linear' rule. */
  function Rank(n: nat, q: real): (h: real)
    requires n > 0 && 0.0 <= q <= 100.0
    ensures 0.0 <= h <= (n - 1) as real
  {
    var m := (n - 1) as real;
    MulNonNegative(m, q);
    MulNonNegative(m, 100.0 - q);
    assert m * (100.0 - q) == m * 100.0 - m * q;
    m * q / 100.0
  }

  /** Linear interpolation `a + t * (b - a)` stays between a and b. */
  lemma LerpBetween(a: real, b: real, t: real)
    requires a <= b && 0.0 <= t <= 1.0
    ensures a <= a + t * (b - a) <= b
  {
    MulNonNegative(t, b - a);
    MulNonNegative(1.0 - t, b - a);
    assert (1.0 - t) * (b - a) == (b - a) - t * (b - a);
  }

  /**
   * `np.percentile(s, q)` with numpy's default 'linear' rule: sort s, take the
   * fractional rank h = (n - 1) * q / 100 and interpolate between the two
   * neighbouring order statistics. q outside [0, 100] and an empty s raise.
   */
  function Percentile(s: seq<real>, q: real): (r: Result<real>)
    ensures r.Ok? <==> |s| > 0 && 0.0 <= q <= 100.0
    ensures r.Err? ==> r.error == (if 0.0 <= q <= 100.0 then EmptyInput else BadPercentile)
  {
    if !(0.0 <= q <= 100.0) then Err(BadPercentile)
    else if |s| == 0 then Err(EmptyInput)
    else
      Ok(Interpolate(SortAscending(s), Rank(|s|, q)))
  }

  /**
   * The value at fractional rank h of an ascending sequence: the order statistic
   * at floor(h), moved toward the next one by the fractional part of h.
   */
  function Interpolate(v: seq<real>, h: real): (r: real)
    requires Sorted(v) && 0.0 <= h <= (|v| - 1) as real
    ensures v[0] <= r <= v[|v| - 1]
  {
    var lo := h.Floor;
    var hi := if lo + 1 < |v| then lo + 1 else |v| - 1;
    LerpBetween(v[lo], v[hi], h - lo as real);
    v[lo] + (h - lo as real) * (v[hi] - v[lo])
  }

  /** Each order statistic of s is one of its elements. */
  lemma {:induction false} SortedMember(s: seq<real>, k: int) returns (i: int)
    requires 0 <= k < |s|
    ensures 0 <= i < |s| && s[i] == SortAscending(s)[k]
  {
    var v := SortAscending(s);
    assert v[k] in multiset(v);
    assert v[k] in multiset(s);
    assert v[k] in s;
    i :| 0 <= i < |s| && s[i] == v[k];
  }

  /** A percentile always lies between the smallest and the largest value. */
  lemma {:induction false} PercentileBetweenMinAndMax(s: seq<real>, q: real)
    requires Percentile(s, q).Ok?
    ensures MinOf(s) <= Percentile(s, q).value <= MaxOf(s)
  {
    var v := SortAscending(s);
    var r := Interpolate(v, Rank(|s|, q));
    assert Percentile(s, q).value == r;
    var first := SortedMember(s, 0);
    var last := SortedMember(s, |s| - 1);
    assert MinOf(s) <= s[first] == v[0] <= r;
    assert r <= v[|v| - 1] == s[last] <= MaxOf(s);
  }

  /** Below this spread, min-max rescaling returns all zeros (numpy code: 1e-10). */
  const SCALE_EPSILON: real := 0.0000000001

  /**
   * Min-max rescaling of a score array, as both `_normalize_scores` helpers do it:
   * `(s - min) / (max - min)`, or all zeros when the spread is below 1e-10.
   * `min()` of an empty array raises, so an empty array gives None.
   */
  function MinMaxScale(s: seq<real>): (r: Option<seq<real>>)
    ensures r.Some? <==> |s| > 0
    ensures r.Some? ==> |r.value| == |s|
  {
    if |s| == 0 then None
    else
      var lo := MinOf(s);
      var hi := MaxOf(s);
      if hi - lo < SCALE_EPSILON then Some(seq(|s|, _ => 0.0))
      else Some(seq(|s|, i requires 0 <= i < |s| => (s[i] - lo) / (hi - lo)))
  }

  lemma QuotientInUnit(x: real, d: real)
    requires d > 0.0 && 0.0 <= x <= d
    ensures 0.0 <= x / d <= 1.0
  {
    assert x / d * d == x;
  }

  lemma QuotientMonotone(x: real, y: real, d: real)
    requires d > 0.0 && x <= y
    ensures x / d <= y / d
  {
    assert (y - x) / d >= 0.0;
    assert y / d - x / d == (y - x) / d;
  }

  lemma QuotientEndpoints(x: real, lo: real, hi: real)
    requires hi > lo
    ensures x == lo ==> (x - lo) / (hi - lo) == 0.0
    ensures x == hi ==> (x - lo) / (hi - lo) == 1.0
  {
  }

  /** Every rescaled score lies in [0, 1]. */
  lemma {:induction false} MinMaxScaleInUnitInterval(s: seq<real>, i: int)
    requires 0 <= i < |s|
    ensures 0.0 <= MinMaxScale(s).value[i] <= 1.0
  {
    var lo, hi := MinOf(s), MaxOf(s);
    if hi - lo >= SCALE_EPSILON {
      QuotientInUnit(s[i] - lo, hi - lo);
    }
  }

  /** Rescaling keeps the order of the scores. */
  lemma {:induction false} MinMaxScaleMonotone(s: seq<real>, i: int, j: int)
    requires 0 <= i < |s| && 0 <= j < |s|
    requires s[i] <= s[j]
    ensures MinMaxScale(s).value[i] <= MinMaxScale(s).value[j]
  {
    var lo, hi := MinOf(s), MaxOf(s);
    if hi - lo >= SCALE_EPSILON {
      QuotientMonotone(s[i] - lo, s[j] - lo, hi - lo);
    }
  }

  /** A spread below 1e-10 gives all zeros. */
  lemma {:induction false} MinMaxScaleFlat(s: seq<real>)
    requires |s| > 0 && MaxOf(s) - MinOf(s) < SCALE_EPSILON
    ensures forall i :: 0 <= i < |s| ==> MinMaxScale(s).value[i] == 0.0
  {
  }

  /** Otherwise the smallest score maps to 0 and the largest to 1. */
  lemma {:induction false} MinMaxScaleExtremes(s: seq<real>, i: int)
    requires 0 <= i < |s| && MaxOf(s) - MinOf(s) >= SCALE_EPSILON
    ensures s[i] == MinOf(s) ==> MinMaxScale(s).value[i] == 0.0
    ensures s[i] == MaxOf(s) ==> MinMaxScale(s).value[i] == 1.0
  {
    var lo, hi := MinOf(s), MaxOf(s);
    var r := MinMaxScale(s).value;
    assert r == seq(|s|, k requires 0 <= k < |s| => (s[k] - lo) / (hi - lo));
    assert r[i] == (s[i] - lo) / (hi - lo);
    QuotientEndpoints(s[i], lo, hi);
  }

  /**
   * `(scores > t).astype(int)`: one label per score, 1 for a score strictly
   * above t and 0 otherwise.
   */
  function AboveThreshold(scores: seq<real>, t: real): (labels: seq<int>)
    ensures |labels| == |scores|
    ensures forall i :: 0 <= i < |scores| ==> (labels[i] == 1 <==> scores[i] > t)
    ensures forall i :: 0 <= i < |scores| ==> (labels[i] == 0 <==> scores[i] <= t)
  {
    seq(|scores|, i requires 0 <= i < |scores| => Bit(scores[i] > t))
  }

  /** Number of 1-labels. */
  function CountOnes(labels: seq<int>): (c: nat)
    ensures c <= |labels|
  {
    if labels == [] then 0 else (if labels[0] == 1 then 1 else 0) + CountOnes(labels[1..])
  }
}
