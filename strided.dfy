/**
 * Fixed-length, stride-spaced slicing of a series: the arithmetic shared by
 * `window_signal` (signal_processing.py) and `create_sequences` (lstm.py).
 * Slice j starts at j * step and holds `size` consecutive items; a trailing
 * part too short for a whole slice is dropped, never padded.
 */
module Strided {

  /** `max(0, (n - size) // step + 1)`; Dafny's `/` floors for a positive divisor, as Python's `//` does. */
  function SliceCount(n: nat, size: nat, step: nat): nat
    requires step >= 1
  {
    var c := (n - size) / step + 1;
    if c < 0 then 0 else c
  }

  lemma MulMonotone(a: int, b: int, c: nat)
    requires a <= b
    ensures a * c <= b * c
  {
    assert (b - a) * c >= 0;
  }

  /**
   * The count is exactly the number of stride positions at which a whole slice
   * fits: slice m exists if and only if it ends inside the series.
   */
  lemma {:induction false} SliceFitsIff(n: nat, size: nat, step: nat, m: nat)
    requires step >= 1
    ensures m < SliceCount(n, size, step) <==> m * step + size <= n
  {
    var d := n - size;
    var q, r := d / step, d % step;
    assert d == q * step + r && 0 <= r < step;
    if m < SliceCount(n, size, step) {
      assert m <= q;
      MulMonotone(m, q, step);
    }
    if m * step + size <= n {
      if q + 1 <= m {
        MulMonotone(q + 1, m, step);
        assert false;
      }
    }
  }

  lemma AllSlicesFit(n: nat, size: nat, step: nat)
    requires step >= 1
    ensures forall j: nat :: j < SliceCount(n, size, step) ==> j * step + size <= n
  {
    forall j: nat | j < SliceCount(n, size, step)
      ensures j * step + size <= n
    {
      SliceFitsIff(n, size, step, j);
    }
  }

  /** Slice j of s: `s[j*step .. j*step+size)`, for every j below SliceCount. */
  function Slices<T>(s: seq<T>, size: nat, step: nat): (r: seq<seq<T>>)
    requires step >= 1
    ensures |r| == SliceCount(|s|, size, step)
    ensures forall j :: 0 <= j < |r| ==> |r[j]| == size
  {
    var count := SliceCount(|s|, size, step);
    AllSlicesFit(|s|, size, step);
    seq(count, j requires 0 <= j < count => s[j * step .. j * step + size])
  }

  /** Every item read lies inside s, and item k of slice j is item j*step + k of s. */
  lemma {:induction false} SliceElement<T>(s: seq<T>, size: nat, step: nat, j: nat, k: nat)
    requires step >= 1 && j < SliceCount(|s|, size, step) && k < size
    ensures j * step + k < |s|
    ensures |Slices(s, size, step)[j]| == size
    ensures Slices(s, size, step)[j][k] == s[j * step + k]
  {
    SliceFitsIff(|s|, size, step, j);
  }

  /** The slices up to k + 1 extend those up to k by slice k. */
  lemma {:induction false} SlicesPrefixStep<T>(s: seq<T>, size: nat, step: nat, k: nat)
    requires step >= 1 && k < SliceCount(|s|, size, step)
    ensures k * step + size <= |s|
    ensures Slices(s, size, step)[..k + 1] == Slices(s, size, step)[..k] + [s[k * step .. k * step + size]]
  {
    SliceFitsIff(|s|, size, step, k);
    var r := Slices(s, size, step);
    assert r[k] == s[k * step .. k * step + size];
    assert r[..k + 1] == r[..k] + [r[k]];
  }

  lemma NextStart(j: nat, step: nat, k: nat)
    ensures (j + 1) * step + k == j * step + (k + step)
  {
  }

  /** Consecutive slices overlap by size - step items. */
  lemma {:induction false} SlicesOverlap<T>(s: seq<T>, size: nat, step: nat, j: nat, k: nat)
    requires step >= 1 && j + 1 < SliceCount(|s|, size, step) && k + step < size
    ensures Slices(s, size, step)[j + 1][k] == Slices(s, size, step)[j][k + step]
  {
    var r := Slices(s, size, step);
    SliceElement(s, size, step, j + 1, k);
    SliceElement(s, size, step, j, k + step);
    NextStart(j, step, k);
  }

  /**
   * No slice is padded, and the partial tail is dropped: a slice starting at the
   * next stride position would run past the end.
   */
  lemma {:induction false} TailDropped<T>(s: seq<T>, size: nat, step: nat)
    requires step >= 1
    ensures forall j :: 0 <= j < |Slices(s, size, step)| ==> |Slices(s, size, step)[j]| == size
    ensures SliceCount(|s|, size, step) * step + size > |s|
  {
    var r := Slices(s, size, step);
    forall j | 0 <= j < |r|
      ensures |r[j]| == size
    {
      SliceFitsIff(|s|, size, step, j);
    }
    SliceFitsIff(|s|, size, step, |r|);
  }

  /** A series shorter than one slice yields none; otherwise it yields at least one. */
  lemma {:induction false} NoSliceIffTooShort(n: nat, size: nat, step: nat)
    requires step >= 1
    ensures SliceCount(n, size, step) == 0 <==> n < size
  {
    SliceFitsIff(n, size, step, 0);
  }
}
