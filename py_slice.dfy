/**
 * Python's integer-index semantics as used by the frame code: how a slice
 * `s[lo:hi]` (step 1) normalises its bounds, what `s[::-1]` is, and what
 * `int(n / d)` gives for an integer numerator and divisor.
 */
module PySlice {

  /**
   * Normalises one slice bound against a length `n`: a negative bound has
   * `n` added to it, then the bound is clamped to `[0, n]`.
   */
  function Norm(i: int, n: nat): (r: nat)
    ensures r <= n
    ensures 0 <= i <= n ==> r == i
  {
    if i < 0 then (if i + n < 0 then 0 else i + n)
    else if i > n then n
    else i
  }

  /** The number of elements `s[lo:hi]` takes from its first index `Norm(lo, n)` (none when the stop precedes the start). */
  function SliceLen(lo: int, hi: int, n: nat): (r: nat)
    ensures Norm(lo, n) + r <= n
  {
    if Norm(hi, n) <= Norm(lo, n) then 0 else Norm(hi, n) - Norm(lo, n)
  }

  /** Index `k` of a length-`n` sequence is one of those `s[lo:hi]` selects (or assigns to). */
  predicate InSlice(k: int, lo: int, hi: int, n: nat)
  {
    Norm(lo, n) <= k < Norm(lo, n) + SliceLen(lo, hi, n)
  }

  /** `s[::-1]`. */
  function Reversed<T>(s: seq<T>): (r: seq<T>)
    ensures |r| == |s|
    ensures forall k :: 0 <= k < |s| ==> r[k] == s[|s| - 1 - k]
  {
    seq(|s|, k requires 0 <= k < |s| => s[|s| - 1 - k])
  }

  /**
   * `int(n / d)` for a non-negative integer `n`: true division followed by
   * truncation toward zero (Dafny's `/` on a negative divisor is Euclidean,
   * so that case is written out).
   */
  function IntOfDiv(n: nat, d: int): (r: int)
    requires d != 0
    ensures d > 0 ==> 0 <= r * d <= n < (r + 1) * d
    ensures d < 0 ==> 0 <= r * d <= n < (r - 1) * d
  {
    if d > 0 then n / d else -(n / -d)
  }

  /**
   * However the bounds wrap or clamp, a slice `lo:hi` with `lo <= hi` never
   * takes more than `hi - lo` elements.
   */
  lemma SliceLenAtMost(lo: int, hi: int, n: nat)
    requires lo <= hi
    ensures SliceLen(lo, hi, n) <= hi - lo
  {
  }

  /**
   * A negative stop wraps around: `s[0:-d]` with `0 < d <= n` keeps all
   * but the last `d` elements rather than none.
   */
  lemma NegativeStopWraps(d: int, n: nat)
    requires 0 < d <= n
    ensures Norm(0, n) == 0 && SliceLen(0, -d, n) == n - d
  {
  }

  /** Reversing twice gives back the sequence. */
  lemma ReversedTwice<T>(s: seq<T>)
    ensures Reversed(Reversed(s)) == s
  {
  }
}
