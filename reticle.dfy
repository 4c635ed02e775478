/**
 * The reticle painter, `draw_reticle`: clamps the requested centre into the
 * frame and burns a white cross into the frame buffer in place, leaving a gap
 * of `offset` pixels around the centre. The painted ranges are numpy slice
 * assignments, so their bounds follow Python's slice rules (a negative bound
 * counts from the end of the axis). Both revisions of the program carry this
 * routine unchanged.
 */
module Reticle {
  import opened Wrappers
  import opened PySlice

  /** The value written into every painted pixel (and every channel of it). */
  const White := 255

  /** The arm length and centre gap `draw_reticle` uses unless told otherwise. */
  const DefaultLength := 100
  const DefaultOffset := 5

  /** `X = 0 if X < 0 else (n - 1 if X >= n else X)`: the requested coordinate pulled onto the axis. */
  function ClampIndex(v: int, n: int): (r: int)
    ensures n >= 1 ==> 0 <= r < n
    ensures 0 <= v < n ==> r == v
  {
    if v < 0 then 0 else if v >= n then n - 1 else v
  }

  function Dist(a: int, b: int): nat
  {
    if a <= b then b - a else a - b
  }

  /** On a non-empty axis the clamped coordinate is the in-bounds index nearest to the requested one. */
  lemma ClampNearest(v: int, n: int, k: int)
    requires 0 <= k < n
    ensures Dist(v, ClampIndex(v, n)) <= Dist(v, k)
  {
  }

  /**
   * Pixel `(i, j)` of an `A` x `B` colour frame is painted by the four slice
   * assignments `[0:Y-offset, X]`, `[Y+offset:A, X]`, `[Y, 0:X-offset]`,
   * `[Y, X+offset:B]`.
   */
  predicate OnColorCross(A: nat, B: nat, X: int, Y: int, offset: int, i: int, j: int)
  {
    (j == X && (InSlice(i, 0, Y - offset, A) || InSlice(i, Y + offset, A, A)))
    || (i == Y && (InSlice(j, 0, X - offset, B) || InSlice(j, X + offset, B, B)))
  }

  /**
   * Pixel `(i, j)` of an `A` x `B` grayscale frame is painted by the four slice
   * assignments `[Y-offset-length:Y-offset, X]`, `[Y+offset:Y+offset+length, X]`,
   * `[Y, X-offset-length:X-offset]`, `[Y, X+offset:X+offset+length]`.
   */
  predicate OnGrayCross(A: nat, B: nat, X: int, Y: int, length: int, offset: int, i: int, j: int)
  {
    (j == X && (InSlice(i, Y - offset - length, Y - offset, A) || InSlice(i, Y + offset, Y + offset + length, A)))
    || (i == Y && (InSlice(j, X - offset - length, X - offset, B) || InSlice(j, X + offset, X + offset + length, B)))
  }

  /** `frame[lo:hi, X, :] = 255` with `lo:hi` already normalised: the run of rows `[lo, hi)` in column `X`. */
  method PaintColumn3(frame: array3<int>, lo: int, hi: int, X: int)
    requires 0 <= lo && hi <= frame.Length0 && 0 <= X < frame.Length1
    modifies frame
    ensures forall i, j, c :: 0 <= i < frame.Length0 && 0 <= j < frame.Length1 && 0 <= c < frame.Length2 ==>
      frame[i, j, c] == if j == X && lo <= i < hi then White else old(frame[i, j, c])
  {
    forall i, c | lo <= i < hi && 0 <= c < frame.Length2 {
      frame[i, X, c] := White;
    }
  }

  /** `frame[Y, lo:hi, :] = 255` with `lo:hi` already normalised: the run of columns `[lo, hi)` in row `Y`. */
  method PaintRow3(frame: array3<int>, Y: int, lo: int, hi: int)
    requires 0 <= Y < frame.Length0 && 0 <= lo && hi <= frame.Length1
    modifies frame
    ensures forall i, j, c :: 0 <= i < frame.Length0 && 0 <= j < frame.Length1 && 0 <= c < frame.Length2 ==>
      frame[i, j, c] == if i == Y && lo <= j < hi then White else old(frame[i, j, c])
  {
    forall j, c | lo <= j < hi && 0 <= c < frame.Length2 {
      frame[Y, j, c] := White;
    }
  }

  /** `frame[lo:hi, X] = 255` with `lo:hi` already normalised. */
  method PaintColumn2(frame: array2<int>, lo: int, hi: int, X: int)
    requires 0 <= lo && hi <= frame.Length0 && 0 <= X < frame.Length1
    modifies frame
    ensures forall i, j :: 0 <= i < frame.Length0 && 0 <= j < frame.Length1 ==>
      frame[i, j] == if j == X && lo <= i < hi then White else old(frame[i, j])
  {
    forall i | lo <= i < hi {
      frame[i, X] := White;
    }
  }

  /** `frame[Y, lo:hi] = 255` with `lo:hi` already normalised. */
  method PaintRow2(frame: array2<int>, Y: int, lo: int, hi: int)
    requires 0 <= Y < frame.Length0 && 0 <= lo && hi <= frame.Length1
    modifies frame
    ensures forall i, j :: 0 <= i < frame.Length0 && 0 <= j < frame.Length1 ==>
      frame[i, j] == if i == Y && lo <= j < hi then White else old(frame[i, j])
  {
    forall j | lo <= j < hi {
      frame[Y, j] := White;
    }
  }

  /** The four slice assignments of the colour case, around an in-bounds centre `(Y, X)`. */
  method PaintColorCross(frame: array3<int>, X: int, Y: int, offset: int)
    requires 0 <= X < frame.Length1 && 0 <= Y < frame.Length0
    modifies frame
    ensures forall i, j, c :: 0 <= i < frame.Length0 && 0 <= j < frame.Length1 && 0 <= c < frame.Length2 ==>
      frame[i, j, c] == if OnColorCross(frame.Length0, frame.Length1, X, Y, offset, i, j) then White else old(frame[i, j, c])
  {
    var A, B := frame.Length0, frame.Length1;
    var up0, up1 := Norm(0, A), Norm(0, A) + SliceLen(0, Y - offset, A);
    var down0, down1 := Norm(Y + offset, A), Norm(Y + offset, A) + SliceLen(Y + offset, A, A);
    var left0, left1 := Norm(0, B), Norm(0, B) + SliceLen(0, X - offset, B);
    var right0, right1 := Norm(X + offset, B), Norm(X + offset, B) + SliceLen(X + offset, B, B);
    PaintColumn3(frame, up0, up1, X);
    PaintColumn3(frame, down0, down1, X);
    PaintRow3(frame, Y, left0, left1);
    PaintRow3(frame, Y, right0, right1);
  }

  /**
   * `draw_reticle` on an `A` x `B` x `C` frame. With either coordinate
   * missing nothing happens; on a frame with no rows or no columns numpy
   * raises `IndexError` (reported as `raised`) before any pixel could
   * change; otherwise every channel of every pixel on the colour cross around
   * the clamped centre becomes white and every other value is kept. The arm
   * `length` plays no part for a colour frame: its arms reach the edges.
   */
  method DrawReticleColor(frame: array3<int>, x: Option<int>, y: Option<int>, length: int := DefaultLength, offset: int := DefaultOffset)
    returns (raised: bool)
    modifies frame
    ensures raised <==> x.Some? && y.Some? && (frame.Length0 == 0 || frame.Length1 == 0)
    ensures forall i, j, c :: 0 <= i < frame.Length0 && 0 <= j < frame.Length1 && 0 <= c < frame.Length2 ==>
      frame[i, j, c] ==
        if x.Some? && y.Some?
           && OnColorCross(frame.Length0, frame.Length1, ClampIndex(x.value, frame.Length1),
                           ClampIndex(y.value, frame.Length0), offset, i, j)
        then White else old(frame[i, j, c])
  {
    if x.None? || y.None? {
      return false;
    }
    var A, B := frame.Length0, frame.Length1;
    var X, Y := ClampIndex(x.value, B), ClampIndex(y.value, A);
    if A == 0 || B == 0 {
      return true;
    }
    PaintColorCross(frame, X, Y, offset);
    raised := false;
  }

  /** The four slice assignments of the grayscale case, around an in-bounds centre `(Y, X)`. */
  method PaintGrayCross(frame: array2<int>, X: int, Y: int, length: int, offset: int)
    requires 0 <= X < frame.Length1 && 0 <= Y < frame.Length0
    modifies frame
    ensures forall i, j :: 0 <= i < frame.Length0 && 0 <= j < frame.Length1 ==>
      frame[i, j] == if OnGrayCross(frame.Length0, frame.Length1, X, Y, length, offset, i, j) then White else old(frame[i, j])
  {
    var A, B := frame.Length0, frame.Length1;
    var up0, up1 := Norm(Y - offset - length, A), Norm(Y - offset - length, A) + SliceLen(Y - offset - length, Y - offset, A);
    var down0, down1 := Norm(Y + offset, A), Norm(Y + offset, A) + SliceLen(Y + offset, Y + offset + length, A);
    var left0, left1 := Norm(X - offset - length, B), Norm(X - offset - length, B) + SliceLen(X - offset - length, X - offset, B);
    var right0, right1 := Norm(X + offset, B), Norm(X + offset, B) + SliceLen(X + offset, X + offset + length, B);
    PaintColumn2(frame, up0, up1, X);
    label Up:
    PaintColumn2(frame, down0, down1, X);
    label Down:
    PaintRow2(frame, Y, left0, left1);
    label Left:
    PaintRow2(frame, Y, right0, right1);
    forall i, j | 0 <= i < A && 0 <= j < B
      ensures frame[i, j] == if OnGrayCross(A, B, X, Y, length, offset, i, j) then White else old(frame[i, j])
    {
      assert OnGrayCross(A, B, X, Y, length, offset, i, j) <==>
        (j == X && (up0 <= i < up1 || down0 <= i < down1)) || (i == Y && (left0 <= j < left1 || right0 <= j < right1));
      assert old@Up(frame[i, j]) == if j == X && up0 <= i < up1 then White else old(frame[i, j]);
      assert old@Down(frame[i, j]) == if j == X && down0 <= i < down1 then White else old@Up(frame[i, j]);
      assert old@Left(frame[i, j]) == if i == Y && left0 <= j < left1 then White else old@Down(frame[i, j]);
    }
  }

  /**
   * `draw_reticle` on an `A` x `B` grayscale frame: as for colour frames, but
   * each arm is the slice of the `length` positions beside the gap, so it
   * covers at most `length` pixels; near the top or left edge the arm before
   * the gap vanishes or wraps to the far end of the axis
   * (`GrayArmVanishesNearEdge`, `GrayArmWrapsNearEdge`).
   */
  method DrawReticleGray(frame: array2<int>, x: Option<int>, y: Option<int>, length: int := DefaultLength, offset: int := DefaultOffset)
    returns (raised: bool)
    modifies frame
    ensures raised <==> x.Some? && y.Some? && (frame.Length0 == 0 || frame.Length1 == 0)
    ensures forall i, j :: 0 <= i < frame.Length0 && 0 <= j < frame.Length1 ==>
      frame[i, j] ==
        if x.Some? && y.Some?
           && OnGrayCross(frame.Length0, frame.Length1, ClampIndex(x.value, frame.Length1),
                          ClampIndex(y.value, frame.Length0), length, offset, i, j)
        then White else old(frame[i, j])
  {
    if x.None? || y.None? {
      return false;
    }
    var A, B := frame.Length0, frame.Length1;
    var X, Y := ClampIndex(x.value, B), ClampIndex(y.value, A);
    if A == 0 || B == 0 {
      return true;
    }
    PaintGrayCross(frame, X, Y, length, offset);
    raised := false;
  }

  /** Only pixels in row `Y` or column `X` are ever painted, on either kind of frame. */
  lemma PaintedOnlyOnCross(A: nat, B: nat, X: int, Y: int, length: int, offset: int, i: int, j: int)
    ensures OnColorCross(A, B, X, Y, offset, i, j) ==> i == Y || j == X
    ensures OnGrayCross(A, B, X, Y, length, offset, i, j) ==> i == Y || j == X
  {
  }

  /**
   * When the gap fits above and left of the centre (`offset <= Y`,
   * `offset <= X`), a colour frame's column `X` is white exactly on rows
   * `[0, Y-offset)` and `[Y+offset, A)` and row `Y` exactly on columns
   * `[0, X-offset)` and `[X+offset, B)`; with a positive gap the centre is
   * left alone.
   */
  lemma ColorArms(A: nat, B: nat, X: int, Y: int, offset: int, i: int, j: int)
    requires 0 <= offset <= Y < A && offset <= X < B
    requires 0 <= i < A && 0 <= j < B
    ensures OnColorCross(A, B, X, Y, offset, i, j) <==>
      (j == X && (i < Y - offset || Y + offset <= i)) || (i == Y && (j < X - offset || X + offset <= j))
    ensures offset >= 1 ==> !OnColorCross(A, B, X, Y, offset, Y, X)
  {
  }

  /**
   * Near the top edge the gap is lost: with `Y < offset < A` the stop
   * `Y - offset` of the upper arm is negative and wraps around to
   * `A + Y - offset`, so the upper arm paints down through the centre.
   */
  lemma ColorGapWrapsNearEdge(A: nat, B: nat, X: int, Y: int, offset: int)
    requires 0 <= Y < offset < A
    ensures SliceLen(0, Y - offset, A) == A + Y - offset
    ensures OnColorCross(A, B, X, Y, offset, Y, X)
  {
  }

  /**
   * Close to the top edge (`offset <= Y < offset + length`, on a column at
   * least `offset + length` long) the start `Y-offset-length` of the upper
   * grayscale arm wraps past its stop, and the arm vanishes: nothing above
   * the gap is painted in column `X`. The default reticle on a 200-row
   * frame, `[-5:95]`, is one such case.
   */
  lemma GrayArmVanishesNearEdge(A: nat, B: nat, X: int, Y: int, length: int, offset: int)
    requires 0 <= offset <= Y < offset + length <= A
    ensures SliceLen(Y - offset - length, Y - offset, A) == 0
    ensures forall i :: 0 <= i < Y - offset ==> !OnGrayCross(A, B, X, Y, length, offset, i, X)
  {
  }

  /**
   * Closer still (`Y < offset`) both bounds of the upper grayscale arm are
   * negative, and the arm is painted in full at the far end of column `X`,
   * rows `[A+Y-offset-length, A+Y-offset)`.
   */
  lemma GrayArmWrapsNearEdge(A: nat, B: nat, X: int, Y: int, length: int, offset: int)
    requires 0 <= Y < offset && 0 <= length && offset + length <= A
    ensures Norm(Y - offset - length, A) == A + Y - offset - length
    ensures SliceLen(Y - offset - length, Y - offset, A) == length
    ensures forall i :: A + Y - offset - length <= i < A + Y - offset ==> OnGrayCross(A, B, X, Y, length, offset, i, X)
  {
  }

  /**
   * Each arm of the grayscale cross covers at most `length` pixels, however
   * its slice bounds wrap or clamp.
   */
  lemma GrayArmsAtMost(A: nat, B: nat, X: int, Y: int, length: int, offset: int)
    requires length >= 0
    ensures SliceLen(Y - offset - length, Y - offset, A) <= length
    ensures SliceLen(Y + offset, Y + offset + length, A) <= length
    ensures SliceLen(X - offset - length, X - offset, B) <= length
    ensures SliceLen(X + offset, X + offset + length, B) <= length
  {
    SliceLenAtMost(Y - offset - length, Y - offset, A);
    SliceLenAtMost(Y + offset, Y + offset + length, A);
    SliceLenAtMost(X - offset - length, X - offset, B);
    SliceLenAtMost(X + offset, X + offset + length, B);
  }

  /**
   * When no bound goes negative (`offset + length <= Y`, `offset + length <= X`)
   * the grayscale arms are exactly the `length` positions before the gap and
   * the up to `length` positions after it, cut at the frame edge.
   */
  lemma GrayArms(A: nat, B: nat, X: int, Y: int, length: int, offset: int, i: int, j: int)
    requires 0 <= length && 0 <= offset && offset + length <= Y < A && offset + length <= X < B
    requires 0 <= i < A && 0 <= j < B
    ensures OnGrayCross(A, B, X, Y, length, offset, i, j) <==>
      (j == X && (Y - offset - length <= i < Y - offset || Y + offset <= i < Y + offset + length))
      || (i == Y && (X - offset - length <= j < X - offset || X + offset <= j < X + offset + length))
  {
  }

  /**
   * The reticle the display loop draws, at `(int(B/2), int(A/2))` with the
   * default gap and arm length, leaves the centre pixel alone on any frame
   * of at least 10 x 10 pixels.
   */
  lemma DefaultReticleKeepsCentre(A: nat, B: nat)
    requires A >= 10 && B >= 10
    ensures !OnColorCross(A, B, ClampIndex(B / 2, B), ClampIndex(A / 2, A), DefaultOffset, A / 2, B / 2)
    ensures !OnGrayCross(A, B, ClampIndex(B / 2, B), ClampIndex(A / 2, A), DefaultLength, DefaultOffset, A / 2, B / 2)
  {
  }
}
