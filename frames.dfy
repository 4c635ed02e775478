/**
 * A camera frame as a value: `rows` x `cols` pixels, row-major, where a pixel
 * is whatever the frame stores per position (an intensity for a 2-D
 * grayscale array, a channel vector for an H x W x C array). The geometric
 * steps of the frame pipeline act on the two spatial axes only, so they are
 * written once, generically in the pixel type.
 */
module Frames {
  import opened PySlice

  datatype Frame<P> = Frame(rows: nat, cols: nat, px: seq<seq<P>>) {
    /** The pixel rows match the recorded shape. */
    predicate Valid()
    {
      |px| == rows && forall i :: 0 <= i < |px| ==> |px[i]| == cols
    }
  }

  /** Two well-formed frames of the same shape with the same pixels are equal. */
  lemma {:induction false} FrameExt<P>(f: Frame<P>, g: Frame<P>)
    requires f.Valid() && g.Valid() && f.rows == g.rows && f.cols == g.cols
    requires forall i, j :: 0 <= i < f.rows && 0 <= j < f.cols ==> f.px[i][j] == g.px[i][j]
    ensures f == g
  {
    forall i | 0 <= i < f.rows
      ensures f.px[i] == g.px[i]
    {
      assert forall j :: 0 <= j < f.cols ==> f.px[i][j] == g.px[i][j];
    }
  }

  /**
   * Half-size of the zoom window along an axis of length `n`: `int(n/(zoom*2))`.
   * For a zoom of at least 1 it is at most half the axis, and exactly half
   * (`int(n/2)`) at zoom 1.
   */
  function HalfWindow(n: nat, zoom: int): (r: int)
    requires zoom != 0
    ensures zoom >= 1 ==> 0 <= r <= n / 2
    ensures zoom == 1 ==> r == n / 2
  {
    if zoom >= 1 then DivByLarger(n, 2, zoom * 2); IntOfDiv(n, zoom * 2)
    else IntOfDiv(n, zoom * 2)
  }

  /**
   * First index the zoom window keeps along an axis of length `n`. For a zoom
   * of at least 1 the start `n/2 - a` needs no clamping and lies at or before
   * the centre `n/2`; at zoom 1 it is 0.
   */
  function WindowStart(n: nat, zoom: int): (r: nat)
    requires zoom != 0
    ensures r <= n
    ensures zoom >= 1 ==> r == n / 2 - HalfWindow(n, zoom) && r <= n / 2
    ensures zoom == 1 ==> r == 0
  {
    Norm(n / 2 - HalfWindow(n, zoom), n)
  }

  /** Number of indices the zoom window keeps along an axis of length `n`. */
  function WindowLen(n: nat, zoom: int): (r: nat)
    requires zoom != 0
    ensures WindowStart(n, zoom) + r <= n
  {
    SliceLen(n / 2 - HalfWindow(n, zoom), n / 2 + HalfWindow(n, zoom) + 1, n)
  }

  /**
   * The zoom crop `frame[A/2-a : A/2+a+1, B/2-b : B/2+b+1]` with
   * `a, b` the half-windows, under Python's slice rules.
   */
  function Crop<P>(f: Frame<P>, zoom: int): (r: Frame<P>)
    requires f.Valid() && zoom != 0
    ensures r.Valid() && r.rows == WindowLen(f.rows, zoom) && r.cols == WindowLen(f.cols, zoom)
    ensures forall i, j :: 0 <= i < r.rows && 0 <= j < r.cols ==>
      r.px[i][j] == f.px[WindowStart(f.rows, zoom) + i][WindowStart(f.cols, zoom) + j]
  {
    var r0, c0 := WindowStart(f.rows, zoom), WindowStart(f.cols, zoom);
    var h, w := WindowLen(f.rows, zoom), WindowLen(f.cols, zoom);
    Frame(h, w, seq(h, i requires 0 <= i < h => f.px[r0 + i][c0..c0 + w]))
  }

  /** `np.transpose` of the two spatial axes. */
  function Transpose<P>(f: Frame<P>): (r: Frame<P>)
    requires f.Valid()
    ensures r.Valid() && r.rows == f.cols && r.cols == f.rows
    ensures forall i, j :: 0 <= i < r.rows && 0 <= j < r.cols ==> r.px[i][j] == f.px[j][i]
  {
    Frame(f.cols, f.rows,
          seq(f.cols, j requires 0 <= j < f.cols =>
            seq(f.rows, i requires 0 <= i < f.rows => f.px[i][j])))
  }

  /** `frame[:, ::-1]`: column order reversed. */
  function MirrorH<P>(f: Frame<P>): (r: Frame<P>)
    requires f.Valid()
    ensures r.Valid() && r.rows == f.rows && r.cols == f.cols
    ensures forall i, j :: 0 <= i < r.rows && 0 <= j < r.cols ==> r.px[i][j] == f.px[i][f.cols - 1 - j]
  {
    Frame(f.rows, f.cols, seq(f.rows, i requires 0 <= i < f.rows => Reversed(f.px[i])))
  }

  /** `frame[::-1, :]`: row order reversed. */
  function MirrorV<P>(f: Frame<P>): (r: Frame<P>)
    requires f.Valid()
    ensures r.Valid() && r.rows == f.rows && r.cols == f.cols
    ensures forall i, j :: 0 <= i < r.rows && 0 <= j < r.cols ==> r.px[i][j] == f.px[f.rows - 1 - i][j]
  {
    Frame(f.rows, f.cols, Reversed(f.px))
  }

  /** Dividing by a larger positive divisor never gives a larger quotient. */
  lemma {:induction false} DivByLarger(n: nat, small: int, large: int)
    requires 0 < small <= large
    ensures n / large <= n / small
  {
    var q := n / large;
    assert q * small <= q * large;
    assert q * large <= n;
    QuotientAtLeast(n, small, q);
  }

  /** Any `q` with `q * d <= n` is at most the quotient `n / d`. */
  lemma {:induction false} QuotientAtLeast(n: nat, d: int, q: nat)
    requires 0 < d && q * d <= n
    ensures q <= n / d
  {
    var p := n / d;
    assert n < (p + 1) * d;
    assert q * d < (p + 1) * d;
  }

  /**
   * Along one axis of length `n`, a zoom `z >= 1` keeps the indices
   * `[n/2 - a, min(n, n/2 + a + 1))` with `a = n/(2z)`: the window starts
   * inside the axis, is no longer than it and is non-empty when the axis is.
   */
  lemma {:induction false} AxisWindow(n: nat, z: int)
    requires z >= 1
    ensures var a := n / (2 * z);
      0 <= n / 2 - a
      && WindowStart(n, z) == n / 2 - a
      && WindowLen(n, z) == (if n < n / 2 + a + 1 then n else n / 2 + a + 1) - (n / 2 - a)
      && WindowLen(n, z) <= n
      && (n >= 1 ==> WindowLen(n, z) >= 1)
  {
    assert HalfWindow(n, z) == n / (2 * z);
    DivByLarger(n, 2, 2 * z);
  }

  /**
   * For a zoom `z >= 1` the crop keeps rows `[A/2 - a, min(A, A/2 + a + 1))`
   * and columns `[B/2 - b, min(B, B/2 + b + 1))` with `a = A/(2z)`,
   * `b = B/(2z)`: the window starts inside the frame, is no larger than it,
   * is non-empty for a non-empty frame, and shows the pixels of that window
   * unmoved.
   */
  lemma {:induction false} CropWindow<P>(f: Frame<P>, z: int)
    requires f.Valid() && z >= 1
    ensures var a, b := f.rows / (2 * z), f.cols / (2 * z);
      var r := Crop(f, z);
      0 <= f.rows / 2 - a && 0 <= f.cols / 2 - b
      && r.rows == (if f.rows < f.rows / 2 + a + 1 then f.rows else f.rows / 2 + a + 1) - (f.rows / 2 - a)
      && r.cols == (if f.cols < f.cols / 2 + b + 1 then f.cols else f.cols / 2 + b + 1) - (f.cols / 2 - b)
      && r.rows <= f.rows && r.cols <= f.cols
      && (f.rows >= 1 ==> r.rows >= 1) && (f.cols >= 1 ==> r.cols >= 1)
      && forall i, j :: 0 <= i < r.rows && 0 <= j < r.cols ==>
           r.px[i][j] == f.px[f.rows / 2 - a + i][f.cols / 2 - b + j]
  {
    AxisWindow(f.rows, z);
    AxisWindow(f.cols, z);
  }

  /** Zoom 1 keeps the whole frame, for odd and even dimensions alike. */
  lemma {:induction false} CropZoomOne<P>(f: Frame<P>)
    requires f.Valid()
    ensures Crop(f, 1) == f
  {
    assert WindowLen(f.rows, 1) == f.rows && WindowLen(f.cols, 1) == f.cols;
    FrameExt(Crop(f, 1), f);
  }

  /** Transposing twice gives back the frame. */
  lemma {:induction false} TransposeTwice<P>(f: Frame<P>)
    requires f.Valid()
    ensures Transpose(Transpose(f)) == f
  {
    FrameExt(Transpose(Transpose(f)), f);
  }

  /** Mirroring the columns twice gives back the frame. */
  lemma {:induction false} MirrorHTwice<P>(f: Frame<P>)
    requires f.Valid()
    ensures MirrorH(MirrorH(f)) == f
  {
    FrameExt(MirrorH(MirrorH(f)), f);
  }

  /** Mirroring the rows twice gives back the frame. */
  lemma {:induction false} MirrorVTwice<P>(f: Frame<P>)
    requires f.Valid()
    ensures MirrorV(MirrorV(f)) == f
  {
    FrameExt(MirrorV(MirrorV(f)), f);
  }

  /** The two mirrors commute, so the order the pipeline applies them in does not matter. */
  lemma {:induction false} MirrorsCommute<P>(f: Frame<P>)
    requires f.Valid()
    ensures MirrorH(MirrorV(f)) == MirrorV(MirrorH(f))
  {
    FrameExt(MirrorH(MirrorV(f)), MirrorV(MirrorH(f)));
  }

  /** Transposing then mirroring the columns is mirroring the rows then transposing. */
  lemma {:induction false} TransposeThenMirrorH<P>(f: Frame<P>)
    requires f.Valid()
    ensures MirrorH(Transpose(f)) == Transpose(MirrorV(f))
  {
    FrameExt(MirrorH(Transpose(f)), Transpose(MirrorV(f)));
  }

  /** Transposing then mirroring the rows is mirroring the columns then transposing. */
  lemma {:induction false} TransposeThenMirrorV<P>(f: Frame<P>)
    requires f.Valid()
    ensures MirrorV(Transpose(f)) == Transpose(MirrorH(f))
  {
    FrameExt(MirrorV(Transpose(f)), Transpose(MirrorH(f)));
  }
}
