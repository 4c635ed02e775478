/**
 * The older revision of the `Ember` controller (the top-level script): its
 * settings are fixed at construction, where a rotation that is not a
 * multiple of 90 degrees ends the program; `grab_frame` only mirrors, and
 * only H x W x C frames; `label_axes` reads the stored rotation, which no
 * frame step ever applies.
 */
module EmberV1 {
  import opened Wrappers
  import opened Frames
  import EmberV2

  /** A camera frame: a 2-D grayscale array or an H x W x C array. */
  datatype Image = Gray(gray: Frame<int>) | Color(color: Frame<seq<int>>) {
    predicate Valid()
    {
      match this
      case Gray(g) => g.Valid()
      case Color(c) => c.Valid()
    }
  }

  /**
   * The exceptions the mirror slices raise: `IndexError` for `[:, ::-1, :]`
   * on a 2-D array (too many indices), `TypeError` for any slice of `None`.
   */
  datatype PyError = IndexError | TypeError

  /** The settings `__init__` records (the camera and figure are not part of this model). */
  datatype Ember = Ember(delay: real, rotate: int, mirrorH: bool, mirrorV: bool) {

    /**
     * `grab_frame`, given what `camera.read()` returned: `Ok(Some(img))` when
     * `img` becomes the new frame, `Ok(None)` when the read gave nothing and
     * the previous frame stays, `Err(e)` when a mirror slice raised `e`.
     */
    function GrabFrame(read: Option<Image>): (r: Result<Option<Image>, PyError>)
      requires read.Some? ==> read.value.Valid()
      ensures r.Ok? && r.value.Some? ==> r.value.value.Valid()
    {
      var h := if mirrorH then MirrorStep(read, true) else Ok(read);
      if h.Err? || !mirrorV then h else MirrorStep(h.value, false)
    }

    /**
     * `label_axes`: 'Y' across and 'X' up when the rotation is one of
     * `np.arange(-630, 720, 180)`, 'X' and 'Y' otherwise.
     */
    function Labels(): (r: EmberV2.AxisLabels)
      ensures r == EmberV2.AxisLabels("Y", "X") || r == EmberV2.AxisLabels("X", "Y")
    {
      if rotate in Arange(-630, 720, 180) then EmberV2.AxisLabels("Y", "X") else EmberV2.AxisLabels("X", "Y")
    }
  }

  /** One mirror slice of `grab_frame`: `[:, ::-1, :]` when `columns`, else `[::-1, :, :]`. */
  function MirrorStep(frame: Option<Image>, columns: bool): (r: Result<Option<Image>, PyError>)
    requires frame.Some? ==> frame.value.Valid()
    ensures r.Ok? ==> r.value.Some? && r.value.value.Valid()
  {
    match frame
    case None => Err(TypeError)
    case Some(Gray(_)) => Err(IndexError)
    case Some(Color(f)) => Ok(Some(Color(if columns then MirrorH(f) else MirrorV(f))))
  }

  /**
   * `__init__`: `None` where the program prints its hint and exits because
   * `rotate % 90 != 0` (Python's `%` with a positive divisor is floor modulo,
   * as Dafny's is).
   */
  function New(delay: real := 0.5, rotate: int := 0, mirrorH: bool := false, mirrorV: bool := false): (r: Option<Ember>)
    ensures r.Some? ==> r.value == Ember(delay, rotate, mirrorH, mirrorV)
  {
    if rotate % 90 != 0 then None else Some(Ember(delay, rotate, mirrorH, mirrorV))
  }

  /** Every multiple of 90 degrees, negative ones included, is accepted. */
  lemma AcceptsMultiples(delay: real, k: int, mirrorH: bool, mirrorV: bool)
    ensures New(delay, 90 * k, mirrorH, mirrorV).Some?
  {
  }

  /** Only multiples of 90 degrees are accepted. */
  lemma AcceptsOnlyMultiples(delay: real, rotate: int, mirrorH: bool, mirrorV: bool)
    requires New(delay, rotate, mirrorH, mirrorV).Some?
    ensures rotate == 90 * (rotate / 90)
  {
  }

  /** `np.arange(start, stop, step)` for a positive integer step. */
  function Arange(start: int, stop: int, step: int): (r: seq<int>)
    requires step > 0
    ensures forall x :: x in r ==> start <= x < stop
    ensures start < stop <==> |r| > 0 && r[0] == start
    decreases stop - start
  {
    if start >= stop then [] else [start] + Arange(start + step, stop, step)
  }

  /** `x` is in `np.arange(start, stop, step)` exactly when it lies in `[start, stop)` on the step grid. */
  lemma {:induction false} ArangeMembers(start: int, stop: int, step: int, x: int)
    requires step > 0
    ensures x in Arange(start, stop, step) <==> start <= x < stop && (x - start) % step == 0
    decreases stop - start
  {
    if start < stop {
      ArangeMembers(start + step, stop, step, x);
      ModAddStep(x - (start + step), step);
      if x == start {
        assert x in Arange(start, stop, step);
      }
    }
  }

  /** Adding the divisor does not change the remainder. */
  lemma ModAddStep(a: int, step: int)
    requires step > 0
    ensures (a + step) % step == a % step
  {
    var q, r := a / step, a % step;
    assert a + step == (q + 1) * step + r;
    ModUnique(a + step, step, q + 1, r);
  }

  /** A remainder in `[0, step)` of any decomposition `n == q * step + r` is `n % step`. */
  lemma ModUnique(n: int, step: int, q: int, r: int)
    requires step > 0 && 0 <= r < step && n == q * step + r
    ensures n % step == r
  {
    var q', r' := n / step, n % step;
    assert (q' - q) * step == r - r';
    if q' > q {
      MulAtLeast(q' - q, step);
    }
    if q' < q {
      MulAtLeast(q - q', step);
    }
  }

  lemma MulAtLeast(m: int, step: int)
    requires m >= 1 && step > 0
    ensures m * step >= step
  {
  }

  /**
   * The labels are swapped exactly for the odd multiples of 90 degrees
   * between -630 and 630.
   */
  lemma {:induction false} LabelsSwappedExactly(e: Ember)
    ensures e.Labels() == EmberV2.AxisLabels("Y", "X") <==> -630 <= e.rotate <= 630 && e.rotate % 180 == 90
    ensures e.Labels() == EmberV2.AxisLabels("X", "Y") <==> !(-630 <= e.rotate <= 630 && e.rotate % 180 == 90)
  {
    ArangeMembers(-630, 720, 180, e.rotate);
    assert (e.rotate + 630) % 180 == (e.rotate - 90) % 180 by {
      assert e.rotate + 630 == (e.rotate - 90) + 4 * 180;
    }
  }

  /**
   * A rotation the constructor accepts can still fall outside the label
   * table: 810 degrees is an odd multiple of 90, yet keeps 'X' across.
   */
  lemma LabelsMissLargeRotations(delay: real, mirrorH: bool, mirrorV: bool)
    ensures New(delay, 810, mirrorH, mirrorV).Some?
    ensures Ember(delay, 810, mirrorH, mirrorV).Labels() == EmberV2.AxisLabels("X", "Y")
  {
    LabelsSwappedExactly(Ember(delay, 810, mirrorH, mirrorV));
  }

  /**
   * On a colour frame the grab keeps the shape and moves pixel `(i, j)` to
   * the mirrored position for each flag set; the rotation plays no part.
   */
  lemma GrabColor(e: Ember, f: Frame<seq<int>>)
    requires f.Valid()
    ensures var r := e.GrabFrame(Some(Color(f)));
      r.Ok? && r.value.Some? && r.value.value.Color?
      && r.value.value.color.rows == f.rows && r.value.value.color.cols == f.cols
      && forall i, j :: 0 <= i < f.rows && 0 <= j < f.cols ==>
           r.value.value.color.px[i][j]
             == f.px[if e.mirrorV then f.rows - 1 - i else i][if e.mirrorH then f.cols - 1 - j else j]
  {
  }

  /**
   * A 2-D frame passes only with both flags off; a mirror on it raises
   * `IndexError`. An empty read raises `TypeError` under a mirror and
   * otherwise leaves the previous frame in place.
   */
  lemma GrabOther(e: Ember, g: Frame<int>)
    requires g.Valid()
    ensures e.GrabFrame(Some(Gray(g))) == if e.mirrorH || e.mirrorV then Err(IndexError) else Ok(Some(Gray(g)))
    ensures e.GrabFrame(None) == if e.mirrorH || e.mirrorV then Err(TypeError) else Ok(None)
  {
  }

  /** The stored rotation has no effect on the pixels. */
  lemma RotationIgnored(e: Ember, rotate: int, read: Option<Image>)
    requires read.Some? ==> read.value.Valid()
    ensures e.(rotate := rotate).GrabFrame(read) == e.GrabFrame(read)
  {
  }

  /**
   * On colour frames the old grab is the current pipeline with no zoom crop
   * and no axis swap.
   */
  lemma {:induction false} MatchesCurrentRevision(e: Ember, f: Frame<seq<int>>)
    requires f.Valid()
    ensures e.GrabFrame(Some(Color(f)))
         == Ok(Some(Color(EmberV2.GrabFrame(f, EmberV2.DisplayState(false, e.mirrorH, e.mirrorV, 0)))))
  {
  }
}
