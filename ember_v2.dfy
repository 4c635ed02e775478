/**
 * The current revision of the `Ember` controller: the display flags that the
 * check boxes and the zoom slider update, the axis labels chosen from them,
 * and the geometric part of `grab_frame` (zoom crop, axis swap, mirrors)
 * that turns a camera frame into the displayed one.
 */
module EmberV2 {
  import opened Frames

  /** The flags `grab_frame` and `label_axes` read. */
  datatype DisplayState = DisplayState(swapXY: bool, mirrorH: bool, mirrorV: bool, zoom: int)

  datatype AxisLabels = AxisLabels(xlabel: string, ylabel: string)

  /** The texts of the three check boxes; a click reports the text of the box clicked. */
  const MirrorHorLabel: string := "Mirror Hor."
  const MirrorVertLabel: string := "Mirror Vert."
  const SwapLabel: string := "Swap X/Y"

  predicate StartsWith(s: string, p: string)
  {
    |p| <= |s| && s[..|p|] == p
  }

  /** Python's `p in s` on strings: `p` occurs in `s` as a contiguous substring. */
  predicate Contains(s: string, p: string)
    ensures Contains(s, p) ==> |p| <= |s|
    ensures Contains(s, p) && |p| > 0 ==> p[0] in s
    decreases |s|
  {
    StartsWith(s, p) || (|s| > 0 && Contains(s[1..], p))
  }

  /** `p` occurs in `s` starting at position `k`. */
  predicate OccursAt(s: string, p: string, k: int)
  {
    0 <= k && k + |p| <= |s| && s[k..k + |p|] == p
  }

  /** `Contains` holds exactly when `p` occurs at some position of `s`. */
  lemma {:induction false} ContainsAt(s: string, p: string)
    ensures Contains(s, p) <==> exists k :: OccursAt(s, p, k)
  {
    if StartsWith(s, p) {
      assert OccursAt(s, p, 0);
    }
    if OccursAt(s, p, 0) {
      assert StartsWith(s, p);
    }
    if |s| > 0 {
      ContainsAt(s[1..], p);
      if Contains(s[1..], p) {
        var k :| OccursAt(s[1..], p, k);
        assert OccursAt(s, p, k + 1);
      }
      if k :| OccursAt(s, p, k) && k > 0 {
        assert OccursAt(s[1..], p, k - 1);
      }
    }
  }

  /** Every text contains itself. */
  lemma ContainsSelf(s: string)
    ensures Contains(s, s)
  {
    assert s[..|s|] == s;
  }

  /** `mirror_swap`: every flag whose check-box text occurs in the clicked label is flipped. */
  function Toggle(s: DisplayState, clicked: string): (r: DisplayState)
    ensures r.zoom == s.zoom
  {
    s.(mirrorH := if Contains(clicked, MirrorHorLabel) then !s.mirrorH else s.mirrorH,
       mirrorV := if Contains(clicked, MirrorVertLabel) then !s.mirrorV else s.mirrorV,
       swapXY := if Contains(clicked, SwapLabel) then !s.swapXY else s.swapXY)
  }

  /** Clicking any label twice restores the display state. */
  lemma ClickTwice(s: DisplayState, clicked: string)
    ensures Toggle(Toggle(s, clicked), clicked) == s
  {
  }

  /** Each check-box text occurs in itself and in neither of the other two. */
  lemma BoxLabelsDistinct()
    ensures Contains(MirrorHorLabel, MirrorHorLabel)
    ensures Contains(MirrorVertLabel, MirrorVertLabel)
    ensures Contains(SwapLabel, SwapLabel)
    ensures !Contains(MirrorHorLabel, MirrorVertLabel) && !Contains(MirrorHorLabel, SwapLabel)
    ensures !Contains(MirrorVertLabel, MirrorHorLabel) && !Contains(MirrorVertLabel, SwapLabel)
    ensures !Contains(SwapLabel, MirrorHorLabel) && !Contains(SwapLabel, MirrorVertLabel)
  {
    ContainsSelf(MirrorHorLabel);
    ContainsSelf(MirrorVertLabel);
    ContainsSelf(SwapLabel);
    ShorterLabelsOmitLonger();
    SwapNotInMirrors();
    HorNotInVert();
  }

  /** No text contains a longer one. */
  lemma ShorterLabelsOmitLonger()
    ensures !Contains(MirrorHorLabel, MirrorVertLabel)
    ensures !Contains(SwapLabel, MirrorHorLabel) && !Contains(SwapLabel, MirrorVertLabel)
  {
  }

  /** Neither mirror text has an 'S', with which "Swap X/Y" starts. */
  lemma SwapNotInMirrors()
    ensures !Contains(MirrorHorLabel, SwapLabel) && !Contains(MirrorVertLabel, SwapLabel)
  {
    assert SwapLabel[0] == 'S';
    assert 'S' !in MirrorHorLabel && 'S' !in MirrorVertLabel;
  }

  /** "Mirror Hor." could only sit at position 0 or 1 of "Mirror Vert.", and sits at neither. */
  lemma {:induction false} HorNotInVert()
    ensures !Contains(MirrorVertLabel, MirrorHorLabel)
  {
    var v, h := MirrorVertLabel, MirrorHorLabel;
    assert v[..|h|][7] != h[7];
    assert v[1..][..|h|][0] != h[0];
    assert v[1..][1..] == v[2..];
  }

  /** Clicking one of the three check boxes flips exactly its own flag. */
  lemma ClickOwnBox(s: DisplayState)
    ensures Toggle(s, MirrorHorLabel) == s.(mirrorH := !s.mirrorH)
    ensures Toggle(s, MirrorVertLabel) == s.(mirrorV := !s.mirrorV)
    ensures Toggle(s, SwapLabel) == s.(swapXY := !s.swapXY)
  {
    BoxLabelsDistinct();
  }

  /**
   * The geometric steps of `grab_frame`, in its order: the zoom crop (skipped
   * for zoom 0), then the axis swap, the column mirror and the row mirror.
   * The same code serves 2-D and H x W x C frames, the channel axis riding
   * along with its pixel.
   */
  function GrabFrame<P>(f: Frame<P>, s: DisplayState): (r: Frame<P>)
    requires f.Valid()
    ensures r.Valid()
  {
    var cropped := if s.zoom != 0 then Crop(f, s.zoom) else f;
    var swapped := if s.swapXY then Transpose(cropped) else cropped;
    var mirroredH := if s.mirrorH then MirrorH(swapped) else swapped;
    if s.mirrorV then MirrorV(mirroredH) else mirroredH
  }

  /**
   * The displayed frame has the cropped shape, with its two dimensions
   * exchanged exactly when the axes are swapped; mirroring never changes it.
   */
  lemma GrabShape<P>(f: Frame<P>, s: DisplayState)
    requires f.Valid()
    ensures var c := if s.zoom != 0 then Crop(f, s.zoom) else f;
      var r := GrabFrame(f, s);
      (r.rows, r.cols) == if s.swapXY then (c.cols, c.rows) else (c.rows, c.cols)
  {
  }

  /** With no crop (zoom 0) or zoom 1 and every flag off, the camera frame is shown as it is. */
  lemma {:induction false} GrabPlain<P>(f: Frame<P>, zoom: int)
    requires f.Valid() && (zoom == 0 || zoom == 1)
    ensures GrabFrame(f, DisplayState(false, false, false, zoom)) == f
  {
    if zoom == 1 {
      CropZoomOne(f);
    }
  }

  /** Ticking "Mirror Hor." mirrors the displayed frame's columns, whatever else is set. */
  lemma {:induction false} GrabToggleMirrorH<P>(f: Frame<P>, s: DisplayState)
    requires f.Valid()
    ensures GrabFrame(f, s.(mirrorH := !s.mirrorH)) == MirrorH(GrabFrame(f, s))
  {
    var cropped := if s.zoom != 0 then Crop(f, s.zoom) else f;
    var swapped := if s.swapXY then Transpose(cropped) else cropped;
    MirrorHTwice(swapped);
    MirrorsCommute(swapped);
    if s.mirrorH {
      MirrorsCommute(MirrorH(swapped));
    }
  }

  /** Ticking "Mirror Vert." mirrors the displayed frame's rows, whatever else is set. */
  lemma {:induction false} GrabToggleMirrorV<P>(f: Frame<P>, s: DisplayState)
    requires f.Valid()
    ensures GrabFrame(f, s.(mirrorV := !s.mirrorV)) == MirrorV(GrabFrame(f, s))
  {
    var cropped := if s.zoom != 0 then Crop(f, s.zoom) else f;
    var swapped := if s.swapXY then Transpose(cropped) else cropped;
    var mirroredH := if s.mirrorH then MirrorH(swapped) else swapped;
    MirrorVTwice(mirroredH);
  }

  /**
   * Ticking "Swap X/Y" on transposes the displayed frame, with the two mirror
   * flags exchanging roles (a column mirror after the swap is a row mirror
   * before it).
   */
  lemma {:induction false} GrabSwap<P>(f: Frame<P>, s: DisplayState)
    requires f.Valid()
    ensures GrabFrame(f, s.(swapXY := true))
         == Transpose(GrabFrame(f, s.(swapXY := false, mirrorH := s.mirrorV, mirrorV := s.mirrorH)))
  {
    var c := if s.zoom != 0 then Crop(f, s.zoom) else f;
    var h := if s.mirrorH then MirrorV(c) else c;
    TransposeThenMirrorH(c);
    TransposeThenMirrorV(h);
    if s.mirrorH && s.mirrorV {
      MirrorsCommute(c);
    }
  }

  /**
   * The `Ember` controller's display state, which the check-box and slider
   * callbacks update in place. The camera, the figure and its widgets, and
   * the current frame are not part of this model.
   */
  class Ember {
    var swapXY: bool
    var mirrorH: bool
    var mirrorV: bool
    var zoom: int
    var delay: real

    function State(): DisplayState
      reads this
    {
      DisplayState(swapXY, mirrorH, mirrorV, zoom)
    }

    /** `__init__`: the flags as given (with Python's defaults), zoom 1 (the slider's initial value). */
    constructor (delay: real := 0.5, swapXY: bool := false, mirrorH: bool := false, mirrorV: bool := false)
      ensures State() == DisplayState(swapXY, mirrorH, mirrorV, 1)
      ensures this.delay == delay
    {
      this.swapXY := swapXY;
      this.mirrorH := mirrorH;
      this.mirrorV := mirrorV;
      this.zoom := 1;
      this.delay := delay;
    }

    /** `mirror_swap`: the check-box callback, given the text of the box clicked. */
    method MirrorSwap(clicked: string)
      modifies this
      ensures State() == Toggle(old(State()), clicked)
      ensures delay == old(delay)
    {
      if Contains(clicked, MirrorHorLabel) {
        mirrorH := if mirrorH then false else true;
      }
      if Contains(clicked, MirrorVertLabel) {
        mirrorV := if mirrorV then false else true;
      }
      if Contains(clicked, SwapLabel) {
        swapXY := if swapXY then false else true;
      }
    }

    /** `set_zoom`: the slider callback stores the value unchecked. */
    method SetZoom(val: int)
      modifies this
      ensures State() == old(State()).(zoom := val)
      ensures delay == old(delay)
    {
      zoom := val;
    }

    /** `label_axes`: 'Y' across and 'X' up unless the axes are swapped, the other way round when they are. */
    function Labels(): (r: AxisLabels)
      reads this
      ensures r == AxisLabels("Y", "X") <==> !swapXY
      ensures r == AxisLabels("X", "Y") <==> swapXY
    {
      if !swapXY then AxisLabels("Y", "X") else AxisLabels("X", "Y")
    }
  }
}
