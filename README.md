# emberpy camera-alignment frame logic, in Dafny

emberpy shows a live USB-camera feed with a white reticle burnt into each
frame. An operator lines the reticle up with a 3D-printer nozzle. The
`Ember` controller exists in two revisions:

- `emberpy/emberpy.py` is the current one. Check boxes toggle horizontal
  mirroring, vertical mirroring and an axis swap. A slider sets a digital
  zoom. Every frame is cropped around its centre by the zoom, optionally
  transposed, then optionally mirrored along each axis.
- `emberpy.py` is the older one. Its settings are fixed when the object is
  built. The constructor rejects a rotation that is not a multiple of 90
  degrees. The rotation only decides the axis labels and is never applied
  to a frame. Only colour frames are mirrored.

Both revisions share the reticle painter `draw_reticle`. It clamps the
requested centre into the frame and sets pixels to 255 in place along the
centre row and column. It leaves a gap of `offset` pixels around the
centre. On an H x W x C frame the arms run to the edges. On a 2-D frame
each arm covers at most `length` pixels. The arms are numpy slice
assignments, so their bounds follow Python's slice rules: a negative bound
counts from the end of the axis, then bounds are clamped to the axis. Near
the top or left edge the colour gap can therefore vanish, and a grayscale
arm before the gap either vanishes or is painted at the far end of the
axis.

The project has six modules:

- `Wrappers` (`wrappers.dfy`): `Option` for Python's `None`, and `Result`
  for a raised exception.
- `PySlice` (`py_slice.dfy`): slice-bound normalisation, `[::-1]`, and
  `int(n / d)`.
- `Frames` (`frames.dfy`): a frame as a value `Frame<P>` of `rows` x `cols`
  pixels. `P` is an intensity for a 2-D frame or a channel vector for an
  H x W x C frame. The module also holds the zoom crop, transpose and the
  two mirrors, with their algebra: zoom 1 is the identity; transpose and
  both mirrors are involutions; the mirrors commute; transpose exchanges
  the mirrors.
- `Reticle` (`reticle.dfy`): the in-place painter. It works on an
  `array3<int>` for colour frames and an `array2<int>` for grayscale
  frames. Its contracts say exactly which pixels become 255 and that every
  other value is kept. Lemmas describe the arms, the gap, and how the gap
  is lost to wrap-around.
- `EmberV2` (`ember_v2.dfy`): the current revision. It has a class `Ember`
  whose callbacks update the display flags, the pure `grab_frame` pipeline,
  and lemmas on what each check box does to the displayed frame.
- `EmberV1` (`ember_v1.dfy`): the older revision as a value. It covers the
  rotation check, the `np.arange`-based label choice and the mirror-only
  grab, including the exceptions it raises. It also shows that on colour
  frames the old grab matches the current pipeline with no zoom and no swap.

`draw_reticle` clamps only the centre (emberpy/emberpy.py:116-124). The
arm bounds are not clamped, and a negative bound wraps around the axis
(`ColorGapWrapsNearEdge`, `GrayArmVanishesNearEdge`,
`GrayArmWrapsNearEdge`).

`mirror_swap` receives the text of the one box clicked, so its
`'Mirror Hor.' in labels` test is a substring test on that text
(`EmberV2.Contains`).

## Model

| member | source | states |
|---|---|---|
| PySlice.Norm | emberpy/emberpy.py:127-135 | a slice bound is normalised into `[0, len]`, and a bound already in range is unchanged |
| PySlice.SliceLen | emberpy/emberpy.py:127-135 | the run a slice selects starts at the normalised start and ends within the axis |
| PySlice.Reversed | emberpy/emberpy.py:92-93 | `[::-1]` keeps the length and puts element `len-1-k` at position `k` |
| PySlice.IntOfDiv | emberpy/emberpy.py:83 | `int(n/d)` truncates toward zero: for `d > 0` it is the floor quotient, for `d < 0` its negation |
| PySlice.SliceLenAtMost | emberpy/emberpy.py:132-135 | however its bounds wrap or clamp, a slice `lo:hi` with `lo <= hi` never selects more than `hi - lo` elements |
| PySlice.NegativeStopWraps | emberpy/emberpy.py:127 | `0:-d` with `0 < d <= len` selects all but the last `d` elements rather than none |
| PySlice.ReversedTwice | emberpy/emberpy.py:92-93 | reversing twice gives back the sequence |
| Frames.HalfWindow | emberpy/emberpy.py:82 | `int(n/(zoom*2))` is at most half the axis for a zoom of at least 1, and exactly `int(n/2)` at zoom 1 |
| Frames.WindowStart | emberpy/emberpy.py:81-84 | the window's first index lies in the axis; for a zoom of at least 1 it is `n/2 - a` unclamped and at or before the centre, and 0 at zoom 1 |
| Frames.WindowLen | emberpy/emberpy.py:82-85 | the zoom window along an axis ends inside the axis |
| Frames.Crop | emberpy/emberpy.py:81-87 | the crop is well-formed, has the window's shape, and pixel `(i, j)` is the input's pixel at the window start plus `(i, j)` |
| Frames.Transpose | emberpy/emberpy.py:91 | transposing exchanges the dimensions and puts pixel `(j, i)` at `(i, j)` |
| Frames.MirrorH | emberpy/emberpy.py:92 | `[:, ::-1]` keeps the shape and reverses every row |
| Frames.MirrorV | emberpy/emberpy.py:93 | `[::-1, :]` keeps the shape and reverses the row order |
| Frames.AxisWindow | emberpy/emberpy.py:82-85 | for zoom `z >= 1` an axis keeps `[n/2 - a, min(n, n/2 + a + 1))` with `a = n/(2z)`; the window is in bounds, no longer than the axis, and non-empty when the axis is non-empty |
| Frames.CropWindow | emberpy/emberpy.py:82-87 | for zoom `z >= 1` the crop keeps rows `[A/2-a, min(A, A/2+a+1))` and columns `[B/2-b, min(B, B/2+b+1))`; it is no larger than the input, non-empty when the input is, and shows those pixels unmoved |
| Frames.CropZoomOne | emberpy/emberpy.py:81-87 | zoom 1 returns the whole frame unchanged, for odd and even dimensions |
| Frames.TransposeTwice | emberpy/emberpy.py:91 | transposing twice is the identity |
| Frames.MirrorHTwice | emberpy/emberpy.py:92 | mirroring columns twice is the identity |
| Frames.MirrorVTwice | emberpy/emberpy.py:93 | mirroring rows twice is the identity |
| Frames.MirrorsCommute | emberpy/emberpy.py:92-93 | the two mirrors commute |
| Frames.TransposeThenMirrorH | emberpy/emberpy.py:91-92 | a column mirror after the transpose is a row mirror before it |
| Frames.TransposeThenMirrorV | emberpy/emberpy.py:91-93 | a row mirror after the transpose is a column mirror before it |
| Reticle.ClampIndex | emberpy.py:74-82 | on a non-empty axis the clamped centre lies in `[0, n)`, and an in-range coordinate is kept |
| Reticle.ClampNearest | emberpy/emberpy.py:116-124 | the clamped centre is the in-bounds index nearest the requested one |
| Reticle.PaintColumn3 | emberpy/emberpy.py:127-128 | `frame[lo:hi, X, :] = 255` sets every channel of rows `[lo, hi)` in column `X` to 255 and keeps every other value |
| Reticle.PaintRow3 | emberpy/emberpy.py:129-130 | `frame[Y, lo:hi, :] = 255` sets every channel of columns `[lo, hi)` in row `Y` to 255 and keeps every other value |
| Reticle.PaintColumn2 | emberpy/emberpy.py:132-133 | `frame[lo:hi, X] = 255` sets rows `[lo, hi)` of column `X` to 255 and keeps every other value |
| Reticle.PaintRow2 | emberpy/emberpy.py:134-135 | `frame[Y, lo:hi] = 255` sets columns `[lo, hi)` of row `Y` to 255 and keeps every other value |
| Reticle.PaintColorCross | emberpy/emberpy.py:126-130 | after the four colour slice assignments, a pixel is 255 exactly when it is on the colour cross; every other value is kept |
| Reticle.PaintGrayCross | emberpy.py:89-93 | after the four grayscale slice assignments, a pixel is 255 exactly when it is on the grayscale cross; every other value is kept |
| Reticle.DrawReticleColor | emberpy/emberpy.py:112-130 | with `x` or `y` missing the frame is unchanged; an empty frame raises `IndexError` and is unchanged; otherwise the cross around the clamped centre becomes 255 in every channel and nothing else changes |
| Reticle.DrawReticleGray | emberpy.py:70-93 | the same for a 2-D frame, each arm the numpy slice of `length` positions beside the gap (at most `length` pixels; near the top or left edge the arm before the gap vanishes or wraps to the far end) |
| Reticle.PaintedOnlyOnCross | emberpy/emberpy.py:126-135 | only pixels in row `Y` or column `X` are ever painted |
| Reticle.ColorArms | emberpy/emberpy.py:127-130 | with `offset <= Y`, `offset <= X`: column `X` is painted exactly on rows `[0, Y-offset)` and `[Y+offset, A)`, and row `Y` exactly on columns `[0, X-offset)` and `[X+offset, B)`; with a positive gap the centre is untouched |
| Reticle.ColorGapWrapsNearEdge | emberpy/emberpy.py:127 | with `Y < offset < A` the negative stop `Y-offset` wraps to `A+Y-offset` and the upper arm paints through the centre |
| Reticle.GrayArmVanishesNearEdge | emberpy.py:90 | with `offset <= Y < offset + length <= A` the upper grayscale arm's start wraps past its stop, so nothing above the gap is painted in column `X` |
| Reticle.GrayArmWrapsNearEdge | emberpy.py:90 | with `Y < offset` and `offset + length <= A` the upper grayscale arm is painted in full at the far end of column `X`, rows `[A+Y-offset-length, A+Y-offset)` |
| Reticle.GrayArmsAtMost | emberpy.py:89-93 | each grayscale arm covers at most `length` pixels, whatever its bounds do |
| Reticle.GrayArms | emberpy.py:90-93 | when no bound goes negative, the grayscale arms are exactly the `length` positions before the gap and up to `length` positions after it, cut at the edge |
| Reticle.DefaultReticleKeepsCentre | emberpy/emberpy.py:72 | the reticle drawn at `(int(B/2), int(A/2))` with the default gap leaves the centre pixel alone on frames of at least 10 x 10 |
| EmberV2.Contains | emberpy/emberpy.py:148-152 | Python's `p in s` on strings: a text that contains `p` is at least as long as `p` and has `p`'s first character |
| EmberV2.ContainsAt | emberpy/emberpy.py:148-153 | Python's substring test holds exactly when the text occurs at some position |
| EmberV2.BoxLabelsDistinct | emberpy/emberpy.py:33-42 | each of the three box texts occurs in itself and in neither other text |
| EmberV2.Toggle | emberpy/emberpy.py:147-153 | a click never changes the zoom |
| EmberV2.ClickTwice | emberpy/emberpy.py:147-153 | clicking any label twice restores the display state |
| EmberV2.ClickOwnBox | emberpy/emberpy.py:147-153 | clicking a check box flips exactly its own flag and leaves the others unchanged |
| EmberV2.GrabFrame | emberpy/emberpy.py:81-97 | the displayed frame is well-formed |
| EmberV2.GrabShape | emberpy/emberpy.py:81-97 | the displayed frame has the cropped shape, with the dimensions exchanged exactly when the axes are swapped |
| EmberV2.GrabPlain | emberpy/emberpy.py:81-97 | with zoom 0 or 1 and every flag off, the camera frame is shown unchanged |
| EmberV2.GrabToggleMirrorH | emberpy/emberpy.py:92 | toggling "Mirror Hor." mirrors the displayed frame's columns, whatever else is set |
| EmberV2.GrabToggleMirrorV | emberpy/emberpy.py:93 | toggling "Mirror Vert." mirrors the displayed frame's rows, whatever else is set |
| EmberV2.GrabSwap | emberpy/emberpy.py:90-93 | with the axes swapped, the displayed frame is the transpose of the unswapped one with the two mirror flags exchanged |
| EmberV2.Ember.constructor | emberpy/emberpy.py:20-28 | the flags and delay are as given (defaults `delay=0.5` and every flag off) and the zoom starts at 1 |
| EmberV2.Ember.MirrorSwap | emberpy/emberpy.py:147-153 | the new display state is the old one with every flag whose box text occurs in the clicked text flipped; the delay is kept |
| EmberV2.Ember.SetZoom | emberpy/emberpy.py:156-157 | the zoom becomes the slider value unchecked, and nothing else changes |
| EmberV2.Ember.Labels | emberpy/emberpy.py:138-144 | the labels are 'Y' across and 'X' up exactly when the axes are not swapped, and 'X', 'Y' exactly when they are |
| EmberV1.Ember.GrabFrame | emberpy.py:52-59 | a frame the grab returns is well-formed |
| EmberV1.MirrorStep | emberpy.py:55-56 | a mirror slice that succeeds yields a well-formed frame |
| EmberV1.New | emberpy.py:20-38 | an accepted construction records exactly the given settings (defaults `delay=0.5`, `rotate=0`, both mirrors off) |
| EmberV1.Ember.Labels | emberpy.py:95-101 | `label_axes` always names both axes, 'Y', 'X' or 'X', 'Y'; which of the two is settled by `LabelsSwappedExactly` |
| EmberV1.AcceptsMultiples | emberpy.py:35 | every multiple of 90, negative ones included, is accepted |
| EmberV1.AcceptsOnlyMultiples | emberpy.py:35-38 | only multiples of 90 are accepted |
| EmberV1.Arange | emberpy.py:96 | `np.arange(start, stop, step)` holds only values in `[start, stop)`, and is non-empty, starting at `start`, exactly when `start < stop` |
| EmberV1.ArangeMembers | emberpy.py:96 | `x` is in `np.arange(start, stop, step)` exactly when `start <= x < stop` and `x - start` is a multiple of `step` |
| EmberV1.LabelsSwappedExactly | emberpy.py:95-101 | the labels are 'Y', 'X' exactly for odd multiples of 90 in `[-630, 630]`, and 'X', 'Y' otherwise |
| EmberV1.LabelsMissLargeRotations | emberpy.py:35-38 | 810 degrees is accepted by the constructor, yet keeps 'X' across |
| EmberV1.GrabColor | emberpy.py:52-59 | a colour frame keeps its shape, and pixel `(i, j)` comes from the position mirrored by each flag set |
| EmberV1.GrabOther | emberpy.py:53-58 | a 2-D frame passes only with both flags off, otherwise `IndexError`; an empty read raises `TypeError` under a mirror and otherwise keeps the previous frame |
| EmberV1.RotationIgnored | emberpy.py:52-59 | the stored rotation has no effect on the pixels |
| EmberV1.MatchesCurrentRevision | emberpy.py:52-59 | on colour frames the old grab equals the current pipeline with zoom 0 and no swap |

## Left out

- Camera access is not modelled: `cv2.VideoCapture`, `camera.read()`, and the current revision's loop that waits for a non-`None` frame. The frame read is a parameter, and it may be `None` for the old revision.
- `cv2.cvtColor(..., COLOR_BGR2RGB)` is a foreign library call. The modelled grab stops before it.
- All matplotlib work is not modelled: figures, axes, `CheckButtons`, `Slider`, `imshow`, `cla`, `canvas.draw`, `mpl_connect`, `pause`, `ion`, `ioff`. `label_axes` returns its two labels instead of setting them on the axes.
- `enter`, `draw_im`, `key_grab`, `close` and `exit()` are not modelled. They are the redraw loop and process lifecycle. `DefaultReticleKeepsCentre` covers the reticle call that `draw_im` makes.
- `_find_click` and `_show_spot` are testing helpers; the argparse block and `setup.py` are not part of this model.
- `new_frame` is not a field of the model's `Ember`: the grab returns the frame, and the painter takes the frame buffer as a parameter.
- `draw_reticle` on an array that is not 2-D or 3-D is not modelled: with 4 or more dimensions the source only clamps the centre; with 0 or 1 dimensions unpacking `shape[:2]` raises `ValueError`.
- Pixel values are unbounded integers; the 8-bit `dtype` of camera frames plays no part, since only 255 is written.
- The zoom is an integer. The slider reports values from `[1, 2, 3, 4]` (its `valstep` list), and `int(A/(zoom*2))` on those agrees with integer truncation. Floating-point rounding of that division is not modelled. Zoom 0 skips the crop, as in the source.
- The old revision's `rotate` is an integer (the command line passes `int(float(...))`). A fractional rotation passed from code is not modelled.
- The camera index and the constructor's camera, figure and widget setup are not modelled; of `__init__` only the recorded settings are.
- EmberV1.Ember.GrabFrame requires a well-formed frame (rectangular rows), which a numpy array always is.
