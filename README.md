# ghostwriter device glue, modelled in Dafny

ghostwriter runs on a reMarkable tablet. It captures the screen from the
framebuffer of the display process. It waits for a touch trigger in the
bottom-right corner. It then writes the answer back by driving a virtual
stylus and virtual touches through evdev input devices. This project models
the parts that turn pixels into input events and touch events into a trigger:

- frame decoding (`encode_png`, `apply_curves`);
- the `Pen`, whose optional device is an event log the drawing methods append to;
- the `Touch` trigger detector and touch synthesiser;
- the bitmap helpers (`svg_to_bitmap` thresholding, `write_bitmap_to_file`);
- the legacy emitters of the screenshot program (`draw_dot`, `draw_line`,
  `screen_to_input`).

Modules, one file each:

- `Base`: `Option`, points, bytes and row-major grid indexing.
- `Arith`: truncating division and exact ceiling square roots. These are the
  exact-arithmetic reading of the f32 computations.
- `Events`: evdev records, a device as the log written to it (`Send`), and the
  level a reader sees for each signal (`Level`).
- `Device`: the model enum and the pen input device path.
- `Frame`: `encode_png`, `apply_curves` and the framebuffer size constants.
- `Pen`: `src/pen.rs`.
- `Touch`: `src/touch.rs`.
- `Util`: `src/util.rs`.
- `Legacy`: the emitters in `src/main.rs`.

The pen methods are proved against a stroke-level specification. A `Stroke`
is `Down`, `Up` or `Goto(x, y)`. Each method ensures that the device becomes
`Emit(old(device), strokes)`, where `strokes` is a specification function of
its inputs:

- `LineStrokes` for `draw_line`;
- `BitmapStrokes` for `draw_bitmap`;
- `SvgStrokes` for `draw_svg`.

The ordering and pen-state properties are proved about those functions with
`Replay`, which runs a stroke sequence from a pen state and fails on a press
while pressed, and with `Count`. `ReplayMatchesContact` ties the stroke level
to the event level: after the events of a replayable sequence, `BTN_TOUCH`
and `BTN_TOOL_PEN` hold the final pen state.

Floats are read in exact arithmetic:

- `x as f32 / 768.0 * max` truncated becomes `TruncDiv(x * max, 768)`.
- `sqrt(...).ceil()` becomes `CeilRootOver`, the least `r` with `(k r)^2 >= n`.
- The middle band of `apply_curves` is computed over reals, then floored.

With this reading the middle band gives 35, 101, 168 and 235 for inputs 12 to
15. Values up to 11 give 0 and values from 16 give 255.

Behaviour of the code that the proofs bring out:

- `draw_line` (both versions) truncates the per-step offset. With
  `steps = ceil(length)` a segment that is neither horizontal nor vertical
  has `dx = dy = 0`. All its gotos are then at the start point
  (`Pen.LineStationaryOffAxis`).
- A horizontal segment of `draw_line` steps one unit at a time and stops one
  unit short of its end (`Pen.LineHorizontal`, `Pen.TwoPointPolyline`).
- `draw_bitmap` lifts the pen at every row end, whether or not it was
  pressed. A row has as many lifts as presses when it ends in ink, and one
  more otherwise (`Pen.RowStrokesBalanced`). "Lifts equal presses" holds
  only for rows that end in ink.
- In `src/touch.rs`, `screen_to_input` sits after the closing brace of
  `impl Touch` although it takes `&self`. It is modelled as the function the
  methods evidently call. Its PaperPro branch and its default branch are the
  same formula (`Touch.ScreenToInputModelIndependent`).
- `encode_png` on a buffer shorter than one sample per pixel indexes out of
  bounds and panics; it does not return a decoding error. `read_framebuffer`
  always supplies exactly `WINDOW_BYTES`, which is enough
  (`Frame.WindowDecodesToOneBytePerPixel`).

## Model

| member | source | states |
|---|---|---|
| Frame.WindowHoldsOneSamplePerPixel | src/main.rs:143-146 | the framebuffer window of WIDTH x HEIGHT two-byte samples is exactly two bytes per output pixel of the 1404 x 1872 image |
| Frame.HighBytes | src/main.rs:210-212 | de-interleaving keeps len/2 bytes, byte i being raw byte 2i+1 |
| Frame.WindowDecodesToOneBytePerPixel | src/main.rs:193-199 | the buffer read_framebuffer fills decodes to exactly one byte per output pixel |
| Frame.ApplyCurves | src/main.rs:241-251 | inputs up to 11 map to 0, inputs from 16 map to 255, and 12..15 map strictly between |
| Frame.SaturatingByte | src/main.rs:250 | the `as u8` cast of the scaled value: negatives give 0, 255 and above give 255, and in between the result is the floor |
| Frame.ApplyCurvesMonotone | src/main.rs:243-250 | the tone curve never decreases |
| Frame.SourceIndex | src/main.rs:220 | the rotated read index of every in-image pixel lies inside the sample buffer |
| Frame.DestIndex | src/main.rs:221 | the row-major write index of every in-image pixel lies inside the output buffer |
| Frame.SourceIndexInjective | src/main.rs:216-223 | the read index determines the pixel, so no sample is read for two pixels |
| Frame.SourceIndexOnto | src/main.rs:216-223 | every sample index is read by exactly the in-image pixel SourcePixel(k) |
| Frame.DestIndexInjective | src/main.rs:216-223 | distinct pixels write distinct output cells |
| Frame.DestIndexOnto | src/main.rs:214-223 | every output cell is written by a pixel of the image |
| Frame.ZeroFrameIsBlack | src/main.rs:209-224 | an all-zero framebuffer decodes to black at every pixel |
| Frame.DecodeFrame | src/main.rs:209-227 | the buffer handed to GrayImage::from_raw has 1404*1872 cells and cell y*1404+x is the tone-curved second byte of the sample at the rotated index |
| Pen.UnknownActsAsRemarkable2 | src/pen.rs:208-222 | an unknown model has the reMarkable 2 axis maxima, transform and device path |
| Device.PenInputDevice | src/pen.rs:24-28 | the Paper Pro's pen is /dev/input/event2; every other variant, Unknown included, uses /dev/input/event1 |
| Pen.MaxXValue | src/pen.rs:208-214 | the digitizer's X maximum: 11180 on the Paper Pro, 15725 on the reMarkable 2 and on unknown devices |
| Pen.MaxYValue | src/pen.rs:216-222 | the digitizer's Y maximum: 15340 on the Paper Pro, 20966 on the reMarkable 2 and on unknown devices |
| Pen.VirtualToInput | src/pen.rs:224-241 | a canvas point in [0,768] x [0,1024] maps into [0, max] on each digitizer axis (the Paper Pro straight, the others swapped and flipped) |
| Pen.VirtualCorners | src/pen.rs:224-241 | the canvas corners map to the digitizer's corners: straight on the Paper Pro, swapped and flipped otherwise |
| Pen.VirtualToInputInjective | src/pen.rs:224-241 | distinct canvas points map to distinct digitizer points, so draw_line_virtual never divides by zero |
| Pen.NoDeviceWritesNothing | src/pen.rs:30-34 | in no-draw mode every pen operation leaves the absent device absent |
| Pen.ReplayMatchesContact | src/pen.rs:166-190 | after the pen_down/pen_up/goto batches of a replayable stroke sequence, BTN_TOUCH and BTN_TOOL_PEN read as the final pen state |
| Pen.FlattenMoves | src/pen.rs:196-206 | a run of gotos writes one [ABS_X, ABS_Y, SYN] batch per move, in order |
| Pen.LineStrokesShape | src/pen.rs:55-79 | draw_line emits exactly ceil(length) >= 1 gotos, the first at p1, none a press or lift, each within one unit of the previous on each axis |
| Pen.LineOffsetsUnit | src/pen.rs:58-60 | the truncated per-step offsets dx and dy are each -1, 0 or 1 |
| Pen.MovesShape | src/pen.rs:70-79 | gotos offset by i * (dx, dy) start at the first point, only move, and advance at most k per step when both offsets are at most k in magnitude |
| Pen.LineStationaryOffAxis | src/pen.rs:58-60 | off the axes the truncated offsets are zero and every goto is at p1 |
| Pen.LineHorizontal | src/pen.rs:55-79 | a horizontal segment steps one unit at a time and ends one unit short of p2 |
| Pen.RowScanState | src/pen.rs:89-105 | within a row is_pen_down is set exactly when the previous pixel is ink, equals the replayed pen state, no press happens while pressed, and lifts plus the flag equal presses |
| Pen.PixelStep | src/pen.rs:90-104 | one pixel of the scan: the new flag is the pixel's ink, a press happens only on ink with the pen up, a lift only on blank with the pen down, an ink pixel ends with gotos to (x, y) and (x+1, y), and a blank pixel writes one lift if pressed and nothing otherwise |
| Pen.RowPressAtRunStart | src/pen.rs:91-95 | every pen_down comes right after a goto to the first pixel of an ink run and is followed by a goto to the same point |
| Pen.InkPixelGotos | src/pen.rs:90-104 | an ink pixel ends with gotos to (x, y) and (x+1, y); a blank pixel adds only a lift, and only after ink |
| Pen.RowStrokesBalanced | src/pen.rs:106-108 | a row leaves the pen up, with as many lifts as presses when it ends in ink and one more otherwise |
| Pen.BitmapPenUpAfterEveryRow | src/pen.rs:87-111 | after every row the pen is up, no press happens while pressed, and presses <= lifts <= presses + rows |
| Pen.PolylineBodyMoves | src/pen.rs:128-140 | the segments of a polyline only move, and its first point (compared with itself) draws nothing |
| Pen.SegmentMoves | src/pen.rs:134-138 | a segment of a polyline, drawn or skipped, only moves |
| Pen.PolylineStrokesShape | src/pen.rs:119-143 | each polyline is lift, goto first point, press, moves only, lift, and from any pen state it replays to a lifted pen with one press and two lifts |
| Pen.SvgPenUpBetweenPolylines | src/pen.rs:113-146 | after any number of polylines the pen is up, with one press and two lifts per polyline |
| Pen.TwoPointPolyline | src/pen.rs:113-146 | the polyline [(0,0),(10,0)] on a reMarkable 2 is lift, goto (20966,0), press, 204 gotos stepping Y from 0 to 203, lift |
| Pen.Pen.constructor | src/pen.rs:20-40 | the device is absent in no-draw mode and otherwise opened empty at the model's path |
| Pen.Pen.PenDown | src/pen.rs:166-177 | appends exactly [TOOL_PEN 1, TOUCH 1, PRESSURE 2630, DISTANCE 0, SYN], or nothing with no device |
| Pen.Pen.PenUp | src/pen.rs:179-190 | appends exactly [PRESSURE 0, DISTANCE 100, TOUCH 0, TOOL_PEN 0, SYN], or nothing with no device |
| Pen.Pen.GotoXY | src/pen.rs:196-206 | appends exactly [ABS_X x, ABS_Y y, SYN], or nothing with no device |
| Pen.Pen.GotoXYVirtual | src/pen.rs:192-194 | a goto to the transformed canvas point |
| Pen.Pen.DrawLine | src/pen.rs:46-85 | the device receives exactly the events of LineStrokes(p1, p2) |
| Pen.Pen.DrawLineVirtual | src/pen.rs:42-44 | draw_line between the transformed endpoints |
| Pen.Pen.DrawBitmap | src/pen.rs:87-111 | the device receives exactly the events of BitmapStrokes, the row scan with its pen-state flag |
| Pen.Pen.DrawRow | src/pen.rs:89-109 | one row: the pixel scan from a clear flag, then the unconditional lift |
| Pen.Pen.DrawPixel | src/pen.rs:90-104 | one pixel of the scan and the new flag |
| Pen.Pen.DrawSvg | src/pen.rs:113-146 | the device receives exactly the events of SvgStrokes over the given polylines |
| Pen.Pen.DrawPolyline | src/pen.rs:117-143 | one polyline: lift, goto first point, press, a line between each pair of differing consecutive points, lift |
| Pen.Pen.StartPolyline | src/pen.rs:123-126 | lift, goto the first point, press |
| Pen.Pen.DrawPolylineBody | src/pen.rs:129-141 | the segments of the polyline, each point drawn from the one before it |
| Pen.Pen.DrawSegment | src/pen.rs:134-138 | a draw_line_virtual between differing points, nothing between equal ones |
| Touch.LatestAppend | src/touch.rs:45-48 | the tracked positions carry over from one fetched batch to the next |
| Touch.LatestAbsent | src/touch.rs:49-54 | records of other codes, such as a release that does not trigger, leave a tracked position unchanged |
| Touch.NoPositionNoTrigger | src/touch.rs:45-58 | both positions start at 0, so a release before any X (or any Y) record never triggers |
| Touch.Fires | src/touch.rs:55-58 | a triggering record is a TRACKING_ID record of value -1; the definition adds the zone test on the last X and Y positions before it (strictly above 1345 and 1815), whose consequences the lemmas below state |
| Touch.FiresByCodeOnly | src/touch.rs:49-56 | records are matched by code alone: streams with equal codes and values trigger at the same records whatever their types |
| Touch.FiresPrefix | src/touch.rs:47-63 | whether a record triggers depends only on the records up to it |
| Touch.GestureTriggersIffInZone | src/touch.rs:55-58 | in a synthesised touch and release, only the release can trigger, and it triggers iff the point is strictly right of 1345 and strictly below 1815 |
| Touch.TapTriggersIffInZone | src/touch.rs:116-123 | the tap's records trigger somewhere exactly when its point is strictly inside the zone |
| Touch.ScreenToInput | src/touch.rs:126-145 | a canvas point in [0,768] x [0,1024] maps into [0, screen width] x [0, screen height], X scaled and Y flipped |
| Touch.ScreenToInputModelIndependent | src/touch.rs:131-144 | the Paper Pro branch and the default branch compute the same point |
| Touch.Touch.constructor | src/touch.rs:31-42 | the device is absent in no-touch mode and otherwise opened empty |
| Touch.Touch.WaitForTrigger | src/touch.rs:44-66 | returns the first record of the fetched stream that is a release (TRACKING_ID -1) while the tracked X > 1345 and Y > 1815, or none when no record does |
| Touch.ScanBatch | src/touch.rs:48-63 | over one fetched batch, given the records before it (none triggering) and their positions: the first triggering record of the batch, or none and the positions the batch leaves |
| Touch.Touch.TouchStart | src/touch.rs:68-87 | appends exactly [SLOT 0, TRACKING_ID 1, POS_X, POS_Y, PRESSURE 100, MAJOR 17, MINOR 17, ORIENTATION 4, SYN] at the transformed point, or nothing with no device |
| Touch.Touch.TouchStop | src/touch.rs:89-100 | appends exactly [SLOT 0, TRACKING_ID -1, SYN], or nothing with no device |
| Touch.Touch.GotoXY | src/touch.rs:102-114 | appends exactly [SLOT 0, TRACKING_ID 1, POS_X, POS_Y, SYN] at the transformed point, or nothing with no device |
| Touch.Touch.TapMiddleBottom | src/touch.rs:116-123 | touch_start at (384, 1000) followed by touch_stop |
| Util.ChooseTree | src/util.rs:15-22 | the parsed input when it parses; otherwise the parsed fallback; an error only when the fallback does not parse either |
| Util.ParseErrorIsNotReturned | src/util.rs:15-22 | once the fallback parses, the input's parse error never escapes and the fallback is rendered instead |
| Util.InkRow | src/util.rs:30 | a pixel is ink iff its alpha is strictly above 128 (alpha 128 is not ink) |
| Util.Threshold | src/util.rs:27-31 | chunks of at most width flags, non-empty exactly when there are pixels |
| Util.ThresholdShape | src/util.rs:24-31 | width*height alphas give height rows of exactly width flags, flag (x, y) being alpha y*width+x > 128 |
| Util.ThresholdRow | src/util.rs:27-31 | for width*height alphas, row y is the thresholded slice y*width .. (y+1)*width |
| Util.SvgToBitmap | src/util.rs:9-34 | given a renderer that fills the width x height pixmap, the bitmap has height rows of width flags with flag (x, y) set iff the chosen tree's alpha at y*width+x exceeds 128; an unparsable input renders the fallback document, and the only failure is a fallback that does not parse |
| Util.WriteBitmap | src/util.rs:36-49 | the image is bitmap[0].len() wide and bitmap.len() high, pixel (x, y) is 0 for ink and 255 for paper, and 0 where a short row has no pixel |
| Util.GrayOfThreshold | src/util.rs:27-48 | writing a thresholded render gives black exactly where the rendered alpha is above 128 |
| Legacy.DotShape | src/main.rs:308-341 | draw_dot writes a contact batch at p, then exactly ten gotos to (x+n, y+n) for n = 0..9, then its release |
| Legacy.DotLeavesToolInRange | src/main.rs:330-338 | after a dot, pressure and touch read 0 but BTN_TOOL_PEN stays at 1 |
| Legacy.DrawDot | src/main.rs:308-341 | appends exactly the events of DotEvents(p) |
| Legacy.LegacyLineStepsBounded | src/main.rs:267-295 | the legacy line's moves start at p1 and advance at most five units per step on each axis |
| Legacy.LegacyOffsetsBounded | src/main.rs:267-272 | the legacy line's truncated per-step offsets are at most five units |
| Legacy.LineLeavesPenLifted | src/main.rs:297-303 | after a legacy line, pressure, touch and tool all read 0 |
| Legacy.DrawLine | src/main.rs:258-306 | appends exactly the contact batch at p1, the interpolated gotos, and the release |
| Legacy.ScreenToInput | src/main.rs:344-352 | a point of the 1404 x 1872 screenshot maps into the 20966 x 15725 digitizer, axes swapped and Y flipped |
| Legacy.ScreenCorners | src/main.rs:344-352 | the screenshot's top-left maps to (20966, 0) and its bottom-right to (0, 15725) |

## Left out

- `main()`, the HTTP request to the model API, JSON, base64 and file writes: network and I/O.
- `find_xochitl_pid` and `find_framebuffer_address`: they run shell commands. The address is read past the mapping start by the fixed offset 7 (`src/main.rs:190`); the model does not use it.
- `read_framebuffer`: the `/proc/<pid>/mem` seek and read. Only its buffer size `WINDOW_BYTES` is modelled.
- PNG encoding (`image` crate), SVG parsing and rendering (`resvg`, `usvg`, `fontdb`) and `svg2polylines::parse`: foreign libraries. The parse is a function parameter, the rendered alphas and the polylines are inputs, and the f64 to i32 truncation of polyline points is assumed already done.
- The evdev calls `Device::open`, `fetch_events` and `send_events`: an open device is the log of records written to it. The records `wait_for_trigger` fetches are given as a sequence of batches.
- All `sleep` calls and log output: timing and diagnostics only.
- `DeviceModel::detect`, `name` and `screen_width`/`screen_height` of `src/device.rs`: that file is not part of this model. The model is a parameter. The touch screen's width and height are positive constants of a `Touch`.
- `src/llm_engine/mod.rs`: a trait declaration with no logic.
- Write failures of `send_events`: every send is modelled as succeeding.
- Pen.VirtualToInput, Pen.LineSteps, Legacy.LegacyLineSteps, Touch.ScreenToInput, Legacy.ScreenToInput and Frame.ApplyCurves use exact arithmetic instead of f32 `sqrt`, division and `as` casts. Results can differ from the f32 ones by rounding. The model makes no bit-exactness claim.
- Pen.Pen.DrawLine, Legacy.DrawLine: i32 overflow of `dx * i` and of the scaled coordinates is not modelled (integers are unbounded). Coinciding endpoints make the source divide by zero; they are excluded by a precondition. `draw_svg` never passes them, which `Pen.VirtualToInputInjective` shows.
- Pen.Pen.DrawSvg: it takes the parsed polylines, each non-empty; `polyline[0]` on an empty polyline would panic in the source.
- Touch.Touch.WaitForTrigger: the source loops until it triggers. The model consumes a finite sequence of batches and returns `None` when none of its records triggers. It requires an open device, since the source unwraps it.
- Util.WriteBitmap: `img.save` is I/O. The image is returned as a 2-D array indexed `[y, x]` instead of the crate's row-major buffer. An empty bitmap, or a row longer than the first, panics in the source and is excluded by precondition.
- Util.SvgToBitmap: a zero width or height makes `Pixmap::new(..).unwrap()` panic; it is excluded by precondition. The renderer is a parameter, and it is required to yield one alpha per pixel of the width x height pixmap, as the library's pixmap does.
