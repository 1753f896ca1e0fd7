/** The stroke actuator: a `Pen` drives the stylus digitizer through an evdev
    device, which this model records as the log of events written to it. */
module Pen {
  import opened Base
  import opened Arith
  import opened Events
  import opened Device

  /** The drawing canvas is VIRTUAL_WIDTH x VIRTUAL_HEIGHT for every variant. */
  const VIRTUAL_WIDTH := 768
  const VIRTUAL_HEIGHT := 1024

  const FULL_PRESSURE := 2630
  const HOVER_DISTANCE := 100

  /** Raw maximum of the digitizer's X axis. */
  function MaxXValue(m: DeviceModel): (r: int)
    ensures r > 0
    ensures r == if m == RemarkablePaperPro then 11180 else 15725
  {
    match m
    case Remarkable2 => 15725
    case RemarkablePaperPro => 11180
    case Unknown => 15725
  }

  /** Raw maximum of the digitizer's Y axis. */
  function MaxYValue(m: DeviceModel): (r: int)
    ensures r > 0
    ensures r == if m == RemarkablePaperPro then 15340 else 20966
  {
    match m
    case Remarkable2 => 20966
    case RemarkablePaperPro => 15340
    case Unknown => 20966
  }

  /** Canvas to digitizer. The Paper Pro scales each axis; the other variants swap
      the axes and invert the canvas Y axis. Read in exact arithmetic, truncated
      toward zero as the `as i32` casts are. */
  function VirtualToInput(m: DeviceModel, p: Point): (r: Point)
    ensures 0 <= p.0 <= VIRTUAL_WIDTH && 0 <= p.1 <= VIRTUAL_HEIGHT ==>
      if m == RemarkablePaperPro then 0 <= r.0 <= MaxXValue(m) && 0 <= r.1 <= MaxYValue(m)
      else 0 <= r.0 <= MaxYValue(m) && 0 <= r.1 <= MaxXValue(m)
  {
    match m
    case RemarkablePaperPro =>
      (TruncDiv(p.0 * MaxXValue(m), VIRTUAL_WIDTH), TruncDiv(p.1 * MaxYValue(m), VIRTUAL_HEIGHT))
    case _ =>
      (TruncDiv((VIRTUAL_HEIGHT - p.1) * MaxYValue(m), VIRTUAL_HEIGHT), TruncDiv(p.0 * MaxXValue(m), VIRTUAL_WIDTH))
  }

  /** An unknown device gets the reMarkable 2's axes, transform and device file. */
  lemma UnknownActsAsRemarkable2(p: Point)
    ensures MaxXValue(Unknown) == MaxXValue(Remarkable2) && MaxYValue(Unknown) == MaxYValue(Remarkable2)
    ensures VirtualToInput(Unknown, p) == VirtualToInput(Remarkable2, p)
    ensures PenInputDevice(Unknown) == PenInputDevice(Remarkable2)
  {
  }

  /** The canvas corners land on the corners of the digitizer's range. */
  lemma VirtualCorners(m: DeviceModel)
    ensures m == RemarkablePaperPro ==>
      VirtualToInput(m, (0, 0)) == (0, 0) &&
      VirtualToInput(m, (VIRTUAL_WIDTH, VIRTUAL_HEIGHT)) == (MaxXValue(m), MaxYValue(m))
    ensures m != RemarkablePaperPro ==>
      VirtualToInput(m, (0, 0)) == (MaxYValue(m), 0) &&
      VirtualToInput(m, (VIRTUAL_WIDTH, VIRTUAL_HEIGHT)) == (0, MaxXValue(m))
  {
  }

  /** The axis scale factors exceed twice the canvas size's division step, so distinct
      canvas points reach distinct digitizer points. */
  lemma {:induction false} VirtualToInputInjective(m: DeviceModel, p: Point, q: Point)
    requires p != q
    ensures VirtualToInput(m, p) != VirtualToInput(m, q)
  {
    if p.0 != q.0 {
      var d := p.0 * MaxXValue(m) - q.0 * MaxXValue(m);
      assert d == (p.0 - q.0) * MaxXValue(m);
      assert d >= MaxXValue(m) || d <= -MaxXValue(m);
      if TruncDiv(p.0 * MaxXValue(m), VIRTUAL_WIDTH) == TruncDiv(q.0 * MaxXValue(m), VIRTUAL_WIDTH) {
        TruncDivSeparates(p.0 * MaxXValue(m), q.0 * MaxXValue(m), VIRTUAL_WIDTH);
      }
    } else {
      if m == RemarkablePaperPro {
        var d := p.1 * MaxYValue(m) - q.1 * MaxYValue(m);
        assert d == (p.1 - q.1) * MaxYValue(m);
        assert d >= MaxYValue(m) || d <= -MaxYValue(m);
        if TruncDiv(p.1 * MaxYValue(m), VIRTUAL_HEIGHT) == TruncDiv(q.1 * MaxYValue(m), VIRTUAL_HEIGHT) {
          TruncDivSeparates(p.1 * MaxYValue(m), q.1 * MaxYValue(m), VIRTUAL_HEIGHT);
        }
      } else {
        var a, b := (VIRTUAL_HEIGHT - p.1) * MaxYValue(m), (VIRTUAL_HEIGHT - q.1) * MaxYValue(m);
        assert a - b == (q.1 - p.1) * MaxYValue(m);
        assert a - b >= MaxYValue(m) || a - b <= -MaxYValue(m);
        if TruncDiv(a, VIRTUAL_HEIGHT) == TruncDiv(b, VIRTUAL_HEIGHT) {
          TruncDivSeparates(a, b, VIRTUAL_HEIGHT);
        }
      }
    }
  }

  // ----- Event batches -----

  /** What the pen does at one call: press, lift, or move to a digitizer point. */
  datatype Stroke = Down | Up | Goto(x: int, y: int)

  function PenDownEvents(): seq<Event>
  {
    [KeyEvent(BTN_TOOL_PEN, 1), KeyEvent(BTN_TOUCH, 1), AbsEvent(ABS_PRESSURE, FULL_PRESSURE), AbsEvent(ABS_DISTANCE, 0), Syn()]
  }

  function PenUpEvents(): seq<Event>
  {
    [AbsEvent(ABS_PRESSURE, 0), AbsEvent(ABS_DISTANCE, HOVER_DISTANCE), KeyEvent(BTN_TOUCH, 0), KeyEvent(BTN_TOOL_PEN, 0), Syn()]
  }

  function GotoEvents(x: int, y: int): seq<Event>
  {
    [AbsEvent(ABS_X, x), AbsEvent(ABS_Y, y), Syn()]
  }

  /** The batch one stroke writes. */
  function StrokeEvents(s: Stroke): seq<Event>
  {
    match s
    case Down => PenDownEvents()
    case Up => PenUpEvents()
    case Goto(x, y) => GotoEvents(x, y)
  }

  /** The events a sequence of strokes writes, batch after batch. */
  function Flatten(ss: seq<Stroke>): seq<Event>
  {
    if ss == [] then [] else StrokeEvents(ss[0]) + Flatten(ss[1..])
  }

  lemma {:induction false} FlattenAppend(a: seq<Stroke>, b: seq<Stroke>)
    ensures Flatten(a + b) == Flatten(a) + Flatten(b)
  {
    if a == [] {
      assert a + b == b;
    } else {
      assert (a + b)[1..] == a[1..] + b;
      FlattenAppend(a[1..], b);
    }
  }

  /** The device after the strokes `ss`. */
  function Emit(device: Option<seq<Event>>, ss: seq<Stroke>): Option<seq<Event>>
  {
    Send(device, Flatten(ss))
  }

  lemma EmitAppend(device: Option<seq<Event>>, a: seq<Stroke>, b: seq<Stroke>)
    ensures Emit(Emit(device, a), b) == Emit(device, a + b)
  {
    FlattenAppend(a, b);
    SendAppend(device, Flatten(a), Flatten(b));
  }

  lemma EmitNothing(device: Option<seq<Event>>)
    ensures Emit(device, []) == device
  {
    if device.Some? {
      assert device.value + [] == device.value;
    }
  }

  lemma EmitOne(device: Option<seq<Event>>, s: Stroke)
    ensures Emit(device, [s]) == Send(device, StrokeEvents(s))
  {
    assert [s][1..] == [];
    assert Flatten([s]) == StrokeEvents(s) + Flatten([]);
    assert StrokeEvents(s) + [] == StrokeEvents(s);
  }

  /** With no device (no-draw mode) nothing is written, whatever the strokes. */
  lemma NoDeviceWritesNothing(ss: seq<Stroke>)
    ensures Emit(None, ss) == None
  {
  }

  /** The events of a run of moves: one three-record goto batch per move, in order. */
  lemma {:induction false} FlattenMoves(ss: seq<Stroke>)
    requires OnlyMoves(ss)
    ensures |Flatten(ss)| == 3 * |ss|
    ensures forall n :: 0 <= n < |ss| ==> Flatten(ss)[3 * n..3 * n + 3] == GotoEvents(ss[n].x, ss[n].y)
  {
    if ss != [] {
      var rest := ss[1..];
      FlattenMoves(rest);
      var f := Flatten(ss);
      assert f == GotoEvents(ss[0].x, ss[0].y) + Flatten(rest);
      forall n | 0 <= n < |ss|
        ensures f[3 * n..3 * n + 3] == GotoEvents(ss[n].x, ss[n].y)
      {
        if n > 0 {
          assert f[3 * n..3 * n + 3] == Flatten(rest)[3 * (n - 1)..3 * (n - 1) + 3];
          assert ss[n] == rest[n - 1];
        }
      }
    }
  }

  /** Replays strokes from a pen state (true: pressed). A press while the pen is
      already pressed yields `None`; otherwise the result is the final pen state. */
  function Replay(ss: seq<Stroke>, down: bool): Option<bool>
  {
    if ss == [] then Some(down)
    else match ss[0]
      case Down => if down then None else Replay(ss[1..], true)
      case Up => Replay(ss[1..], false)
      case Goto(_, _) => Replay(ss[1..], down)
  }

  lemma {:induction false} ReplayAppend(a: seq<Stroke>, b: seq<Stroke>, down: bool)
    ensures Replay(a + b, down) ==
      match Replay(a, down)
      case None => None
      case Some(d) => Replay(b, d)
  {
    if a == [] {
      assert a + b == b;
    } else {
      assert (a + b)[0] == a[0] && (a + b)[1..] == a[1..] + b;
      match a[0]
      case Down => if !down { ReplayAppend(a[1..], b, true); }
      case Up => ReplayAppend(a[1..], b, false);
      case Goto(_, _) => ReplayAppend(a[1..], b, down);
    }
  }

  /** How many times the stroke `s` occurs in `ss`. */
  function Count(ss: seq<Stroke>, s: Stroke): nat
  {
    if ss == [] then 0 else (if ss[0] == s then 1 else 0) + Count(ss[1..], s)
  }

  lemma {:induction false} CountAppend(a: seq<Stroke>, b: seq<Stroke>, s: Stroke)
    ensures Count(a + b, s) == Count(a, s) + Count(b, s)
  {
    if a == [] {
      assert a + b == b;
    } else {
      assert (a + b)[0] == a[0] && (a + b)[1..] == a[1..] + b;
      CountAppend(a[1..], b, s);
    }
  }

  /** A single stroke: a press from a pressed pen fails, a press or lift sets the
      state, a move keeps it; it occurs once in itself. */
  lemma StrokeOne(s: Stroke, down: bool)
    ensures Replay([s], down) == match s
      case Down => if down then None else Some(true)
      case Up => Some(false)
      case Goto(_, _) => Some(down)
    ensures forall t :: Count([s], t) == if s == t then 1 else 0
  {
    assert [s][1..] == [];
  }

  /** Replaying a concatenation from the state the first part leaves. */
  lemma ReplayThen(a: seq<Stroke>, b: seq<Stroke>, down: bool, mid: bool)
    requires Replay(a, down) == Some(mid)
    ensures Replay(a + b, down) == Replay(b, mid)
  {
    ReplayAppend(a, b, down);
  }

  function Bit(b: bool): int
  {
    if b then 1 else 0
  }

  /** The stroke-level pen state is what the input subsystem sees: after the events
      of a replayable stroke sequence, BTN_TOUCH and BTN_TOOL_PEN hold the final state. */
  lemma {:induction false} ReplayMatchesContact(ss: seq<Stroke>, down: bool, final: bool)
    requires Replay(ss, down) == Some(final)
    ensures Level(Flatten(ss), Key, BTN_TOUCH, Bit(down)) == Bit(final)
    ensures Level(Flatten(ss), Key, BTN_TOOL_PEN, Bit(down)) == Bit(final)
  {
    if ss != [] {
      var next := match ss[0] case Down => true case Up => false case Goto(_, _) => down;
      assert Replay(ss[1..], next) == Some(final);
      ReplayMatchesContact(ss[1..], next, final);
      BatchContact(ss[0], down);
      LevelAppend(StrokeEvents(ss[0]), Flatten(ss[1..]), Key, BTN_TOUCH, Bit(down));
      LevelAppend(StrokeEvents(ss[0]), Flatten(ss[1..]), Key, BTN_TOOL_PEN, Bit(down));
    }
  }

  /** The contact signals after one batch: pressed after `pen_down`, released after
      `pen_up`, kept by a goto. */
  lemma BatchContact(s: Stroke, down: bool)
    ensures var next := match s case Down => true case Up => false case Goto(_, _) => down;
      Level(StrokeEvents(s), Key, BTN_TOUCH, Bit(down)) == Bit(next) &&
      Level(StrokeEvents(s), Key, BTN_TOOL_PEN, Bit(down)) == Bit(next)
  {
    var e := StrokeEvents(s);
    match s
    case Down =>
      assert e == [] + [e[0]] + e[1..];
      LevelSetBy([], e[0], e[1..], Key, BTN_TOOL_PEN, Bit(down));
      assert e == e[..1] + [e[1]] + e[2..];
      LevelSetBy(e[..1], e[1], e[2..], Key, BTN_TOUCH, Bit(down));
    case Up =>
      assert e == e[..2] + [e[2]] + e[3..];
      LevelSetBy(e[..2], e[2], e[3..], Key, BTN_TOUCH, Bit(down));
      assert e == e[..3] + [e[3]] + e[4..];
      LevelSetBy(e[..3], e[3], e[4..], Key, BTN_TOOL_PEN, Bit(down));
    case Goto(x, y) =>
      LevelUntouched(e, Key, BTN_TOUCH, Bit(down));
      LevelUntouched(e, Key, BTN_TOOL_PEN, Bit(down));
  }

  /** A stroke sequence that only moves. */
  predicate OnlyMoves(ss: seq<Stroke>)
  {
    forall i :: 0 <= i < |ss| ==> ss[i].Goto?
  }

  lemma {:induction false} ReplayOnlyMoves(ss: seq<Stroke>, down: bool)
    requires OnlyMoves(ss)
    ensures Replay(ss, down) == Some(down)
    ensures Count(ss, Down) == 0 && Count(ss, Up) == 0
  {
    if ss != [] {
      assert ss == [ss[0]] + ss[1..];
      ReplayOnlyMoves(ss[1..], down);
    }
  }

  // ----- draw_line -----

  /** Interpolation steps of `draw_line`: the exact ceiling of the segment's length. */
  function LineSteps(p1: Point, p2: Point): nat
  {
    CeilRootOver(Sq(p2.0 - p1.0) + Sq(p2.1 - p1.1), 1)
  }

  /** The moves of `draw_line(p1, p2)`: `steps` gotos, the i-th at p1 + i * (dx, dy)
      with the per-step offsets truncated toward zero. Coinciding endpoints give zero
      steps and a division by zero in the source, hence the precondition. */
  function LineStrokes(p1: Point, p2: Point): seq<Stroke>
    requires p1 != p2
  {
    var steps := LineSteps(p1, p2);
    LineStepsPositive(p1, p2);
    var dx := TruncDiv(p2.0 - p1.0, steps);
    var dy := TruncDiv(p2.1 - p1.1, steps);
    Moves(p1, dx, dy, steps)
  }

  /** `steps` gotos from p, the i-th offset by i * (dx, dy). */
  function Moves(p: Point, dx: int, dy: int, steps: nat): seq<Stroke>
  {
    seq(steps, i => Goto(p.0 + dx * i, p.1 + dy * i))
  }

  /** The events of the first i + 1 moves extend those of the first i by one goto batch. */
  lemma MovesSnoc(p: Point, dx: int, dy: int, steps: nat, i: nat)
    requires i < steps
    ensures Flatten(Moves(p, dx, dy, steps)[..i + 1]) ==
      Flatten(Moves(p, dx, dy, steps)[..i]) + GotoEvents(p.0 + dx * i, p.1 + dy * i)
  {
    var s := Moves(p, dx, dy, steps);
    assert s[..i + 1] == s[..i] + [s[i]];
    FlattenAppend(s[..i], [s[i]]);
    assert Flatten([s[i]]) == StrokeEvents(s[i]) + Flatten([]);
  }

  /** Moves with offsets of at most k start at p, only move, and advance at most k
      units per step along each axis. */
  lemma MovesShape(p: Point, dx: int, dy: int, steps: nat, k: int)
    requires steps >= 1 && 0 <= k && -k <= dx <= k && -k <= dy <= k
    ensures Moves(p, dx, dy, steps)[0] == Goto(p.0, p.1)
    ensures OnlyMoves(Moves(p, dx, dy, steps))
    ensures forall i :: 0 <= i < steps - 1 ==>
      -k <= Moves(p, dx, dy, steps)[i + 1].x - Moves(p, dx, dy, steps)[i].x <= k &&
      -k <= Moves(p, dx, dy, steps)[i + 1].y - Moves(p, dx, dy, steps)[i].y <= k
  {
    var s := Moves(p, dx, dy, steps);
    forall i | 0 <= i < steps - 1
      ensures -k <= s[i + 1].x - s[i].x <= k && -k <= s[i + 1].y - s[i].y <= k
    {
      NextMultiple(dx, i);
      NextMultiple(dy, i);
    }
  }

  lemma LineStepsPositive(p1: Point, p2: Point)
    requires p1 != p2
    ensures LineSteps(p1, p2) >= 1
  {
    CeilSqrtLegs(p2.0 - p1.0, p2.1 - p1.1);
    CeilSqrtLegs(p2.1 - p1.1, p2.0 - p1.0);
    assert Sq(p2.1 - p1.1) + Sq(p2.0 - p1.0) == Sq(p2.0 - p1.0) + Sq(p2.1 - p1.1);
  }

  /** `draw_line` starts at p1, only moves (it neither presses nor lifts), and every
      step moves at most one digitizer unit along each axis. */
  lemma {:induction false} LineStrokesShape(p1: Point, p2: Point)
    requires p1 != p2
    ensures |LineStrokes(p1, p2)| == LineSteps(p1, p2) >= 1
    ensures LineStrokes(p1, p2)[0] == Goto(p1.0, p1.1)
    ensures OnlyMoves(LineStrokes(p1, p2))
    ensures forall i :: 0 <= i < |LineStrokes(p1, p2)| - 1 ==>
      -1 <= LineStrokes(p1, p2)[i + 1].x - LineStrokes(p1, p2)[i].x <= 1 &&
      -1 <= LineStrokes(p1, p2)[i + 1].y - LineStrokes(p1, p2)[i].y <= 1
  {
    var steps := LineSteps(p1, p2);
    LineStepsPositive(p1, p2);
    LineOffsetsUnit(p1, p2);
    var dx, dy := TruncDiv(p2.0 - p1.0, steps), TruncDiv(p2.1 - p1.1, steps);
    assert LineStrokes(p1, p2) == Moves(p1, dx, dy, steps);
    MovesShape(p1, dx, dy, steps, 1);
  }

  /** The truncated per-step offsets of `draw_line` are -1, 0 or 1. */
  lemma LineOffsetsUnit(p1: Point, p2: Point)
    requires p1 != p2
    ensures LineSteps(p1, p2) >= 1
    ensures -1 <= TruncDiv(p2.0 - p1.0, LineSteps(p1, p2)) <= 1
    ensures -1 <= TruncDiv(p2.1 - p1.1, LineSteps(p1, p2)) <= 1
  {
    LineStepsPositive(p1, p2);
    LineLegsBounded(p1, p2);
    TruncDivUnit(p2.0 - p1.0, LineSteps(p1, p2));
    TruncDivUnit(p2.1 - p1.1, LineSteps(p1, p2));
  }

  /** Neither leg of a segment is longer than its step count. */
  lemma LineLegsBounded(p1: Point, p2: Point)
    ensures Abs(p2.0 - p1.0) <= LineSteps(p1, p2) && Abs(p2.1 - p1.1) <= LineSteps(p1, p2)
  {
    var a, b := p2.0 - p1.0, p2.1 - p1.1;
    CeilSqrtLegs(a, b);
    CeilSqrtLegs(b, a);
    assert Sq(b) + Sq(a) == Sq(a) + Sq(b);
  }

  lemma NextMultiple(d: int, i: int)
    ensures d * (i + 1) == d * i + d
  {
  }

  /** Off the axes the truncated offsets are zero: a segment that is neither
      horizontal nor vertical is drawn as `steps` gotos all at its start point. */
  lemma {:induction false} LineStationaryOffAxis(p1: Point, p2: Point)
    requires p1.0 != p2.0 && p1.1 != p2.1
    ensures forall i :: 0 <= i < |LineStrokes(p1, p2)| ==> LineStrokes(p1, p2)[i] == Goto(p1.0, p1.1)
  {
    var steps := LineSteps(p1, p2);
    LineStepsPositive(p1, p2);
    CeilSqrtLegs(p2.0 - p1.0, p2.1 - p1.1);
    CeilSqrtLegs(p2.1 - p1.1, p2.0 - p1.0);
    assert Sq(p2.1 - p1.1) + Sq(p2.0 - p1.0) == Sq(p2.0 - p1.0) + Sq(p2.1 - p1.1);
    TruncDivSmall(p2.0 - p1.0, steps);
    TruncDivSmall(p2.1 - p1.1, steps);
  }

  /** A horizontal segment steps one unit at a time and stops one unit short of p2. */
  lemma {:induction false} LineHorizontal(p1: Point, p2: Point)
    requires p1.1 == p2.1 && p1.0 < p2.0
    ensures LineStrokes(p1, p2) == seq(p2.0 - p1.0, i => Goto(p1.0 + i, p1.1))
  {
    CeilSqrtAxis(p2.0 - p1.0);
    assert p2.1 - p1.1 == 0;
    var steps := LineSteps(p1, p2);
    assert steps == p2.0 - p1.0;
    assert TruncDiv(p2.0 - p1.0, steps) == 1;
    assert TruncDiv(p2.1 - p1.1, steps) == 0;
  }

  // ----- draw_bitmap -----

  /** The goto `goto_xy_virtual` writes for canvas point (x, y). */
  function VirtualGoto(m: DeviceModel, x: int, y: int): Stroke
  {
    var q := VirtualToInput(m, (x, y));
    Goto(q.0, q.1)
  }

  /** One pixel of the scan, from pen state `down`: an ink pixel moves to itself,
      presses if the pen is up, and drags over itself; a blank pixel lifts a
      pressed pen. Returns the strokes and the new pen state. */
  function PixelStep(m: DeviceModel, x: int, y: int, ink: bool, down: bool): (r: (seq<Stroke>, bool))
    ensures r.1 == ink
    ensures forall k :: 0 <= k < |r.0| ==>
      r.0[k].Goto? || (r.0[k] == Down && ink && !down) || (r.0[k] == Up && !ink && down)
    ensures ink ==> |r.0| >= 2 && r.0[|r.0| - 1] == VirtualGoto(m, x + 1, y) && r.0[|r.0| - 2] == VirtualGoto(m, x, y)
    ensures !ink ==> r.0 == if down then [Up] else []
  {
    if ink then
      ((if !down then [VirtualGoto(m, x, y), Down] else []) + [VirtualGoto(m, x, y), VirtualGoto(m, x + 1, y)], true)
    else if down then ([Up], false)
    else ([], down)
  }

  /** The strokes of the first `n` pixels of row `y`, and the pen state after them. */
  function RowScan(m: DeviceModel, row: seq<bool>, y: int, n: nat): (seq<Stroke>, bool)
    requires n <= |row|
  {
    if n == 0 then ([], false)
    else
      var prev := RowScan(m, row, y, n - 1);
      var step := PixelStep(m, n - 1, y, row[n - 1], prev.1);
      (prev.0 + step.0, step.1)
  }

  /** A whole row: the scan, then the unconditional lift at the row's end. */
  function RowStrokes(m: DeviceModel, row: seq<bool>, y: int): seq<Stroke>
  {
    RowScan(m, row, y, |row|).0 + [Up]
  }

  /** The strokes of the first `n` rows of the bitmap. */
  function BitmapScan(m: DeviceModel, bitmap: seq<seq<bool>>, n: nat): seq<Stroke>
    requires n <= |bitmap|
  {
    if n == 0 then [] else BitmapScan(m, bitmap, n - 1) + RowStrokes(m, bitmap[n - 1], n - 1)
  }

  function BitmapStrokes(m: DeviceModel, bitmap: seq<seq<bool>>): seq<Stroke>
  {
    BitmapScan(m, bitmap, |bitmap|)
  }

  /** Pixel x starts a run of ink. */
  predicate RunStart(row: seq<bool>, x: int)
    requires 0 <= x < |row|
  {
    row[x] && (x == 0 || !row[x - 1])
  }

  /** Within a row the flag is_pen_down is exactly the pen state the strokes leave,
      it is set iff the previous pixel was ink, no press happens while pressed, and
      every lift is matched: lifts plus the flag equal presses. */
  lemma {:induction false} RowScanState(m: DeviceModel, row: seq<bool>, y: int, n: nat)
    requires n <= |row|
    ensures RowScan(m, row, y, n).1 == (n > 0 && row[n - 1])
    ensures Replay(RowScan(m, row, y, n).0, false) == Some(RowScan(m, row, y, n).1)
    ensures Count(RowScan(m, row, y, n).0, Up) + Bit(RowScan(m, row, y, n).1) ==
            Count(RowScan(m, row, y, n).0, Down)
  {
    if n > 0 {
      RowScanState(m, row, y, n - 1);
      var prev := RowScan(m, row, y, n - 1);
      var step := PixelStep(m, n - 1, y, row[n - 1], prev.1);
      ReplayThen(prev.0, step.0, false, prev.1);
      PixelStepReplay(m, n - 1, y, row[n - 1], prev.1);
      CountAppend(prev.0, step.0, Down);
      CountAppend(prev.0, step.0, Up);
    }
  }

  /** One pixel step keeps the flag equal to the pen state its strokes leave, presses
      only a lifted pen and lifts only a pressed one. */
  lemma PixelStepReplay(m: DeviceModel, x: int, y: int, ink: bool, down: bool)
    ensures Replay(PixelStep(m, x, y, ink, down).0, down) == Some(PixelStep(m, x, y, ink, down).1)
    ensures Count(PixelStep(m, x, y, ink, down).0, Down) == Bit(ink && !down)
    ensures Count(PixelStep(m, x, y, ink, down).0, Up) == Bit(!ink && down)
  {
    var g, h := VirtualGoto(m, x, y), VirtualGoto(m, x + 1, y);
    if ink && !down {
      assert PixelStep(m, x, y, ink, down).0 == [g, Down, g, h];
      PressAndDrag(g, h);
    } else if ink {
      assert PixelStep(m, x, y, ink, down).0 == [g, h];
      Drag(g, h);
    } else if down {
      StrokeOne(Up, down);
    }
  }

  /** Move, press, and drag over two points: from a lifted pen, one press, no lift. */
  lemma PressAndDrag(g: Stroke, h: Stroke)
    requires g.Goto? && h.Goto?
    ensures Replay([g, Down, g, h], false) == Some(true)
    ensures Count([g, Down, g, h], Down) == 1 && Count([g, Down, g, h], Up) == 0
  {
    assert [g, Down, g, h][1..] == [Down, g, h];
    assert [Down, g, h][1..] == [g, h];
    Drag(g, h);
  }

  /** Two moves keep the pen state and neither press nor lift. */
  lemma Drag(g: Stroke, h: Stroke)
    requires g.Goto? && h.Goto?
    ensures Replay([g, h], true) == Some(true)
    ensures Count([g, h], Down) == 0 && Count([g, h], Up) == 0
  {
    assert [g, h][1..] == [h];
    StrokeOne(h, true);
  }

  /** Every press in a row's scan comes right after a goto to the start of an ink
      run (the same point the press is followed by); presses are one per run. */
  lemma {:induction false} RowPressAtRunStart(m: DeviceModel, row: seq<bool>, y: int, n: nat, i: int)
    requires n <= |row| && 0 <= i < |RowScan(m, row, y, n).0| && RowScan(m, row, y, n).0[i] == Down
    ensures 0 < i < |RowScan(m, row, y, n).0| - 1
    ensures RowScan(m, row, y, n).0[i + 1] == RowScan(m, row, y, n).0[i - 1]
    ensures exists x :: 0 <= x < n && RunStart(row, x) && RowScan(m, row, y, n).0[i - 1] == VirtualGoto(m, x, y)
  {
    var prev := RowScan(m, row, y, n - 1);
    var step := PixelStep(m, n - 1, y, row[n - 1], prev.1);
    assert RowScan(m, row, y, n).0 == prev.0 + step.0;
    if i < |prev.0| {
      RowPressAtRunStart(m, row, y, n - 1, i);
      var x :| 0 <= x < n - 1 && RunStart(row, x) && prev.0[i - 1] == VirtualGoto(m, x, y);
      assert RowScan(m, row, y, n).0[i - 1] == VirtualGoto(m, x, y);
    } else {
      RowScanState(m, row, y, n - 1);
      assert RunStart(row, n - 1);
      assert RowScan(m, row, y, n).0[i - 1] == VirtualGoto(m, n - 1, y);
    }
  }

  /** An ink pixel ends its contribution with gotos to (x, y) and (x + 1, y); a blank
      pixel adds no goto, only a lift when the pixel before it was ink. */
  lemma InkPixelGotos(m: DeviceModel, row: seq<bool>, y: int, x: nat)
    requires x < |row|
    ensures row[x] ==> (|RowScan(m, row, y, x + 1).0| >= 2 &&
      RowScan(m, row, y, x + 1).0[|RowScan(m, row, y, x + 1).0| - 2..] == [VirtualGoto(m, x, y), VirtualGoto(m, x + 1, y)])
    ensures !row[x] ==>
      RowScan(m, row, y, x + 1).0 == RowScan(m, row, y, x).0 + (if x > 0 && row[x - 1] then [Up] else [])
  {
    RowScanState(m, row, y, x);
  }

  /** A full row leaves the pen lifted, never presses twice, and lifts at least as
      often as it presses: exactly as often when the row ends in ink, once more
      otherwise. */
  lemma {:induction false} RowStrokesBalanced(m: DeviceModel, row: seq<bool>, y: int)
    ensures Replay(RowStrokes(m, row, y), false) == Some(false)
    ensures Count(RowStrokes(m, row, y), Up) ==
            Count(RowStrokes(m, row, y), Down) + (if |row| > 0 && row[|row| - 1] then 0 else 1)
  {
    var scan := RowScan(m, row, y, |row|);
    RowScanState(m, row, y, |row|);
    ReplayThen(scan.0, [Up], false, scan.1);
    assert [Up][1..] == [];
    CountAppend(scan.0, [Up], Down);
    CountAppend(scan.0, [Up], Up);
    StrokeOne(Up, false);
  }

  /** After every row of `draw_bitmap` the pen is up, it is never pressed twice, and
      lifts are at least as many as presses (at most one more per row). */
  lemma {:induction false} BitmapPenUpAfterEveryRow(m: DeviceModel, bitmap: seq<seq<bool>>, n: nat)
    requires n <= |bitmap|
    ensures Replay(BitmapScan(m, bitmap, n), false) == Some(false)
    ensures Count(BitmapScan(m, bitmap, n), Down) <= Count(BitmapScan(m, bitmap, n), Up) <=
            Count(BitmapScan(m, bitmap, n), Down) + n
  {
    if n > 0 {
      BitmapPenUpAfterEveryRow(m, bitmap, n - 1);
      var prev, row := BitmapScan(m, bitmap, n - 1), RowStrokes(m, bitmap[n - 1], n - 1);
      RowStrokesBalanced(m, bitmap[n - 1], n - 1);
      ReplayThen(prev, row, false, false);
      assert BitmapScan(m, bitmap, n) == prev + row;
      CountAppend(prev, row, Down);
      CountAppend(prev, row, Up);
    }
  }

  // ----- draw_svg -----

  /** The strokes for the move from `prev` to `cur` of a polyline: a `draw_line_virtual`
      when the points differ, nothing when they coincide. */
  function SegmentStrokes(m: DeviceModel, prev: Point, cur: Point): seq<Stroke>
  {
    if prev == cur then []
    else
      VirtualToInputInjective(m, prev, cur);
      LineStrokes(VirtualToInput(m, prev), VirtualToInput(m, cur))
  }

  /** The point each point of a polyline is drawn from: the first from itself. */
  function Previous(polyline: seq<Point>, i: nat): Point
    requires 0 < |polyline| && i < |polyline|
  {
    if i == 0 then polyline[0] else polyline[i - 1]
  }

  /** The segments of the first `n` points of a polyline. */
  function PolylineBody(m: DeviceModel, polyline: seq<Point>, n: nat): seq<Stroke>
    requires 0 < |polyline| && n <= |polyline|
  {
    if n == 0 then []
    else PolylineBody(m, polyline, n - 1) + SegmentStrokes(m, Previous(polyline, n - 1), polyline[n - 1])
  }

  /** The prologue of a polyline: lift, move to its first point, press. */
  function PolylineStart(m: DeviceModel, polyline: seq<Point>): seq<Stroke>
    requires 0 < |polyline|
  {
    [Up, VirtualGoto(m, polyline[0].0, polyline[0].1), Down]
  }

  function PolylineStrokes(m: DeviceModel, polyline: seq<Point>): seq<Stroke>
    requires 0 < |polyline|
  {
    PolylineStart(m, polyline) + PolylineBody(m, polyline, |polyline|) + [Up]
  }

  /** The strokes of the first `n` polylines. */
  function SvgScan(m: DeviceModel, polylines: seq<seq<Point>>, n: nat): seq<Stroke>
    requires n <= |polylines| && forall k :: 0 <= k < |polylines| ==> 0 < |polylines[k]|
  {
    if n == 0 then [] else SvgScan(m, polylines, n - 1) + PolylineStrokes(m, polylines[n - 1])
  }

  function SvgStrokes(m: DeviceModel, polylines: seq<seq<Point>>): seq<Stroke>
    requires forall k :: 0 <= k < |polylines| ==> 0 < |polylines[k]|
  {
    SvgScan(m, polylines, |polylines|)
  }

  /** A segment of a polyline only moves. */
  lemma SegmentMoves(m: DeviceModel, prev: Point, cur: Point)
    ensures OnlyMoves(SegmentStrokes(m, prev, cur))
  {
    if prev != cur {
      VirtualToInputInjective(m, prev, cur);
      var p1, p2 := VirtualToInput(m, prev), VirtualToInput(m, cur);
      LineStepsPositive(p1, p2);
      assert LineStrokes(p1, p2) == Moves(p1, TruncDiv(p2.0 - p1.0, LineSteps(p1, p2)), TruncDiv(p2.1 - p1.1, LineSteps(p1, p2)), LineSteps(p1, p2));
    }
  }

  /** The body of a polyline only moves, and its first point (compared with itself)
      contributes nothing. */
  lemma {:induction false} PolylineBodyMoves(m: DeviceModel, polyline: seq<Point>, n: nat)
    requires 0 < |polyline| && n <= |polyline|
    ensures OnlyMoves(PolylineBody(m, polyline, n))
    ensures n <= 1 ==> PolylineBody(m, polyline, n) == []
  {
    if n > 0 {
      PolylineBodyMoves(m, polyline, n - 1);
      var prev, cur := Previous(polyline, n - 1), polyline[n - 1];
      SegmentMoves(m, prev, cur);
    }
  }

  /** Each polyline: lift, move to the first point, press, only moves while pressed,
      and a final lift; from any pen state it replays to a lifted pen with one press
      and two lifts. */
  lemma {:induction false} PolylineStrokesShape(m: DeviceModel, polyline: seq<Point>, down: bool)
    requires 0 < |polyline|
    ensures Replay(PolylineStrokes(m, polyline), down) == Some(false)
    ensures Count(PolylineStrokes(m, polyline), Down) == 1
    ensures Count(PolylineStrokes(m, polyline), Up) == 2
    ensures OnlyMoves(PolylineStrokes(m, polyline)[3..|PolylineStrokes(m, polyline)| - 1])
  {
    var body := PolylineBody(m, polyline, |polyline|);
    PolylineBodyMoves(m, polyline, |polyline|);
    ReplayOnlyMoves(body, true);
    var s := PolylineStrokes(m, polyline);
    var start := PolylineStart(m, polyline);
    var g := VirtualGoto(m, polyline[0].0, polyline[0].1);
    LiftMovePress(g, down);
    StrokeOne(Up, true);
    assert s == start + (body + [Up]);
    ReplayThen(start, body + [Up], down, true);
    ReplayThen(body, [Up], true, true);
    CountAppend(start, body + [Up], Down);
    CountAppend(start, body + [Up], Up);
    CountAppend(body, [Up], Down);
    CountAppend(body, [Up], Up);
    assert s[3..|s| - 1] == body;
  }

  /** Lift, move, press: from any pen state, a pressed pen, one press and one lift. */
  lemma LiftMovePress(g: Stroke, down: bool)
    requires g.Goto?
    ensures Replay([Up, g, Down], down) == Some(true)
    ensures Count([Up, g, Down], Down) == 1 && Count([Up, g, Down], Up) == 1
  {
    assert [Up, g, Down][1..] == [g, Down];
    assert [g, Down][1..] == [Down];
    StrokeOne(Down, false);
    assert Replay([g, Down], false) == Some(true);
    assert Count([g, Down], Down) == 1 && Count([g, Down], Up) == 0;
  }

  /** Between polylines the pen is always up: after any number of polylines the
      strokes replay to a lifted pen, with one press per polyline and two lifts. */
  lemma {:induction false} SvgPenUpBetweenPolylines(m: DeviceModel, polylines: seq<seq<Point>>, n: nat, down: bool)
    requires n <= |polylines| && forall k :: 0 <= k < |polylines| ==> 0 < |polylines[k]|
    ensures Replay(SvgScan(m, polylines, n), down) == Some(if n == 0 then down else false)
    ensures Count(SvgScan(m, polylines, n), Down) == n
    ensures Count(SvgScan(m, polylines, n), Up) == 2 * n
  {
    if n > 0 {
      SvgPenUpBetweenPolylines(m, polylines, n - 1, down);
      var prev, last := SvgScan(m, polylines, n - 1), PolylineStrokes(m, polylines[n - 1]);
      PolylineStrokesShape(m, polylines[n - 1], if n - 1 == 0 then down else false);
      ReplayThen(prev, last, down, if n - 1 == 0 then down else false);
      CountAppend(prev, last, Down);
      CountAppend(prev, last, Up);
    }
  }

  /** A two-point horizontal polyline on a reMarkable 2, [(0, 0), (10, 0)]: lift,
      goto (0, 0), exactly one press, gotos stepping along the digitizer's Y axis
      from 0 to 203, and one trailing lift. */
  lemma TwoPointPolyline()
    ensures PolylineStrokes(Remarkable2, [(0, 0), (10, 0)]) ==
      [Up, Goto(20966, 0), Down] + seq(204, i => Goto(20966, i)) + [Up]
  {
    var pl := [(0, 0), (10, 0)];
    assert VirtualToInput(Remarkable2, (0, 0)) == (20966, 0);
    assert VirtualToInput(Remarkable2, (10, 0)) == (20966, 204);
    assert PolylineBody(Remarkable2, pl, 1) == [];
    LineHorizontalY((20966, 0), (20966, 204));
  }

  /** A segment along the digitizer's Y axis steps one unit at a time. */
  lemma {:induction false} LineHorizontalY(p1: Point, p2: Point)
    requires p1.0 == p2.0 && p1.1 < p2.1
    ensures LineStrokes(p1, p2) == seq(p2.1 - p1.1, i => Goto(p1.0, p1.1 + i))
  {
    CeilSqrtAxis(p2.1 - p1.1);
    assert Sq(p2.0 - p1.0) + Sq(p2.1 - p1.1) == Sq(p2.1 - p1.1) + Sq(0);
    var steps := LineSteps(p1, p2);
    assert steps == p2.1 - p1.1;
    assert TruncDiv(p2.1 - p1.1, steps) == 1;
    assert TruncDiv(p2.0 - p1.0, steps) == 0;
  }

  // ----- The pen -----

  class Pen {
    /** The pen input device as the log of events written to it; `None` in no-draw mode. */
    var device: Option<seq<Event>>
    const model: DeviceModel
    /** The input device the pen writes to. */
    const devicePath: string

    /** `Pen::new`: the device `PenInputDevice(model)` is opened unless `noDraw`. */
    constructor (noDraw: bool, model: DeviceModel)
      ensures this.model == model && devicePath == PenInputDevice(model)
      ensures device == if noDraw then None else Some([])
    {
      this.model := model;
      devicePath := PenInputDevice(model);
      device := if noDraw then None else Some([]);
    }

    method PenDown()
      modifies this
      ensures device == Emit(old(device), [Down])
    {
      EmitOne(device, Down);
      if device.Some? {
        device := Some(device.value + PenDownEvents());
      }
    }

    method PenUp()
      modifies this
      ensures device == Emit(old(device), [Up])
    {
      EmitOne(device, Up);
      if device.Some? {
        device := Some(device.value + PenUpEvents());
      }
    }

    method GotoXY(p: Point)
      modifies this
      ensures device == Emit(old(device), [Goto(p.0, p.1)])
    {
      EmitOne(device, Goto(p.0, p.1));
      if device.Some? {
        device := Some(device.value + GotoEvents(p.0, p.1));
      }
    }

    method GotoXYVirtual(p: Point)
      modifies this
      ensures device == Emit(old(device), [VirtualGoto(model, p.0, p.1)])
    {
      GotoXY(VirtualToInput(model, p));
    }

    /** `draw_line`: the interpolated gotos, with no press and no lift. */
    method DrawLine(p1: Point, p2: Point)
      requires p1 != p2
      modifies this
      ensures device == Emit(old(device), LineStrokes(p1, p2))
    {
      var steps := LineSteps(p1, p2);
      LineStepsPositive(p1, p2);
      var dx := TruncDiv(p2.0 - p1.0, steps);
      var dy := TruncDiv(p2.1 - p1.1, steps);
      ghost var line := LineStrokes(p1, p2);
      var i := 0;
      EmitNothing(device);
      while i < steps
        invariant 0 <= i <= steps
        invariant |line| == steps
        invariant device == Emit(old(device), line[..i])
      {
        var x := p1.0 + dx * i;
        var y := p1.1 + dy * i;
        assert line[i] == Goto(x, y);
        GotoXY((x, y));
        EmitAppend(old(device), line[..i], [Goto(x, y)]);
        assert line[..i + 1] == line[..i] + [Goto(x, y)];
        i := i + 1;
      }
      assert line[..steps] == line;
    }

    method DrawLineVirtual(p1: Point, p2: Point)
      requires p1 != p2
      modifies this
      ensures device == Emit(old(device), SegmentStrokes(model, p1, p2))
    {
      VirtualToInputInjective(model, p1, p2);
      DrawLine(VirtualToInput(model, p1), VirtualToInput(model, p2));
    }

    /** `draw_bitmap`: the row scan with its pen-state flag, which is false at the
        start of every row (the row before ends with a lift that clears it). */
    method DrawBitmap(bitmap: seq<seq<bool>>)
      modifies this
      ensures device == Emit(old(device), BitmapStrokes(model, bitmap))
    {
      var y := 0;
      EmitNothing(device);
      while y < |bitmap|
        invariant 0 <= y <= |bitmap|
        invariant device == Emit(old(device), BitmapScan(model, bitmap, y))
      {
        ghost var done := BitmapScan(model, bitmap, y);
        DrawRow(bitmap[y], y);
        EmitAppend(old(device), done, RowStrokes(model, bitmap[y], y));
        y := y + 1;
      }
    }

    /** One row of `draw_bitmap`, entered with the flag clear: the pixel scan, then
        the unconditional lift. */
    method DrawRow(row: seq<bool>, y: int)
      modifies this
      ensures device == Emit(old(device), RowStrokes(model, row, y))
    {
      var isPenDown := false;
      var x := 0;
      EmitNothing(device);
      while x < |row|
        invariant 0 <= x <= |row|
        invariant isPenDown == RowScan(model, row, y, x).1
        invariant device == Emit(old(device), RowScan(model, row, y, x).0)
      {
        ghost var sofar := RowScan(model, row, y, x).0;
        ghost var step := PixelStep(model, x, y, row[x], isPenDown);
        isPenDown := DrawPixel(x, y, row[x], isPenDown);
        EmitAppend(old(device), sofar, step.0);
        x := x + 1;
      }
      PenUp();
      isPenDown := false;
      EmitAppend(old(device), RowScan(model, row, y, |row|).0, [Up]);
    }

    /** The body of the `draw_bitmap` scan for pixel (x, y): returns the new flag. */
    method DrawPixel(x: int, y: int, ink: bool, isPenDown: bool) returns (next: bool)
      modifies this
      ensures device == Emit(old(device), PixelStep(model, x, y, ink, isPenDown).0)
      ensures next == PixelStep(model, x, y, ink, isPenDown).1
    {
      var g, h := VirtualGoto(model, x, y), VirtualGoto(model, x + 1, y);
      next := isPenDown;
      if ink {
        if !isPenDown {
          GotoXYVirtual((x, y));
          PenDown();
          next := true;
          EmitAppend(old(device), [g], [Down]);
        } else {
          EmitNothing(old(device));
        }
        ghost var pressed := if !isPenDown then [g, Down] else [];
        assert device == Emit(old(device), pressed);
        GotoXYVirtual((x, y));
        EmitAppend(old(device), pressed, [g]);
        GotoXYVirtual((x + 1, y));
        EmitAppend(old(device), pressed + [g], [h]);
        assert pressed + [g] + [h] == pressed + [g, h];
      } else if isPenDown {
        PenUp();
        next := false;
      } else {
        EmitNothing(device);
      }
    }

    /** `draw_svg` over the polylines the SVG flattens to (each non-empty). */
    method DrawSvg(polylines: seq<seq<Point>>)
      requires forall k :: 0 <= k < |polylines| ==> 0 < |polylines[k]|
      modifies this
      ensures device == Emit(old(device), SvgStrokes(model, polylines))
    {
      var k := 0;
      EmitNothing(device);
      while k < |polylines|
        invariant 0 <= k <= |polylines|
        invariant device == Emit(old(device), SvgScan(model, polylines, k))
      {
        ghost var done := SvgScan(model, polylines, k);
        DrawPolyline(polylines[k]);
        EmitAppend(old(device), done, PolylineStrokes(model, polylines[k]));
        k := k + 1;
      }
    }

    /** One step of a polyline: a `draw_line_virtual` from `prev` to `cur` unless
        the two points coincide. */
    method DrawSegment(prev: Point, cur: Point)
      modifies this
      ensures device == Emit(old(device), SegmentStrokes(model, prev, cur))
    {
      if prev != cur {
        DrawLineVirtual(prev, cur);
      } else {
        EmitNothing(device);
      }
    }

    /** The prologue of a polyline: lift, move to its first point, press. */
    method StartPolyline(first: Point)
      modifies this
      ensures device == Emit(old(device), [Up, VirtualGoto(model, first.0, first.1), Down])
    {
      PenUp();
      GotoXYVirtual(first);
      EmitAppend(old(device), [Up], [VirtualGoto(model, first.0, first.1)]);
      PenDown();
      EmitAppend(old(device), [Up, VirtualGoto(model, first.0, first.1)], [Down]);
      assert [Up, VirtualGoto(model, first.0, first.1)] + [Down] == [Up, VirtualGoto(model, first.0, first.1), Down];
    }

    /** The segments of a polyline, each point drawn from the one before it. */
    method DrawPolylineBody(polyline: seq<Point>)
      requires 0 < |polyline|
      modifies this
      ensures device == Emit(old(device), PolylineBody(model, polyline, |polyline|))
    {
      var previous := polyline[0];
      var i := 0;
      EmitNothing(device);
      while i < |polyline|
        invariant 0 <= i <= |polyline|
        invariant i < |polyline| ==> previous == Previous(polyline, i)
        invariant device == Emit(old(device), PolylineBody(model, polyline, i))
      {
        var point := polyline[i];
        ghost var sofar := PolylineBody(model, polyline, i);
        DrawSegment(previous, point);
        EmitAppend(old(device), sofar, SegmentStrokes(model, previous, point));
        previous := point;
        i := i + 1;
      }
    }

    /** One polyline of `draw_svg`: lift, move to its first point, press, a line from
        each point to the next where they differ, and a final lift. */
    method DrawPolyline(polyline: seq<Point>)
      requires 0 < |polyline|
      modifies this
      ensures device == Emit(old(device), PolylineStrokes(model, polyline))
    {
      StartPolyline(polyline[0]);
      ghost var start := PolylineStart(model, polyline);
      ghost var body := PolylineBody(model, polyline, |polyline|);
      DrawPolylineBody(polyline);
      EmitAppend(old(device), start, body);
      PenUp();
      EmitAppend(old(device), start + body, [Up]);
    }
  }
}
