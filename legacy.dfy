/** The earlier, free-standing pen emitters of the screenshot program: a dot, a
    line with steps of length five, and its own canvas-to-digitizer transform.
    They write to an open pen device, modelled as the log they extend. */
module Legacy {
  import opened Base
  import opened Arith
  import opened Events
  import opened Pen
  import Frame

  /** The digitizer extent these emitters assume (a reMarkable 2). */
  const INPUT_WIDTH := 15725
  const INPUT_HEIGHT := 20966

  /** Moves of a dot, and the longest step of a line. */
  const DOT_MOVES := 10
  const LINE_STEP := 5

  /** Move to p and press, in one batch. */
  function ContactEvents(p: Point): seq<Event>
  {
    [AbsEvent(ABS_X, p.0), AbsEvent(ABS_Y, p.1), KeyEvent(BTN_TOOL_PEN, 1), KeyEvent(BTN_TOUCH, 1),
     AbsEvent(ABS_PRESSURE, FULL_PRESSURE), AbsEvent(ABS_DISTANCE, 0), Syn()]
  }

  /** The release of `draw_dot`: pressure and touch cleared in two batches, with
      the tool still reported as a pen in range. */
  function DotReleaseEvents(): seq<Event>
  {
    [AbsEvent(ABS_PRESSURE, 0), AbsEvent(ABS_DISTANCE, 0), Syn(),
     KeyEvent(BTN_TOUCH, 0), KeyEvent(BTN_TOOL_PEN, 1), Syn()]
  }

  /** The release of `draw_line`: pressure, touch and tool cleared, pen hovering. */
  function LineReleaseEvents(): seq<Event>
  {
    [AbsEvent(ABS_PRESSURE, 0), KeyEvent(BTN_TOUCH, 0), KeyEvent(BTN_TOOL_PEN, 0),
     AbsEvent(ABS_DISTANCE, HOVER_DISTANCE), Syn()]
  }

  /** The ten moves of a dot at p: to (x + n, y + n) for n = 0 .. 9. */
  function DotMoves(p: Point): seq<Stroke>
  {
    Moves(p, 1, 1, DOT_MOVES)
  }

  function DotEvents(p: Point): seq<Event>
  {
    ContactEvents(p) + Flatten(DotMoves(p)) + DotReleaseEvents()
  }

  /** `draw_dot` writes a contact batch at p, then exactly ten goto batches, the n-th
      at (x + n, y + n), then its release. */
  lemma DotShape(p: Point)
    ensures |DotEvents(p)| == 7 + 3 * DOT_MOVES + 6
    ensures DotEvents(p)[..7] == ContactEvents(p)
    ensures forall n :: 0 <= n < DOT_MOVES ==> DotEvents(p)[7 + 3 * n..10 + 3 * n] == GotoEvents(p.0 + n, p.1 + n)
    ensures DotEvents(p)[7 + 3 * DOT_MOVES..] == DotReleaseEvents()
  {
    var moves := DotMoves(p);
    FlattenMoves(moves);
    var d := DotEvents(p);
    forall n | 0 <= n < DOT_MOVES
      ensures d[7 + 3 * n..10 + 3 * n] == GotoEvents(p.0 + n, p.1 + n)
    {
      assert d[7 + 3 * n..10 + 3 * n] == Flatten(moves)[3 * n..3 * n + 3];
      assert moves[n] == Goto(p.0 + n, p.1 + n);
    }
  }

  /** Steps of the legacy `draw_line`: the exact ceiling of a fifth of its length. */
  function LegacyLineSteps(p1: Point, p2: Point): nat
  {
    CeilRootOver(Sq(p2.0 - p1.0) + Sq(p2.1 - p1.1), LINE_STEP)
  }

  lemma LegacyLineStepsPositive(p1: Point, p2: Point)
    requires p1 != p2
    ensures LegacyLineSteps(p1, p2) >= 1
  {
    var n := Sq(p2.0 - p1.0) + Sq(p2.1 - p1.1);
    if p2.0 != p1.0 {
      assert Sq(p2.0 - p1.0) > 0;
    } else {
      assert Sq(p2.1 - p1.1) > 0;
    }
    assert n > 0;
  }

  /** The moves of the legacy `draw_line`, offsets truncated toward zero. Coinciding
      endpoints give zero steps and a division by zero, hence the precondition. */
  function LegacyLineMoves(p1: Point, p2: Point): seq<Stroke>
    requires p1 != p2
  {
    var steps := LegacyLineSteps(p1, p2);
    LegacyLineStepsPositive(p1, p2);
    var dx := TruncDiv(p2.0 - p1.0, steps);
    var dy := TruncDiv(p2.1 - p1.1, steps);
    Moves(p1, dx, dy, steps)
  }

  function LegacyLineEvents(p1: Point, p2: Point): seq<Event>
    requires p1 != p2
  {
    ContactEvents(p1) + Flatten(LegacyLineMoves(p1, p2)) + LineReleaseEvents()
  }

  /** The moves of the legacy line start at p1 and advance at most five units per
      step along each axis. */
  lemma {:induction false} LegacyLineStepsBounded(p1: Point, p2: Point)
    requires p1 != p2
    ensures |LegacyLineMoves(p1, p2)| >= 1 && LegacyLineMoves(p1, p2)[0] == Goto(p1.0, p1.1)
    ensures forall i :: 0 <= i < |LegacyLineMoves(p1, p2)| - 1 ==>
      Abs(LegacyLineMoves(p1, p2)[i + 1].x - LegacyLineMoves(p1, p2)[i].x) <= LINE_STEP &&
      Abs(LegacyLineMoves(p1, p2)[i + 1].y - LegacyLineMoves(p1, p2)[i].y) <= LINE_STEP
  {
    var steps := LegacyLineSteps(p1, p2);
    LegacyLineStepsPositive(p1, p2);
    LegacyOffsetsBounded(p1, p2);
    var dx, dy := TruncDiv(p2.0 - p1.0, steps), TruncDiv(p2.1 - p1.1, steps);
    assert LegacyLineMoves(p1, p2) == Moves(p1, dx, dy, steps);
    MovesShape(p1, dx, dy, steps, LINE_STEP);
  }

  /** The truncated per-step offsets of the legacy line are at most five units. */
  lemma LegacyOffsetsBounded(p1: Point, p2: Point)
    requires p1 != p2
    ensures LegacyLineSteps(p1, p2) >= 1
    ensures Abs(TruncDiv(p2.0 - p1.0, LegacyLineSteps(p1, p2))) <= LINE_STEP
    ensures Abs(TruncDiv(p2.1 - p1.1, LegacyLineSteps(p1, p2))) <= LINE_STEP
  {
    var steps := LegacyLineSteps(p1, p2);
    LegacyLineStepsPositive(p1, p2);
    var a, b := p2.0 - p1.0, p2.1 - p1.1;
    CeilRootOverLeg(a, b, LINE_STEP);
    CeilRootOverLeg(b, a, LINE_STEP);
    assert Sq(b) + Sq(a) == Sq(a) + Sq(b);
    TruncDivBound(a, steps, LINE_STEP);
    TruncDivBound(b, steps, LINE_STEP);
  }

  /** After a dot the pen is no longer touching and has no pressure, but the tool
      signal is left at 1: the pen stays reported as in range. */
  lemma DotLeavesToolInRange(log: seq<Event>, p: Point, initial: int)
    ensures Level(log + DotEvents(p), Key, BTN_TOOL_PEN, initial) == 1
    ensures Level(log + DotEvents(p), Key, BTN_TOUCH, initial) == 0
    ensures Level(log + DotEvents(p), Absolute, ABS_PRESSURE, initial) == 0
  {
    var pre := log + ContactEvents(p) + Flatten(DotMoves(p));
    assert log + DotEvents(p) == pre + DotReleaseEvents();
    DotRelease(pre, initial);
  }

  lemma DotRelease(pre: seq<Event>, initial: int)
    ensures Level(pre + DotReleaseEvents(), Key, BTN_TOOL_PEN, initial) == 1
    ensures Level(pre + DotReleaseEvents(), Key, BTN_TOUCH, initial) == 0
    ensures Level(pre + DotReleaseEvents(), Absolute, ABS_PRESSURE, initial) == 0
  {
    var r := DotReleaseEvents();
    assert pre + r == (pre + r[..4]) + [r[4]] + r[5..];
    LevelSetBy(pre + r[..4], r[4], r[5..], Key, BTN_TOOL_PEN, initial);
    assert pre + r == (pre + r[..3]) + [r[3]] + r[4..];
    LevelSetBy(pre + r[..3], r[3], r[4..], Key, BTN_TOUCH, initial);
    assert pre + r == pre + [r[0]] + r[1..];
    LevelSetBy(pre, r[0], r[1..], Absolute, ABS_PRESSURE, initial);
  }

  /** After a legacy line the pen is lifted and out of range. */
  lemma LineLeavesPenLifted(log: seq<Event>, p1: Point, p2: Point, initial: int)
    requires p1 != p2
    ensures Level(log + LegacyLineEvents(p1, p2), Key, BTN_TOOL_PEN, initial) == 0
    ensures Level(log + LegacyLineEvents(p1, p2), Key, BTN_TOUCH, initial) == 0
    ensures Level(log + LegacyLineEvents(p1, p2), Absolute, ABS_PRESSURE, initial) == 0
  {
    var pre := log + ContactEvents(p1) + Flatten(LegacyLineMoves(p1, p2));
    assert log + LegacyLineEvents(p1, p2) == pre + LineReleaseEvents();
    LineRelease(pre, initial);
  }

  lemma LineRelease(pre: seq<Event>, initial: int)
    ensures Level(pre + LineReleaseEvents(), Key, BTN_TOOL_PEN, initial) == 0
    ensures Level(pre + LineReleaseEvents(), Key, BTN_TOUCH, initial) == 0
    ensures Level(pre + LineReleaseEvents(), Absolute, ABS_PRESSURE, initial) == 0
  {
    var r := LineReleaseEvents();
    assert pre + r == (pre + r[..2]) + [r[2]] + r[3..];
    LevelSetBy(pre + r[..2], r[2], r[3..], Key, BTN_TOOL_PEN, initial);
    assert pre + r == (pre + r[..1]) + [r[1]] + r[2..];
    LevelSetBy(pre + r[..1], r[1], r[2..], Key, BTN_TOUCH, initial);
    assert pre + r == pre + [r[0]] + r[1..];
    LevelSetBy(pre, r[0], r[1..], Absolute, ABS_PRESSURE, initial);
  }

  /** `draw_dot`: press at p, ten moves along the diagonal, release. */
  method DrawDot(log: seq<Event>, p: Point) returns (out: seq<Event>)
    ensures out == log + DotEvents(p)
  {
    out := log + ContactEvents(p);
    ghost var head := out;
    ghost var moves := DotMoves(p);
    for n := 0 to DOT_MOVES
      invariant out == head + Flatten(moves[..n])
    {
      out := out + GotoEvents(p.0 + n, p.1 + n);
      MovesSnoc(p, 1, 1, DOT_MOVES, n);
    }
    assert moves[..DOT_MOVES] == moves;
    out := out + DotReleaseEvents();
  }

  /** The legacy `draw_line`: press at p1, the interpolated moves, release. */
  method DrawLine(log: seq<Event>, p1: Point, p2: Point) returns (out: seq<Event>)
    requires p1 != p2
    ensures out == log + LegacyLineEvents(p1, p2)
  {
    var steps := LegacyLineSteps(p1, p2);
    LegacyLineStepsPositive(p1, p2);
    var dx := TruncDiv(p2.0 - p1.0, steps);
    var dy := TruncDiv(p2.1 - p1.1, steps);
    ghost var moves := Moves(p1, dx, dy, steps);
    out := log + ContactEvents(p1);
    ghost var head := out;
    for i := 0 to steps
      invariant out == head + Flatten(moves[..i])
    {
      out := out + GotoEvents(p1.0 + dx * i, p1.1 + dy * i);
      MovesSnoc(p1, dx, dy, steps, i);
    }
    assert moves[..steps] == moves;
    assert moves == LegacyLineMoves(p1, p2);
    out := out + LineReleaseEvents();
  }

  /** The legacy `screen_to_input`: screenshot coordinates (1404 x 1872) to the
      digitizer, axes swapped and the vertical one flipped. */
  function ScreenToInput(p: Point): (r: Point)
    ensures 0 <= p.1 <= Frame.REMARKABLE_HEIGHT ==> 0 <= r.0 <= INPUT_HEIGHT
    ensures 0 <= p.0 <= Frame.REMARKABLE_WIDTH ==> 0 <= r.1 <= INPUT_WIDTH
  {
    ScaleBound(Frame.REMARKABLE_HEIGHT - p.1, INPUT_HEIGHT, Frame.REMARKABLE_HEIGHT);
    ScaleBound(p.0, INPUT_WIDTH, Frame.REMARKABLE_WIDTH);
    (TruncDiv((Frame.REMARKABLE_HEIGHT - p.1) * INPUT_HEIGHT, Frame.REMARKABLE_HEIGHT),
     TruncDiv(p.0 * INPUT_WIDTH, Frame.REMARKABLE_WIDTH))
  }

  /** The screenshot's corners map to the digitizer's: top-left to (INPUT_HEIGHT, 0),
      bottom-right to (0, INPUT_WIDTH). */
  lemma ScreenCorners()
    ensures ScreenToInput((0, 0)) == (INPUT_HEIGHT, 0)
    ensures ScreenToInput((Frame.REMARKABLE_WIDTH, Frame.REMARKABLE_HEIGHT)) == (0, INPUT_WIDTH)
  {
  }
}
