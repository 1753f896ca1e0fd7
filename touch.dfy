/** The touch screen side: detecting the trigger gesture (a release in the
    bottom-right corner) in the stream of multitouch records, and synthesising
    touches on the virtual screen. */
module Touch {
  import opened Base
  import opened Arith
  import opened Events
  import opened Device

  /** The canvas the synthesised touches are addressed in. */
  const CANVAS_WIDTH := 768
  const CANVAS_HEIGHT := 1024

  // Multitouch codes
  const ABS_MT_SLOT := 47
  const ABS_MT_TOUCH_MAJOR := 48
  const ABS_MT_TOUCH_MINOR := 49
  const ABS_MT_ORIENTATION := 52
  const ABS_MT_POSITION_X := 53
  const ABS_MT_POSITION_Y := 54
  const ABS_MT_TRACKING_ID := 57
  const ABS_MT_PRESSURE := 58

  /** The trigger zone: a release strictly right of and strictly below these. */
  const TRIGGER_MIN_X := 1345
  const TRIGGER_MIN_Y := 1815

  // ----- Trigger detection -----

  /** The value last carried by a record with this code, whatever its type, or
      `initial` when none has: the position the trigger loop tracks. */
  function Latest(evs: seq<Event>, code: int, initial: int): int
  {
    if evs == [] then initial
    else if evs[|evs| - 1].code == code then evs[|evs| - 1].value
    else Latest(evs[..|evs| - 1], code, initial)
  }

  /** Tracked positions carry over from one fetched batch to the next. */
  lemma {:induction false} LatestAppend(a: seq<Event>, b: seq<Event>, code: int, initial: int)
    ensures Latest(a + b, code, initial) == Latest(b, code, Latest(a, code, initial))
  {
    if b == [] {
      assert a + b == a;
    } else {
      assert (a + b)[..|a + b| - 1] == a + b[..|b| - 1];
      LatestAppend(a, b[..|b| - 1], code, initial);
    }
  }

  /** No record in `evs` carries this code. */
  predicate CodeAbsent(evs: seq<Event>, code: int)
  {
    forall i :: 0 <= i < |evs| ==> evs[i].code != code
  }

  /** Records of other codes (such as a release that does not trigger) leave the
      tracked value alone. */
  lemma {:induction false} LatestAbsent(evs: seq<Event>, code: int, initial: int)
    requires CodeAbsent(evs, code)
    ensures Latest(evs, code, initial) == initial
  {
    if evs != [] {
      LatestAbsent(evs[..|evs| - 1], code, initial);
    }
  }

  /** The tracked X and Y after `evs`, both starting at 0. */
  function PositionX(evs: seq<Event>): int
  {
    Latest(evs, ABS_MT_POSITION_X, 0)
  }

  function PositionY(evs: seq<Event>): int
  {
    Latest(evs, ABS_MT_POSITION_Y, 0)
  }

  /** Record i of the stream triggers: a release (tracking id -1) while the
      tracked position lies strictly inside the zone. */
  predicate Fires(evs: seq<Event>, i: int)
    ensures Fires(evs, i) ==> 0 <= i < |evs| && evs[i].code == ABS_MT_TRACKING_ID && evs[i].value == -1
  {
    0 <= i < |evs| &&
    evs[i].code == ABS_MT_TRACKING_ID && evs[i].value == -1 &&
    PositionX(evs[..i]) > TRIGGER_MIN_X && PositionY(evs[..i]) > TRIGGER_MIN_Y
  }

  /** Whether a record triggers depends only on the records up to it. */
  lemma FiresPrefix(s: seq<Event>, t: seq<Event>, i: int)
    requires s <= t && 0 <= i < |s|
    ensures Fires(s, i) == Fires(t, i)
  {
    assert s[..i] == t[..i];
  }

  /** Before any X (or any Y) record the tracked value is 0, so no release fires. */
  lemma NoPositionNoTrigger(evs: seq<Event>, i: int)
    requires 0 <= i < |evs|
    requires CodeAbsent(evs[..i], ABS_MT_POSITION_X) || CodeAbsent(evs[..i], ABS_MT_POSITION_Y)
    ensures !Fires(evs, i)
  {
    if CodeAbsent(evs[..i], ABS_MT_POSITION_X) {
      LatestAbsent(evs[..i], ABS_MT_POSITION_X, 0);
    } else {
      LatestAbsent(evs[..i], ABS_MT_POSITION_Y, 0);
    }
  }

  /** Records are matched by code alone: two streams with the same codes and
      values trigger at the same places whatever their record types. */
  lemma {:induction false} LatestByCodeOnly(a: seq<Event>, b: seq<Event>, code: int, initial: int)
    requires |a| == |b|
    requires forall i :: 0 <= i < |a| ==> a[i].code == b[i].code && a[i].value == b[i].value
    ensures Latest(a, code, initial) == Latest(b, code, initial)
  {
    if a != [] {
      LatestByCodeOnly(a[..|a| - 1], b[..|b| - 1], code, initial);
    }
  }

  lemma FiresByCodeOnly(a: seq<Event>, b: seq<Event>, i: int)
    requires |a| == |b|
    requires forall k :: 0 <= k < |a| ==> a[k].code == b[k].code && a[k].value == b[k].value
    ensures Fires(a, i) == Fires(b, i)
  {
    if 0 <= i < |a| {
      LatestByCodeOnly(a[..i], b[..i], ABS_MT_POSITION_X, 0);
      LatestByCodeOnly(a[..i], b[..i], ABS_MT_POSITION_Y, 0);
    }
  }

  /** The records of the fetched batches, one after another. */
  function Concat(batches: seq<seq<Event>>): seq<Event>
  {
    if batches == [] then [] else Concat(batches[..|batches| - 1]) + batches[|batches| - 1]
  }

  lemma {:induction false} ConcatPrefix(batches: seq<seq<Event>>, b: nat)
    requires b <= |batches|
    ensures Concat(batches[..b]) <= Concat(batches)
    decreases |batches| - b
  {
    if b < |batches| {
      ConcatPrefix(batches, b + 1);
      assert batches[..b + 1][..b] == batches[..b];
    } else {
      assert batches[..b] == batches;
    }
  }

  // ----- Synthesised touches -----

  /** `screen_to_input`: canvas to touch-screen coordinates, X scaled and Y
      flipped; the two model branches of the source compute the same formula. */
  function ScreenToInput(m: DeviceModel, screenWidth: int, screenHeight: int, p: Point): (r: Point)
    requires screenWidth > 0 && screenHeight > 0
    ensures 0 <= p.0 <= CANVAS_WIDTH ==> 0 <= r.0 <= screenWidth
    ensures 0 <= p.1 <= CANVAS_HEIGHT ==> 0 <= r.1 <= screenHeight
  {
    var (x, y) := p;
    ScaleBound(x, screenWidth, CANVAS_WIDTH);
    ScaleBound(CANVAS_HEIGHT - y, screenHeight, CANVAS_HEIGHT);
    match m
    case RemarkablePaperPro =>
      (TruncDiv(x * screenWidth, CANVAS_WIDTH), TruncDiv((CANVAS_HEIGHT - y) * screenHeight, CANVAS_HEIGHT))
    case _ =>
      (TruncDiv(x * screenWidth, CANVAS_WIDTH), TruncDiv((CANVAS_HEIGHT - y) * screenHeight, CANVAS_HEIGHT))
  }

  lemma ScreenToInputModelIndependent(m: DeviceModel, screenWidth: int, screenHeight: int, p: Point)
    requires screenWidth > 0 && screenHeight > 0
    ensures ScreenToInput(m, screenWidth, screenHeight, p) == ScreenToInput(Remarkable2, screenWidth, screenHeight, p)
  {
  }

  /** The batch of `touch_start` at touch-screen point q. */
  function TouchStartEvents(q: Point): seq<Event>
  {
    [AbsEvent(ABS_MT_SLOT, 0), AbsEvent(ABS_MT_TRACKING_ID, 1),
     AbsEvent(ABS_MT_POSITION_X, q.0), AbsEvent(ABS_MT_POSITION_Y, q.1),
     AbsEvent(ABS_MT_PRESSURE, 100), AbsEvent(ABS_MT_TOUCH_MAJOR, 17),
     AbsEvent(ABS_MT_TOUCH_MINOR, 17), AbsEvent(ABS_MT_ORIENTATION, 4), Syn()]
  }

  /** The batch of `touch_stop`. */
  function TouchStopEvents(): seq<Event>
  {
    [AbsEvent(ABS_MT_SLOT, 0), AbsEvent(ABS_MT_TRACKING_ID, -1), Syn()]
  }

  /** The batch of `goto_xy` at touch-screen point q. */
  function TouchGotoEvents(q: Point): seq<Event>
  {
    [AbsEvent(ABS_MT_SLOT, 0), AbsEvent(ABS_MT_TRACKING_ID, 1),
     AbsEvent(ABS_MT_POSITION_X, q.0), AbsEvent(ABS_MT_POSITION_Y, q.1), Syn()]
  }

  /** A synthesised touch at q followed by its release, after any history `pre`:
      the only record of the gesture that can trigger is the release, and it
      triggers exactly when q is strictly inside the zone. */
  lemma GestureTriggersIffInZone(pre: seq<Event>, q: Point, j: int)
    requires |pre| <= j
    ensures Fires(pre + TouchStartEvents(q) + TouchStopEvents(), j) <==>
      j == |pre| + 10 && q.0 > TRIGGER_MIN_X && q.1 > TRIGGER_MIN_Y
  {
    var s := pre + TouchStartEvents(q) + TouchStopEvents();
    if j == |pre| + 10 {
      var start, stop := TouchStartEvents(q), TouchStopEvents();
      var before := s[..j];
      assert before == pre + start + stop[..1];
      assert before == (pre + start[..2]) + [start[2]] + (start[3..] + stop[..1]);
      LatestSetBy(pre + start[..2], start[2], start[3..] + stop[..1], ABS_MT_POSITION_X);
      assert before == (pre + start[..3]) + [start[3]] + (start[4..] + stop[..1]);
      LatestSetBy(pre + start[..3], start[3], start[4..] + stop[..1], ABS_MT_POSITION_Y);
    } else if j < |s| {
      assert s[j].code != ABS_MT_TRACKING_ID || s[j].value != -1;
    }
  }

  /** The tap's records trigger somewhere exactly when its point is strictly in the zone. */
  lemma TapTriggersIffInZone(pre: seq<Event>, q: Point)
    ensures (exists j :: |pre| <= j && Fires(pre + TouchStartEvents(q) + TouchStopEvents(), j)) <==>
      q.0 > TRIGGER_MIN_X && q.1 > TRIGGER_MIN_Y
  {
    if q.0 > TRIGGER_MIN_X && q.1 > TRIGGER_MIN_Y {
      GestureTriggersIffInZone(pre, q, |pre| + 10);
    } else {
      forall j | |pre| <= j
        ensures !Fires(pre + TouchStartEvents(q) + TouchStopEvents(), j)
      {
        GestureTriggersIffInZone(pre, q, j);
      }
    }
  }

  /** A record carrying the code, followed by records that do not, fixes the
      tracked value. */
  lemma LatestSetBy(a: seq<Event>, ev: Event, b: seq<Event>, code: int)
    requires ev.code == code && CodeAbsent(b, code)
    ensures Latest(a + [ev] + b, code, 0) == ev.value
  {
    LatestAppend(a + [ev], b, code, 0);
    LatestAbsent(b, code, Latest(a + [ev], code, 0));
  }

  /** The inner loop of `wait_for_trigger` over one fetched batch, given the records
      `before` it (of which none triggered) and the positions they left: the first
      record of the batch that triggers, or `None` and the positions it leaves. */
  method ScanBatch(ghost before: seq<Event>, batch: seq<Event>, n: nat, x: int, y: int)
    returns (fired: Option<nat>, x': int, y': int)
    requires n == |before| && x == PositionX(before) && y == PositionY(before)
    requires forall j :: 0 <= j < n ==> !Fires(before, j)
    ensures fired.Some? ==> (n <= fired.value < n + |batch| && Fires(before + batch, fired.value) &&
      forall j :: 0 <= j < fired.value ==> !Fires(before + batch, j))
    ensures fired.None? ==> (x' == PositionX(before + batch) && y' == PositionY(before + batch) &&
      forall j :: 0 <= j < n + |batch| ==> !Fires(before + batch, j))
  {
    x', y' := x, y;
    var e := 0;
    assert before + batch[..0] == before;
    while e < |batch|
      invariant 0 <= e <= |batch|
      invariant x' == PositionX(before + batch[..e])
      invariant y' == PositionY(before + batch[..e])
      invariant forall j :: 0 <= j < n + e ==> !Fires(before + batch[..e], j)
    {
      var event := batch[e];
      ghost var seen := before + batch[..e];
      assert before + batch[..e + 1] == seen + [event];
      LatestAppend(seen, [event], ABS_MT_POSITION_X, 0);
      LatestAppend(seen, [event], ABS_MT_POSITION_Y, 0);
      assert [event][..0] == [];
      if event.code == ABS_MT_POSITION_X {
        x' := event.value;
      }
      if event.code == ABS_MT_POSITION_Y {
        y' := event.value;
      }
      forall j | 0 <= j < n + e
        ensures !Fires(seen + [event], j)
      {
        FiresPrefix(seen, seen + [event], j);
      }
      assert (seen + [event])[..n + e] == seen;
      if event.code == ABS_MT_TRACKING_ID && event.value == -1 && x' > TRIGGER_MIN_X && y' > TRIGGER_MIN_Y {
        assert Fires(seen + [event], n + e);
        assert seen + [event] <= before + batch;
        FiresPrefix(seen + [event], before + batch, n + e);
        forall j | 0 <= j < n + e
          ensures !Fires(before + batch, j)
        {
          FiresPrefix(seen + [event], before + batch, j);
        }
        return Some(n + e), x', y';
      }
      e := e + 1;
    }
    assert batch[..|batch|] == batch;
    fired := None;
  }

  class Touch {
    /** The touch input device as the log of records written to it; `None` in
        no-touch mode. */
    var device: Option<seq<Event>>
    const model: DeviceModel
    /** The touch screen's extent for this model. */
    const screenWidth: int
    const screenHeight: int

    /** `Touch::new`: the touch device is opened unless `noTouch`. */
    constructor (noTouch: bool, model: DeviceModel, screenWidth: int, screenHeight: int)
      requires screenWidth > 0 && screenHeight > 0
      ensures this.model == model && this.screenWidth == screenWidth && this.screenHeight == screenHeight
      ensures device == if noTouch then None else Some([])
      ensures Valid()
    {
      this.model := model;
      this.screenWidth := screenWidth;
      this.screenHeight := screenHeight;
      device := if noTouch then None else Some([]);
    }

    predicate Valid()
      reads this
    {
      screenWidth > 0 && screenHeight > 0
    }

    /** `wait_for_trigger` over the batches the device delivers in turn: the index,
        in the stream of all their records, of the first record that triggers, or
        `None` when none of them does (the source then keeps waiting). */
    method WaitForTrigger(batches: seq<seq<Event>>) returns (fired: Option<nat>)
      requires device.Some?
      ensures fired.Some? ==> (Fires(Concat(batches), fired.value) &&
        forall j :: 0 <= j < fired.value ==> !Fires(Concat(batches), j))
      ensures fired.None? ==> forall j :: 0 <= j < |Concat(batches)| ==> !Fires(Concat(batches), j)
    {
      var positionX, positionY := 0, 0;
      var n := 0;
      var b := 0;
      while b < |batches|
        invariant 0 <= b <= |batches|
        invariant n == |Concat(batches[..b])|
        invariant positionX == PositionX(Concat(batches[..b]))
        invariant positionY == PositionY(Concat(batches[..b]))
        invariant forall j :: 0 <= j < n ==> !Fires(Concat(batches[..b]), j)
      {
        ghost var before := Concat(batches[..b]);
        ghost var after := before + batches[b];
        assert Concat(batches[..b + 1]) == after by {
          assert batches[..b + 1][..b] == batches[..b];
        }
        ConcatPrefix(batches, b + 1);
        var found;
        found, positionX, positionY := ScanBatch(before, batches[b], n, positionX, positionY);
        if found.Some? {
          FiresPrefix(after, Concat(batches), found.value);
          forall j | 0 <= j < found.value
            ensures !Fires(Concat(batches), j)
          {
            FiresPrefix(after, Concat(batches), j);
          }
          return found;
        }
        n := n + |batches[b]|;
        b := b + 1;
      }
      assert batches[..|batches|] == batches;
      fired := None;
    }

    /** `touch_start` at canvas point p. */
    method TouchStart(p: Point)
      requires Valid()
      modifies this
      ensures Valid()
      ensures device == Send(old(device), TouchStartEvents(ScreenToInput(model, screenWidth, screenHeight, p)))
    {
      var q := ScreenToInput(model, screenWidth, screenHeight, p);
      if device.Some? {
        device := Some(device.value + TouchStartEvents(q));
      }
    }

    /** `touch_stop`: release the touch. */
    method TouchStop()
      modifies this
      ensures device == Send(old(device), TouchStopEvents())
    {
      if device.Some? {
        device := Some(device.value + TouchStopEvents());
      }
    }

    /** `goto_xy` at canvas point p: move the touch without changing its size. */
    method GotoXY(p: Point)
      requires Valid()
      modifies this
      ensures Valid()
      ensures device == Send(old(device), TouchGotoEvents(ScreenToInput(model, screenWidth, screenHeight, p)))
    {
      var q := ScreenToInput(model, screenWidth, screenHeight, p);
      if device.Some? {
        device := Some(device.value + TouchGotoEvents(q));
      }
    }

    /** `tap_middle_bottom`: a touch at the bottom middle of the canvas and its release. */
    method TapMiddleBottom()
      requires Valid()
      modifies this
      ensures Valid()
      ensures device == Send(old(device),
        TouchStartEvents(ScreenToInput(model, screenWidth, screenHeight, (384, 1000))) + TouchStopEvents())
    {
      TouchStart((384, 1000));
      TouchStop();
      SendAppend(old(device), TouchStartEvents(ScreenToInput(model, screenWidth, screenHeight, (384, 1000))), TouchStopEvents());
    }
  }
}
