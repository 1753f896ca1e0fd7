/** Input-event records as the evdev interface carries them, and an output device
    modelled as the log of records written to it. */
module Events {
  import opened Base

  datatype EventType = Key | Absolute | Synchronization

  /** One input record: its type, code and value. */
  datatype Event = Event(kind: EventType, code: int, value: int)

  // Pen (stylus digitizer) codes
  const ABS_X := 0
  const ABS_Y := 1
  const ABS_PRESSURE := 24
  const ABS_DISTANCE := 25
  const BTN_TOOL_PEN := 320
  const BTN_TOUCH := 330
  const SYN_REPORT := 0

  function AbsEvent(code: int, value: int): Event
  {
    Event(Absolute, code, value)
  }

  function KeyEvent(code: int, value: int): Event
  {
    Event(Key, code, value)
  }

  /** The synchronization record that closes every batch. */
  function Syn(): Event
  {
    Event(Synchronization, SYN_REPORT, 0)
  }

  /** The device after one `send_events` batch. `None` is the absent device of the
      no-draw / no-touch mode, on which every send is a no-op that still succeeds. */
  function Send(device: Option<seq<Event>>, batch: seq<Event>): Option<seq<Event>>
  {
    match device
    case None => None
    case Some(log) => Some(log + batch)
  }

  lemma SendAppend(device: Option<seq<Event>>, a: seq<Event>, b: seq<Event>)
    ensures Send(Send(device, a), b) == Send(device, a + b)
  {
    if device.Some? {
      assert device.value + a + b == device.value + (a + b);
    }
  }

  /** The value last written to the signal (kind, code) in `evs`, or `initial` when
      `evs` writes nothing to it: what a reader of the stream holds for that signal. */
  function Level(evs: seq<Event>, kind: EventType, code: int, initial: int): int
  {
    if evs == [] then initial
    else if evs[|evs| - 1].kind == kind && evs[|evs| - 1].code == code then evs[|evs| - 1].value
    else Level(evs[..|evs| - 1], kind, code, initial)
  }

  /** A signal's level after two streams is its level after the second one started
      from its level after the first. */
  lemma {:induction false} LevelAppend(a: seq<Event>, b: seq<Event>, kind: EventType, code: int, initial: int)
    ensures Level(a + b, kind, code, initial) == Level(b, kind, code, Level(a, kind, code, initial))
  {
    if b == [] {
      assert a + b == a;
    } else {
      assert (a + b)[..|a + b| - 1] == a + b[..|b| - 1];
      LevelAppend(a, b[..|b| - 1], kind, code, initial);
    }
  }

  /** `evs` writes nothing to the signal (kind, code). */
  predicate Untouched(evs: seq<Event>, kind: EventType, code: int)
  {
    forall i :: 0 <= i < |evs| ==> !(evs[i].kind == kind && evs[i].code == code)
  }

  lemma {:induction false} LevelUntouched(evs: seq<Event>, kind: EventType, code: int, initial: int)
    requires Untouched(evs, kind, code)
    ensures Level(evs, kind, code, initial) == initial
  {
    if evs != [] {
      LevelUntouched(evs[..|evs| - 1], kind, code, initial);
    }
  }

  /** A write to the signal followed by events that leave it alone fixes its level. */
  lemma LevelSetBy(a: seq<Event>, ev: Event, b: seq<Event>, kind: EventType, code: int, initial: int)
    requires ev.kind == kind && ev.code == code
    requires Untouched(b, kind, code)
    ensures Level(a + [ev] + b, kind, code, initial) == ev.value
  {
    LevelAppend(a + [ev], b, kind, code, initial);
    LevelUntouched(b, kind, code, Level(a + [ev], kind, code, initial));
  }
}
