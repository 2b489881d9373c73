/**
 The receiving end of the touchpad's event stream: slots and tracking ids as in the
 Linux kernel document "Multi-touch (MT) Protocol", section "Protocol Example B",
 the BTN_TOOL_* keys, and the single-touch axes.
 */
module TouchProtocol {
  import opened Options

  datatype Code =
    | AbsMtSlot | AbsMtTrackingId | AbsMtPositionX | AbsMtPositionY | AbsMtToolType
    | AbsX | AbsY
    | BtnTouch
    | BtnToolFinger | BtnToolDoubletap | BtnToolTripletap | BtnToolQuadtap

  datatype Event = Event(code: Code, value: int)

  predicate IsToolKey(code: Code) {
    code.BtnToolFinger? || code.BtnToolDoubletap? || code.BtnToolTripletap? || code.BtnToolQuadtap?
  }

  /** What a slot holds while a contact is down in it. */
  datatype Touch = Touch(id: int, x: int, y: int)

  /**
   `fault` is set, for good, by a tool key pressed while one is down or released while it
   is not the one that is down.
   */
  datatype Receiver = Receiver(
    current: int,
    slots: map<int, Touch>,
    touch: bool,
    tool: Option<Code>,
    x: int,
    y: int,
    fault: bool)

  /** A receiver with nothing down; what else it holds does not matter. */
  predicate Idle(r: Receiver) {
    r.slots == map[] && r.tool.None? && !r.fault
  }

  function Receive(r: Receiver, e: Event): Receiver {
    match e.code
    case AbsMtSlot => r.(current := e.value)
    case AbsMtTrackingId =>
      if e.value == -1 then
        r.(slots := r.slots - {r.current})
      else if r.current in r.slots then
        r.(slots := r.slots[r.current := r.slots[r.current].(id := e.value)])
      else
        r.(slots := r.slots[r.current := Touch(e.value, 0, 0)])
    case AbsMtPositionX =>
      if r.current in r.slots then r.(slots := r.slots[r.current := r.slots[r.current].(x := e.value)]) else r
    case AbsMtPositionY =>
      if r.current in r.slots then r.(slots := r.slots[r.current := r.slots[r.current].(y := e.value)]) else r
    case AbsMtToolType => r
    case AbsX => r.(x := e.value)
    case AbsY => r.(y := e.value)
    case BtnTouch => r.(touch := e.value == 1)
    case _ =>
      if e.value == 1 then
        r.(tool := Some(e.code), fault := r.fault || r.tool.Some?)
      else
        r.(tool := None, fault := r.fault || r.tool != Some(e.code))
  }

  /** Receives `events` in order. */
  function Replay(r: Receiver, events: seq<Event>): Receiver {
    if events == [] then r else Receive(Replay(r, events[..|events| - 1]), events[|events| - 1])
  }

  lemma ReplayOne(r: Receiver, events: seq<Event>, e: Event)
    ensures Replay(r, events + [e]) == Receive(Replay(r, events), e)
  {
    assert (events + [e])[..|events|] == events;
  }

  lemma {:induction false} ReplayConcat(r: Receiver, a: seq<Event>, b: seq<Event>)
    ensures Replay(r, a + b) == Replay(Replay(r, a), b)
  {
    if b == [] {
      assert a + b == a;
    } else {
      var n := |b| - 1;
      assert (a + b)[..|a + b| - 1] == a + b[..n];
      ReplayConcat(r, a, b[..n]);
    }
  }

  /** A fault is never forgotten, so a stream without one has none at any prefix. */
  lemma {:induction false} FaultIsSticky(r: Receiver, events: seq<Event>, n: nat)
    requires n <= |events|
    requires !Replay(r, events).fault
    ensures !Replay(r, events[..n]).fault
    decreases |events|
  {
    if n < |events| {
      var shorter := events[..|events| - 1];
      FaultIsSticky(r, shorter, n);
      assert shorter[..n] == events[..n];
    } else {
      assert events[..n] == events;
    }
  }
}
