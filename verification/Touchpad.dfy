/** The touchpad tracker: contacts, slots, tracking ids, tool keys and the events it queues. */
module Touchpad {
  import opened Options
  import opened Pairs
  import opened TouchProtocol
  import opened TouchTables
  import S = TouchSurface

  /** The tool key for a number of touching fingers. */
  function ToolFor(fingers: nat): Option<Code> {
    match fingers
    case 0 => None
    case 1 => Some(BtnToolFinger)
    case 2 => Some(BtnToolDoubletap)
    case 3 => Some(BtnToolTripletap)
    case _ => Some(BtnToolQuadtap)
  }

  lemma SameSingleton<T>(a: Option<T>, b: Option<T>)
    requires Singleton(a) == Singleton(b)
    ensures a == b
  {
    assert a.Some? ==> a.value in Singleton(b);
    assert b.Some? ==> b.value in Singleton(a);
  }

  /** Finger count, primary finger and the receiver's keys and axes tell what the surface tells. */
  ghost predicate Summarizes(maxSlots: int, fingerCount: nat, primary: Option<int>, r: Receiver, s: S.Surface) {
    var touching := S.TouchingSlots(s);
    && fingerCount == |touching|
    && (fingerCount > 0 ==> fingerCount <= maxSlots)
    && IsLeast(primary, touching)
    && r.touch == (touching != {})
    && r.tool == ToolFor(|touching|)
    && (primary.Some? ==> r.x == s.fingers[primary.value].x && r.y == s.fingers[primary.value].y)
  }

  /** With one id in use there is at most one active contact. */
  lemma BasicCount(contacts: Contacts, tid: Option<int>)
    requires contacts.Keys <= Singleton(tid)
    ensures |ActiveIds(contacts)| == if tid.Some? && tid.value in contacts && Active(contacts[tid.value]) then 1 else 0
  {
    if tid.Some? && tid.value in contacts && Active(contacts[tid.value]) {
      assert ActiveIds(contacts) == {tid.value};
    } else {
      assert ActiveIds(contacts) == {};
    }
  }

  /** What the tracker finds in its tables before cleanup; `c` is the primary contact. */
  ghost predicate Found(mode: Mode, maxSlots: int, contacts: Contacts, slots: Slots, basicTid: Option<int>,
                        fingerCount: nat, primary: Option<int>, c: Option<Contact>)
  {
    match mode
    case Multitouch =>
      && fingerCount == |ActiveIds(contacts)|
      && (primary.Some? ==> ActiveSlot(contacts, slots, primary.value) && c == Some(contacts[slots[primary.value]]))
      && (primary.None? ==> c.None?)
      && forall slot :: 0 <= slot < maxSlots && ActiveSlot(contacts, slots, slot) ==>
           primary.Some? && primary.value <= slot
    case Basic =>
      && primary.None?
      && c == (if basicTid.Some? && basicTid.value in contacts && Active(contacts[basicTid.value])
               then Some(contacts[basicTid.value]) else None)
      && fingerCount == if c.Some? then 1 else 0
  }

  /** In basic mode the one contact stays exactly if it was fed, and counts if it is touching. */
  ghost predicate BasicSummary(fingerCount: nat, before: Contacts, after: Contacts, tid: Option<int>, r: Receiver) {
    && after == KeepContacts(Marked(before))
    && fingerCount == |ActiveIds(after)| <= 1
    && (fingerCount == 1 ==>
          tid.Some? && tid.value in after && r.x == after[tid.value].x && r.y == after[tid.value].y)
  }

  lemma BasicSummaryHolds(maxSlots: int, fingerCount: nat, before: Contacts, slots: Slots, tid: Option<int>,
                          primary: Option<int>, c: Option<Contact>, r: Receiver)
    requires Marked(before).Keys <= Singleton(tid) && NoneEnded(before)
    requires Found(Basic, maxSlots, Marked(before), slots, tid, fingerCount, primary, c)
    requires c.Some? ==> r.x == c.value.x && r.y == c.value.y
    ensures BasicSummary(fingerCount, before, KeepContacts(Marked(before)), tid, r)
  {
    BasicCount(Marked(before), tid);
    assert ActiveIds(KeepContacts(Marked(before))) == ActiveIds(Marked(before));
  }

  lemma SummaryHolds(maxSlots: int, contacts: Contacts, slots: Slots, basicTid: Option<int>, shown: Shown,
                     handedOut: nat, s: S.Surface, fingerCount: nat, primary: Option<int>, c: Option<Contact>,
                     r: Receiver)
    requires Kept(Multitouch, maxSlots, contacts, slots, basicTid, shown, handedOut, s, true)
    requires Found(Multitouch, maxSlots, Marked(contacts), slots, basicTid, fingerCount, primary, c)
    requires c.Some? ==> r.x == c.value.x && r.y == c.value.y
    requires r.touch == (fingerCount > 0) && r.tool == ToolFor(fingerCount)
    ensures Summarizes(maxSlots, fingerCount, primary, r, S.EndFrame(s))
  {
    SummaryKept(maxSlots, contacts, slots, basicTid, shown, handedOut, s, primary);
    hide Kept;
  }

  function TouchEvents(slot: int, tid: int, x: int, y: int): seq<Event> {
    [Event(AbsMtSlot, slot), Event(AbsMtTrackingId, tid), Event(AbsMtPositionX, x), Event(AbsMtPositionY, y)]
  }

  /** The events for a touching contact; the tool type of a palm is 2, of a finger 0. */
  function ContactEvents(slot: int, tid: int, c: Contact): seq<Event> {
    TouchEvents(slot, tid, c.x, c.y)
    + (if c.palm.Some? then [Event(AbsMtToolType, if c.palm.value then 2 else 0)] else [])
  }

  class Tracker {
    const mode: Mode
    const maxSlots: int

    var contacts: Contacts
    var slots: Slots
    var primary: Option<int>
    var changed: set<int>
    var ended: seq<int>
    var nextTrackingId: int
    var toolKeysDown: set<Code>
    var events: seq<Event>
    var basicTid: Option<int>
    var fingerCount: nat

    ghost const start: Receiver       // the receiver before the first event
    ghost var handedOut: nat          // ids handed out so far
    ghost var past: seq<Event>        // every event queued before those pending in `events`
    ghost var receiver: Receiver      // a receiver of all events queued so far
    ghost var surface: S.Surface      // the reference, fed the same contacts
    ghost var inStep: bool            // no clash of ids, and every frame begun before it was ended

    ghost predicate Heard()
      reads this`receiver, this`past, this`events
    {
      receiver == Replay(start, past + events)
    }

    ghost predicate ToolsAgree()
      reads this`receiver, this`toolKeysDown
    {
      && !receiver.fault
      && toolKeysDown == Singleton(receiver.tool)
      && (receiver.tool.Some? ==> IsToolKey(receiver.tool.value))
    }

    ghost predicate Valid()
      reads this
    {
      && Heard()
      && ToolsAgree()
      && nextTrackingId == S.TrackingId(handedOut)
      && Kept(mode, maxSlots, contacts, slots, basicTid, receiver.slots, handedOut, surface, inStep)
    }

    constructor (mode: Mode, maxSlots: int, ghost start: Receiver)
      requires Idle(start)
      ensures Valid()
      ensures this.mode == mode && this.maxSlots == maxSlots && this.start == start
      ensures contacts == map[] && slots == map[] && events == [] && past == [] && ended == []
      ensures surface == S.EMPTY && inStep && fingerCount == 0 && primary.None? && basicTid.None?
    {
      this.mode := mode;
      this.maxSlots := maxSlots;
      contacts, slots, primary, changed, ended := map[], map[], None, {}, [];
      nextTrackingId, toolKeysDown, events, basicTid, fingerCount := 1, {}, [], None, 0;
      this.start := start;
      handedOut, past, receiver, surface, inStep := 0, [], start, S.EMPTY, true;
    }

    /** Hands out ids 1, 2, ..., 65535, 1, ... */
    method NewTrackingId() returns (id: int)
      requires nextTrackingId == S.TrackingId(handedOut)
      modifies this`nextTrackingId, this`handedOut
      ensures id == S.TrackingId(old(handedOut))
      ensures handedOut == old(handedOut) + 1 && nextTrackingId == S.TrackingId(handedOut)
    {
      hide S.TrackingId;
      S.NextTrackingId(handedOut);
      id := nextTrackingId;
      nextTrackingId := (id % 65535) + 1;
      handedOut := handedOut + 1;
    }

    method QueueEvent(e: Event)
      requires Heard()
      modifies this`events, this`receiver
      ensures Heard()
      ensures events == old(events) + [e]
      ensures receiver == Receive(old(receiver), e)
    {
      ReplayOne(start, past + events, e);
      assert past + (events + [e]) == (past + events) + [e];
      events := events + [e];
      receiver := Receive(receiver, e);
    }

    // -------------------------------------------------------------------------
    // Beginning a frame
    // -------------------------------------------------------------------------

    /** Visits the contacts in any order. */
    method MarkUnseen()
      modifies this`contacts
      ensures contacts == Unseen(old(contacts))
    {
      var todo := contacts.Keys;
      while todo != {}
        invariant todo <= old(contacts).Keys
        invariant contacts == map id | id in old(contacts) ::
                    if id in todo then old(contacts)[id] else old(contacts)[id].(seen := false)
      {
        var id := Next(todo);
        contacts := contacts[id := contacts[id].(seen := false)];
        todo := todo - {id};
      }
    }

    /** Events that were not emitted are dropped. */
    method DropEvents()
      requires Heard()
      modifies this`events, this`past
      ensures Heard()
      ensures events == [] && past == old(past) + old(events)
    {
      hide Replay;
      past := past + events;
      events := [];
      assert past + events == old(past + events);
    }

    method BeginFrame()
      requires Valid()
      modifies this`changed, this`ended, this`events, this`past, this`contacts, this`surface
      ensures Valid()
      ensures changed == {} && ended == [] && events == []
      ensures past == old(past) + old(events)
      ensures contacts == Unseen(old(contacts))
      ensures surface == S.BeginFrame(old(surface))
    {
      hide Kept, Replay, Unseen;
      changed, ended := {}, [];
      DropEvents();
      MarkUnseen();
      BeginKept(mode, maxSlots, old(contacts), slots, basicTid, receiver.slots, handedOut, surface, inStep);
      surface := S.BeginFrame(surface);
    }

    // -------------------------------------------------------------------------
    // Feeding a contact
    // -------------------------------------------------------------------------

    /** The id of the contact in `slot`, or a new one. */
    method SlotId(slot: int) returns (tid: int)
      requires nextTrackingId == S.TrackingId(handedOut)
      modifies this`slots, this`nextTrackingId, this`handedOut
      ensures nextTrackingId == S.TrackingId(handedOut)
      ensures slots == old(slots)[slot := tid]
      ensures slot in old(slots) ==> tid == old(slots)[slot] && handedOut == old(handedOut)
      ensures slot !in old(slots) ==> tid == S.TrackingId(old(handedOut)) && handedOut == old(handedOut) + 1
    {
      if slot in slots {
        tid := slots[slot];
      } else {
        tid := NewTrackingId();
        slots := slots[slot := tid];
      }
    }

    /** Creates or updates the contact with id `tid`, and notes whether it is new or has changed. */
    method StoreContact(tid: int, contact: S.ContactInput, touching: bool)
      requires contact.x.Some? && contact.y.Some?
      modifies this`contacts, this`changed
      ensures contacts == old(contacts)[tid :=
        Contact(if tid in old(contacts) then old(contacts)[tid].id else tid, contact.x.value, contact.y.value, touching,
                contact.pressure, contact.palm, true, false)]
      ensures changed == old(changed) + (if tid in old(contacts)
                                            && old(contacts)[tid].x == contact.x.value
                                            && old(contacts)[tid].y == contact.y.value
                                            && old(contacts)[tid].touching == touching then {} else {tid})
    {
      var c: Contact;
      if tid !in contacts {
        c := Contact(tid, contact.x.value, contact.y.value, touching, contact.pressure, contact.palm, true, false);
        changed := changed + {tid};
      } else {
        c := contacts[tid];
        if c.x != contact.x.value || c.y != contact.y.value || c.touching != touching {
          changed := changed + {tid};
        }
        c := c.(x := contact.x.value, y := contact.y.value, touching := touching,
                pressure := contact.pressure, palm := contact.palm, seen := true, ended := false);
      }
      contacts := contacts[tid := c];
    }

    /** Puts a touch on the receiver. */
    method QueueTouch(slot: int, tid: int, x: int, y: int)
      requires Heard()
      requires tid != -1
      modifies this`events, this`receiver
      ensures Heard()
      ensures events == old(events) + TouchEvents(slot, tid, x, y)
      ensures receiver == old(receiver).(current := slot, slots := old(receiver).slots[slot := Touch(tid, x, y)])
    {
      hide Replay;
      QueueEvent(Event(AbsMtSlot, slot));
      QueueEvent(Event(AbsMtTrackingId, tid));
      QueueEvent(Event(AbsMtPositionX, x));
      QueueEvent(Event(AbsMtPositionY, y));
    }

    /** Puts a touching contact on the receiver. */
    method QueueContact(slot: int, tid: int, c: Contact)
      requires Heard()
      requires tid != -1
      modifies this`events, this`receiver
      ensures Heard()
      ensures events == old(events) + ContactEvents(slot, tid, c)
      ensures c.palm.Some? ==> events[|events| - 1] == Event(AbsMtToolType, if c.palm.value then 2 else 0)
      ensures receiver == old(receiver).(current := slot, slots := old(receiver).slots[slot := Touch(tid, c.x, c.y)])
    {
      hide Replay, TouchEvents;
      QueueTouch(slot, tid, c.x, c.y);
      if c.palm.Some? {
        QueueEvent(Event(AbsMtToolType, if c.palm.value then 2 else 0));
      }
    }

    method FeedContact(contact: S.ContactInput)
      requires Valid()
      modifies this`contacts, this`slots, this`changed, this`nextTrackingId, this`basicTid, this`events
      modifies this`handedOut, this`receiver, this`surface, this`inStep
      ensures Valid()
      ensures mode.Multitouch? ==> surface == S.FeedInput(old(surface), contact, maxSlots)
      ensures mode.Multitouch? ==> (inStep <==> old(inStep) && !surface.clash)
      ensures mode.Multitouch? && contact.x.Some? && contact.y.Some? && 0 <= S.SlotOf(contact) < maxSlots ==>
        && S.SlotOf(contact) in surface.fingers
        && (surface.fingers[S.SlotOf(contact)].touching <==>
              contact.touching == Some(true)
              || (contact.touching == None && (contact.x != Some(0) || contact.y != Some(0))))
      ensures mode.Multitouch? && old(inStep) && !inStep ==> SharedId(slots)
      ensures mode.Basic? && contact.x.Some? && contact.y.Some? ==>
        && basicTid.Some? && (old(basicTid).Some? ==> basicTid == old(basicTid))
        && contacts == map[basicTid.value := Contact(basicTid.value, contact.x.value, contact.y.value,
                             S.Touching(contact), contact.pressure, contact.palm, true, false)]
      ensures contact.x.None? || contact.y.None? ==>
                contacts == old(contacts) && slots == old(slots) && events == old(events)
    {
      if contact.x.None? || contact.y.None? {
        return;
      }

      var touching;
      if contact.touching.Some? {
        touching := contact.touching.value;
      } else {
        touching := !(contact.x.value == 0 && contact.y.value == 0);
      }

      if mode.Multitouch? {
        var slot := if contact.slot.Some? then contact.slot.value.Floor else 0;
        if slot < 0 || slot >= maxSlots {
          return;
        }
        FeedSlot(slot, contact, touching);
      } else {
        FeedBasic(contact, touching);
      }
    }

    method FeedBasic(contact: S.ContactInput, touching: bool)
      requires Valid() && mode.Basic?
      requires contact.x.Some? && contact.y.Some?
      modifies this`contacts, this`changed, this`nextTrackingId, this`basicTid, this`handedOut
      ensures Valid()
      ensures basicTid.Some? && (old(basicTid).Some? ==> basicTid == old(basicTid))
      ensures contacts == map[basicTid.value := Contact(basicTid.value, contact.x.value, contact.y.value,
                                touching, contact.pressure, contact.palm, true, false)]
    {
      hide Replay;
      if basicTid.None? {
        var id := NewTrackingId();
        basicTid := Some(id);
      }
      FeedBasicKept(maxSlots, contacts, slots, basicTid.value, receiver.slots, handedOut, surface, inStep,
        Contact(if basicTid.value in contacts then contacts[basicTid.value].id else basicTid.value,
                contact.x.value, contact.y.value, touching, contact.pressure, contact.palm, true, false));
      StoreContact(basicTid.value, contact, touching);
    }

    /** Finds the id, stores the contact and queues it if it is touching. */
    method UpdateSlot(slot: int, contact: S.ContactInput, touching: bool) returns (tid: int, ghost c: Contact)
      requires nextTrackingId == S.TrackingId(handedOut) && Heard()
      requires slot in slots ==> slots[slot] != -1
      requires contact.x.Some? && contact.y.Some?
      modifies this`contacts, this`slots, this`changed, this`nextTrackingId, this`events
      modifies this`handedOut, this`receiver
      ensures nextTrackingId == S.TrackingId(handedOut) && Heard()
      ensures tid == if slot in old(slots) then old(slots)[slot] else S.TrackingId(old(handedOut))
      ensures handedOut == if slot in old(slots) then old(handedOut) else old(handedOut) + 1
      ensures c.id == if tid in old(contacts) then old(contacts)[tid].id else tid
      ensures Tells(c, S.Sample(slot, contact.x.value, contact.y.value, touching))
      ensures contacts == old(contacts)[tid := c] && slots == old(slots)[slot := tid]
      ensures events == old(events) + if touching then ContactEvents(slot, tid, c) else []
      ensures receiver == old(receiver).(current := receiver.current,
                slots := Put(old(receiver).slots, S.Sample(slot, contact.x.value, contact.y.value, touching), tid))
    {
      hide Replay, ContactEvents;
      tid := SlotId(slot);
      StoreContact(tid, contact, touching);
      c := contacts[tid];
      if touching {
        QueueContact(slot, tid, contacts[tid]);
      }
    }

    method FeedSlot(slot: int, contact: S.ContactInput, touching: bool)
      requires Valid() && mode.Multitouch? && 0 <= slot < maxSlots
      requires contact.x.Some? && contact.y.Some?
      modifies this`contacts, this`slots, this`changed, this`nextTrackingId, this`events
      modifies this`handedOut, this`receiver, this`surface, this`inStep
      ensures Valid()
      ensures surface == S.Feed(old(surface), S.Sample(slot, contact.x.value, contact.y.value, touching))
      ensures inStep <==> old(inStep) && !surface.clash
      ensures old(inStep) && !inStep ==> SharedId(slots)
    {
      hide Kept, Replay, S.Feed, Put, Tells, SharedId;
      ghost var a := S.Sample(slot, contact.x.value, contact.y.value, touching);
      KeptId(mode, maxSlots, contacts, slots, basicTid, receiver.slots, handedOut, surface, inStep, slot);
      var tid, c := UpdateSlot(slot, contact, touching);
      FeedKept(maxSlots, old(contacts), old(slots), basicTid, old(receiver.slots), old(handedOut), surface, inStep,
               a, c);
      surface := S.Feed(surface, a);
      inStep := inStep && !surface.clash;
    }

    // -------------------------------------------------------------------------
    // Ending a frame
    // -------------------------------------------------------------------------

    /** Marks the contacts that were not seen and lists them, in any order. */
    method ClearMissingContacts()
      modifies this`contacts, this`ended
      ensures contacts == Marked(old(contacts)) && contacts.Keys == old(contacts).Keys
      ensures forall id :: id in ended <==> id in old(ended) || (id in old(contacts) && !old(contacts)[id].seen)
    {
      var todo := contacts.Keys;
      while todo != {}
        invariant todo <= old(contacts).Keys
        invariant contacts == map id | id in old(contacts) ::
                    if id in todo || old(contacts)[id].seen
                    then old(contacts)[id] else old(contacts)[id].(ended := true)
        invariant forall id :: id in ended <==>
                    id in old(ended) || (id in old(contacts) && id !in todo && !old(contacts)[id].seen)
      {
        var id := Next(todo);
        if !contacts[id].seen {
          contacts := contacts[id := contacts[id].(ended := true)];
          ended := ended + [id];
        }
        todo := todo - {id};
      }
    }

    /** Ends the slots of the contact with id `tid`, in any order. */
    method QueueEnding(tid: int)
      requires Heard()
      modifies this`events, this`receiver
      ensures Heard()
      ensures receiver.slots == WithoutId(old(receiver).slots, slots, tid)
      ensures receiver == old(receiver).(current := receiver.current, slots := receiver.slots)
    {
      hide Replay;
      ghost var r := receiver;
      var todo := slots.Keys;
      while todo != {}
        invariant todo <= slots.Keys
        invariant Heard()
        invariant receiver.slots ==
                  map slot | slot in r.slots && (slot in todo || slot !in slots || slots[slot] != tid) :: r.slots[slot]
        invariant receiver == r.(current := receiver.current, slots := receiver.slots)
      {
        var slot := Next(todo);
        if slots[slot] == tid {
          QueueEvent(Event(AbsMtSlot, slot));
          QueueEvent(Event(AbsMtTrackingId, -1));
        }
        todo := todo - {slot};
      }
    }

    method QueueEndings()
      requires Heard()
      modifies this`events, this`receiver
      ensures Heard()
      ensures receiver.slots == WithoutIds(old(receiver).slots, slots, ended)
      ensures receiver == old(receiver).(current := receiver.current, slots := receiver.slots)
    {
      hide Replay;
      ghost var r := receiver;
      var i := 0;
      while i < |ended|
        invariant 0 <= i <= |ended|
        invariant Heard()
        invariant receiver.slots == WithoutIds(r.slots, slots, ended[..i])
        invariant receiver == r.(current := receiver.current, slots := receiver.slots)
      {
        assert ended[..i + 1] == ended[..i] + [ended[i]];
        WithoutOneMore(r.slots, slots, ended[..i], ended[i]);
        QueueEnding(ended[i]);
        i := i + 1;
      }
      assert ended[..i] == ended;
    }

    /** The lowest slot with an active contact. */
    method UpdatePrimary()
      modifies this`primary
      ensures primary.Some? ==> 0 <= primary.value < maxSlots && ActiveSlot(contacts, slots, primary.value)
      ensures forall slot :: 0 <= slot < maxSlots && ActiveSlot(contacts, slots, slot) ==>
                primary.Some? && primary.value <= slot
    {
      var best := None;
      var slot := 0;
      while slot < maxSlots
        invariant best.None?
        invariant 0 <= slot
        invariant forall k :: 0 <= k < slot ==> !ActiveSlot(contacts, slots, k)
      {
        if slot in slots {
          var tid := slots[slot];
          if tid in contacts && Active(contacts[tid]) {
            best := Some(slot);
            break;
          }
        }
        slot := slot + 1;
      }
      primary := best;
    }

    /** Counts the active contacts, in any order. */
    method CountFingers() returns (n: nat)
      ensures n == |ActiveIds(contacts)|
    {
      n := 0;
      var todo := contacts.Keys;
      ghost var done: set<int> := {};
      while todo != {}
        invariant todo <= contacts.Keys
        invariant done == set id | id in contacts && id !in todo && Active(contacts[id])
        invariant n == |done|
      {
        var id := Next(todo);
        if Active(contacts[id]) {
          n := n + 1;
          done := done + {id};
        }
        todo := todo - {id};
      }
      assert done == ActiveIds(contacts);
    }

    /** Releases the tool keys that are down but not desired, in any order. */
    method ReleaseToolKeys(desired: set<Code>)
      requires Heard() && ToolsAgree()
      modifies this`events, this`receiver, this`toolKeysDown
      ensures Heard() && ToolsAgree()
      ensures receiver == old(receiver).(tool := receiver.tool)
      ensures toolKeysDown <= desired
    {
      hide Replay;
      ghost var r := receiver;
      var todo := toolKeysDown;
      while todo != {}
        invariant todo <= toolKeysDown
        invariant Heard() && ToolsAgree()
        invariant receiver == r.(tool := receiver.tool)
        invariant toolKeysDown <= todo + desired
      {
        var code := Next(todo);
        if code !in desired {
          QueueEvent(Event(code, 0));
          toolKeysDown := toolKeysDown - {code};
        }
        todo := todo - {code};
      }
    }

    /** Presses the desired tool key unless it is down already. */
    method PressToolKeys(desired: Option<Code>)
      requires Heard() && ToolsAgree()
      requires toolKeysDown <= Singleton(desired)
      requires desired.Some? ==> IsToolKey(desired.value)
      modifies this`events, this`receiver, this`toolKeysDown
      ensures Heard() && ToolsAgree()
      ensures receiver == old(receiver).(tool := desired)
    {
      hide Replay;
      if desired.Some? && desired.value !in toolKeysDown {
        assert toolKeysDown == {};
        QueueEvent(Event(desired.value, 1));
        toolKeysDown := toolKeysDown + {desired.value};
      } else {
        assert toolKeysDown == Singleton(desired);
        SameSingleton(receiver.tool, desired);
      }
    }

    method QueueToolKeys(fingers: nat)
      requires Heard() && ToolsAgree()
      modifies this`events, this`receiver, this`toolKeysDown
      ensures Heard() && ToolsAgree()
      ensures receiver == old(receiver).(tool := ToolFor(fingers))
    {
      hide Replay;
      var desired := None;
      if fingers == 1 {
        desired := Some(BtnToolFinger);
      } else if fingers == 2 {
        desired := Some(BtnToolDoubletap);
      } else if fingers == 3 {
        desired := Some(BtnToolTripletap);
      } else if fingers >= 4 {
        desired := Some(BtnToolQuadtap);
      }
      ReleaseToolKeys(Singleton(desired));
      PressToolKeys(desired);
    }

    /** Removes the slots of an ended contact, in any order. */
    method RemoveSlots(tid: int)
      modifies this`slots
      ensures slots == map slot | slot in old(slots) && old(slots)[slot] != tid :: old(slots)[slot]
    {
      var todo := slots.Keys;
      while todo != {}
        invariant todo <= old(slots).Keys
        invariant slots == map slot | slot in old(slots) && (slot in todo || old(slots)[slot] != tid) ::
                    old(slots)[slot]
      {
        var slot := Next(todo);
        if slots[slot] == tid {
          slots := slots - {slot};
        }
        todo := todo - {slot};
      }
    }

    /** Removes the ended contacts and their slots, in any order. */
    method Cleanup()
      modifies this`contacts, this`slots
      ensures contacts == KeepContacts(old(contacts))
      ensures slots == KeepSlots(old(slots), old(contacts))
    {
      var todo := contacts.Keys;
      while todo != {}
        invariant todo <= old(contacts).Keys
        invariant contacts == map id | id in old(contacts) && (id in todo || !old(contacts)[id].ended) ::
                    old(contacts)[id]
        invariant slots == map slot | slot in old(slots)
                             && !(old(slots)[slot] in old(contacts)
                                  && old(slots)[slot] !in todo
                                  && old(contacts)[old(slots)[slot]].ended) :: old(slots)[slot]
      {
        var id := Next(todo);
        if contacts[id].ended {
          RemoveSlots(id);
          contacts := contacts - {id};
        }
        todo := todo - {id};
      }
    }

    /** The contact that decides ABS_X and ABS_Y, if any. */
    method PrimaryContact() returns (c: Option<Contact>)
      ensures mode.Multitouch? && primary.Some? && ActiveSlot(contacts, slots, primary.value) ==>
                c == Some(contacts[slots[primary.value]])
      ensures mode.Multitouch? && primary.None? ==> c.None?
      ensures mode.Basic? ==>
                c == if basicTid.Some? && basicTid.value in contacts && Active(contacts[basicTid.value])
                     then Some(contacts[basicTid.value]) else None
    {
      c := None;
      if mode.Multitouch? {
        if primary.Some? && primary.value in slots {
          var tid := slots[primary.value];
          if tid in contacts && Active(contacts[tid]) {
            c := Some(contacts[tid]);
          }
        }
      } else if basicTid.Some? && basicTid.value in contacts && Active(contacts[basicTid.value]) {
        c := Some(contacts[basicTid.value]);
      }
    }

    /** BTN_TOUCH, the tool keys, and the single-touch axes. */
    method QueueSummary(c: Option<Contact>)
      requires Heard() && ToolsAgree()
      modifies this`events, this`receiver, this`toolKeysDown
      ensures Heard() && ToolsAgree()
      ensures receiver == old(receiver).(
                touch := fingerCount > 0,
                tool := ToolFor(fingerCount),
                x := if c.Some? then c.value.x else old(receiver).x,
                y := if c.Some? then c.value.y else old(receiver).y)
    {
      hide Replay;
      QueueEvent(Event(BtnTouch, if fingerCount > 0 then 1 else 0));
      QueueToolKeys(fingerCount);
      if c.Some? {
        QueueEvent(Event(AbsX, c.value.x));
        QueueEvent(Event(AbsY, c.value.y));
      }
    }

    /** Ends the contacts that were not seen, and finds the primary contact and the finger count. */
    method Survey() returns (c: Option<Contact>)
      requires Heard()
      modifies this`contacts, this`ended, this`primary, this`fingerCount, this`events, this`receiver
      ensures Heard()
      ensures contacts == Marked(old(contacts))
      ensures HasUnseen(old(contacts), ended)
      ensures old(ended) == [] ==> OnlyUnseen(old(contacts), ended)
      ensures receiver == old(receiver).(current := receiver.current,
                slots := if mode.Multitouch? then WithoutIds(old(receiver).slots, slots, ended)
                         else old(receiver).slots)
      ensures Found(mode, maxSlots, contacts, slots, basicTid, fingerCount, primary, c)
    {
      hide Replay, Marked, WithoutIds, ActiveIds;
      ClearMissingContacts();
      if mode.Multitouch? {
        QueueEndings();
        UpdatePrimary();
        fingerCount := CountFingers();
      } else {
        primary := None;
      }
      c := PrimaryContact();
      if mode.Basic? {
        fingerCount := if c.Some? then 1 else 0;
      }
    }

    /** Ends the frame; what that means for the surface is `EndFrame`'s to say. */
    method CloseFrame() returns (ghost c: Option<Contact>)
      requires Heard() && ToolsAgree()
      modifies this`contacts, this`slots, this`ended, this`primary, this`fingerCount, this`toolKeysDown
      modifies this`events, this`receiver
      ensures Heard() && ToolsAgree()
      ensures HasUnseen(old(contacts), ended)
      ensures old(ended) == [] ==> OnlyUnseen(old(contacts), ended)
      ensures contacts == KeepContacts(Marked(old(contacts)))
      ensures slots == KeepSlots(old(slots), Marked(old(contacts)))
      ensures Found(mode, maxSlots, Marked(old(contacts)), old(slots), basicTid, fingerCount, primary, c)
      ensures receiver == old(receiver).(
                current := receiver.current,
                slots := if mode.Multitouch? then WithoutIds(old(receiver).slots, old(slots), ended)
                         else old(receiver).slots,
                touch := fingerCount > 0,
                tool := ToolFor(fingerCount),
                x := if c.Some? then c.value.x else old(receiver).x,
                y := if c.Some? then c.value.y else old(receiver).y)
    {
      hide Replay, Marked, KeepContacts, KeepSlots, WithoutIds, Found, ToolFor, HasUnseen, OnlyUnseen;
      var p := Survey();
      QueueSummary(p);
      Cleanup();
      c := p;
    }

    method EndFrame()
      requires Valid()
      modifies this`contacts, this`slots, this`ended, this`primary, this`fingerCount, this`toolKeysDown
      modifies this`events, this`receiver, this`surface, this`inStep
      ensures Valid()
      ensures surface == S.EndFrame(old(surface))
      ensures contacts == KeepContacts(Marked(old(contacts)))
      ensures inStep <==> old(inStep) && old(ended) == []
      ensures receiver.touch == (fingerCount > 0) && receiver.tool == ToolFor(fingerCount)
      ensures mode.Multitouch? && inStep ==> Summarizes(maxSlots, fingerCount, primary, receiver, surface)
      ensures mode.Basic? ==> BasicSummary(fingerCount, old(contacts), contacts, basicTid, receiver)
    {
      hide Kept, Replay, Marked, KeepContacts, KeepSlots, WithoutIds, ActiveSlot, ActiveIds, HasUnseen, OnlyUnseen;
      hide S.EndFrame, S.TouchingSlots, ToolFor, Summarizes, BasicSummary, Found;
      ghost var c := CloseFrame();
      EndKept(mode, maxSlots, old(contacts), old(slots), basicTid, old(receiver.slots), handedOut, surface, inStep,
              ended, old(ended) == []);
      if mode.Basic? {
        BasicSummaryHolds(maxSlots, fingerCount, old(contacts), old(slots), basicTid, primary, c, receiver);
      } else if inStep {
        SummaryHolds(maxSlots, old(contacts), old(slots), basicTid, old(receiver.slots), handedOut, surface,
                     fingerCount, primary, c, receiver);
      }
      surface := S.EndFrame(surface);
      inStep := inStep && old(ended) == [];
    }

    /** Without contacts the tracker is in step with a surface that goes on counting from its own number. */
    ghost method Renumber()
      requires Valid() && mode.Multitouch? && contacts == map[]
      modifies this`surface, this`inStep
      ensures Valid() && inStep
      ensures surface == S.Surface(map[], handedOut, false)
      ensures old(inStep) ==> surface == old(surface)
    {
      hide Kept;
      NothingKept(mode, maxSlots, slots, basicTid, receiver.slots, handedOut, surface, inStep);
      surface := S.Surface(map[], handedOut, false);
      inStep := true;
    }

    /** Hands over the pending events. */
    method EmitEvents() returns (emitted: seq<Event>)
      requires Valid()
      modifies this`events, this`past
      ensures Valid()
      ensures emitted == old(events) && events == [] && past == old(past) + emitted
    {
      hide Kept, Replay;
      emitted := events;
      DropEvents();
    }
  }
}
