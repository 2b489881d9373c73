/**
 The tracker's tables as values: what they hold between calls, how that corresponds to
 the fingers on the surface, and how each step of a frame keeps the correspondence.
 */
module TouchTables {
  import opened Options
  import opened Pairs
  import opened TouchProtocol
  import opened TouchSurface

  datatype Contact = Contact(
    id: int,
    x: int,
    y: int,
    touching: bool,
    pressure: Option<int>,
    palm: Option<bool>,
    seen: bool,
    ended: bool)

  type Contacts = map<int, Contact>   // tracking id -> contact
  type Slots = map<int, int>          // slot -> tracking id
  type Shown = map<int, Touch>        // slot -> what the receiver has there
  type Fingers = map<int, Finger>     // slot -> finger on the surface

  predicate Active(c: Contact) {
    !c.ended && c.touching
  }

  ghost predicate ActiveSlot(contacts: Contacts, slots: Slots, slot: int) {
    slot in slots && slots[slot] in contacts && Active(contacts[slots[slot]])
  }

  ghost function ActiveIds(contacts: Contacts): set<int> {
    set id | id in contacts && Active(contacts[id])
  }

  // ---------------------------------------------------------------------------
  // What holds between calls
  // ---------------------------------------------------------------------------

  ghost predicate WellFormed(maxSlots: int, contacts: Contacts, slots: Slots) {
    && (forall id :: id in contacts ==> contacts[id].id == id && 1 <= id <= ID_COUNT)
    && (forall slot :: slot in slots ==> 0 <= slot < maxSlots && slots[slot] in contacts)
  }

  ghost predicate NoneEnded(contacts: Contacts) {
    forall id :: id in contacts ==> !contacts[id].ended
  }

  /** Every occupied slot of the receiver carries the id that the tracker has for it. */
  ghost predicate Announced(shown: Shown, slots: Slots) {
    forall slot :: slot in shown ==> slot in slots && shown[slot].id == slots[slot]
  }

  // ---------------------------------------------------------------------------
  // Being in step with the surface
  // ---------------------------------------------------------------------------

  /** Slots and contacts are in bijection. */
  ghost predicate Bijective(ids: set<int>, slots: Slots) {
    && (forall a, b :: a in slots && b in slots && slots[a] == slots[b] ==> a == b)
    && (forall slot :: slot in slots ==> slots[slot] in ids)
    && (forall id :: id in ids ==> exists slot :: slot in slots && slots[slot] == id)
  }

  ghost predicate Numbered(slots: Slots, fingers: Fingers) {
    && slots.Keys == fingers.Keys
    && forall slot :: slot in slots ==> slots[slot] == TrackingId(fingers[slot].birth)
  }

  ghost predicate Matches(c: Contact, f: Finger) {
    c.x == f.x && c.y == f.y && c.touching == f.touching && c.seen == f.fed
  }

  ghost predicate Mirrors(contacts: Contacts, slots: Slots, fingers: Fingers) {
    forall slot :: slot in slots ==>
      slot in fingers && slots[slot] in contacts && Matches(contacts[slots[slot]], fingers[slot])
  }

  /** The receiver has exactly the fingers that have touched, with id and last touching position. */
  ghost function OnReceiver(fingers: Fingers): Shown {
    map slot | slot in fingers && fingers[slot].shown.Some? ::
      Touch(TrackingId(fingers[slot].birth), fingers[slot].shown.value.x, fingers[slot].shown.value.y)
  }

  ghost predicate Sensible(s: Surface) {
    && !s.clash
    && forall slot :: slot in s.fingers ==>
         && s.fingers[slot].birth < s.begun
         && (s.fingers[slot].touching ==> s.fingers[slot].shown == Some(Position(s.fingers[slot].x, s.fingers[slot].y)))
  }

  ghost predicate InStep(contacts: Contacts, slots: Slots, shown: Shown, s: Surface) {
    && Sensible(s)
    && Bijective(contacts.Keys, slots)
    && Numbered(slots, s.fingers)
    && Mirrors(contacts, slots, s.fingers)
    && shown == OnReceiver(s.fingers)
  }

  datatype Mode = Basic | Multitouch

  function Singleton<T>(o: Option<T>): set<T> {
    if o.Some? then {o.value} else {}
  }

  /** What every call keeps, of the tables and of the receiver's slots. */
  ghost predicate Kept(mode: Mode, maxSlots: int, contacts: Contacts, slots: Slots, basicTid: Option<int>,
                       shown: Shown, handedOut: nat, s: Surface, inStep: bool)
  {
    && WellFormed(maxSlots, contacts, slots)
    && NoneEnded(contacts)
    && Announced(shown, slots)
    && (mode.Basic? ==> slots == map[] && contacts.Keys <= Singleton(basicTid))
    && (basicTid.Some? ==> 1 <= basicTid.value <= ID_COUNT)
    && (mode.Multitouch? && inStep ==> handedOut == s.begun && InStep(contacts, slots, shown, s))
  }

  // ---------------------------------------------------------------------------
  // Beginning a frame
  // ---------------------------------------------------------------------------

  ghost function Unseen(contacts: Contacts): Contacts {
    map id | id in contacts :: contacts[id].(seen := false)
  }

  lemma BeginInStep(contacts: Contacts, slots: Slots, shown: Shown, s: Surface)
    requires InStep(contacts, slots, shown, s)
    ensures InStep(Unseen(contacts), slots, shown, BeginFrame(s))
  {
    hide Bijective;
    assert Unseen(contacts).Keys == contacts.Keys;
    assert OnReceiver(BeginFrame(s).fingers) == OnReceiver(s.fingers);
  }

  lemma UnseenKeys(contacts: Contacts)
    ensures Unseen(contacts).Keys == contacts.Keys
  {
  }

  /** The slots in use are the slots with a finger. */
  lemma InStepSlots(contacts: Contacts, slots: Slots, shown: Shown, s: Surface)
    requires InStep(contacts, slots, shown, s)
    ensures slots.Keys == s.fingers.Keys
    ensures !s.clash
  {
  }

  lemma BeginKept(mode: Mode, maxSlots: int, contacts: Contacts, slots: Slots, basicTid: Option<int>,
                  shown: Shown, handedOut: nat, s: Surface, inStep: bool)
    requires Kept(mode, maxSlots, contacts, slots, basicTid, shown, handedOut, s, inStep)
    ensures Kept(mode, maxSlots, Unseen(contacts), slots, basicTid, shown, handedOut, BeginFrame(s), inStep)
  {
    UnseenKeys(contacts);
    if mode.Multitouch? && inStep {
      BeginInStep(contacts, slots, shown, s);
    }
    hide InStep;
  }

  // ---------------------------------------------------------------------------
  // Feeding a contact
  // ---------------------------------------------------------------------------

  ghost function Put(shown: Shown, a: Sample, id: int): Shown {
    if a.touching then shown[a.slot := Touch(id, a.x, a.y)] else shown
  }

  ghost predicate Tells(c: Contact, a: Sample) {
    c.x == a.x && c.y == a.y && c.touching == a.touching && c.seen && !c.ended
  }

  lemma FeedWellFormed(maxSlots: int, contacts: Contacts, slots: Slots, shown: Shown, a: Sample, id: int, c: Contact)
    requires WellFormed(maxSlots, contacts, slots) && NoneEnded(contacts) && Announced(shown, slots)
    requires 0 <= a.slot < maxSlots
    requires a.slot in slots ==> id == slots[a.slot]
    requires c.id == id && 1 <= id <= ID_COUNT && Tells(c, a)
    ensures WellFormed(maxSlots, contacts[id := c], slots[a.slot := id])
    ensures NoneEnded(contacts[id := c])
    ensures Announced(Put(shown, a, id), slots[a.slot := id])
  {
  }

  lemma FeedSensible(s: Surface, a: Sample)
    requires Sensible(s)
    requires a.slot in s.fingers || !Clashes(s)
    ensures Sensible(Feed(s, a))
  {
  }

  lemma FeedShown(s: Surface, a: Sample)
    ensures OnReceiver(Feed(s, a).fingers)
         == Put(OnReceiver(s.fingers), a, TrackingId(if a.slot in s.fingers then s.fingers[a.slot].birth else s.begun))
  {
  }

  /** Another sample of a finger that is already down. */
  lemma FeedKnown(contacts: Contacts, slots: Slots, shown: Shown, s: Surface, a: Sample, c: Contact)
    requires InStep(contacts, slots, shown, s)
    requires a.slot in slots && Tells(c, a)
    ensures InStep(contacts[slots[a.slot] := c], slots, Put(shown, a, slots[a.slot]), Feed(s, a))
  {
    FeedSensible(s, a);
    FeedShown(s, a);
    assert contacts[slots[a.slot] := c].Keys == contacts.Keys;
  }

  lemma SameRemainder(m: nat, n: nat)
    requires n <= m
    ensures m % ID_COUNT == n % ID_COUNT <==> (m - n) % ID_COUNT == 0
  {
  }

  /** The next id is in use exactly if the next finger clashes with one that is down. */
  lemma TakenIffClash(contacts: Contacts, slots: Slots, shown: Shown, s: Surface)
    requires InStep(contacts, slots, shown, s)
    ensures TrackingId(s.begun) in contacts <==> Clashes(s)
  {
    forall slot | slot in slots
      ensures slots[slot] == TrackingId(s.begun) <==> (s.begun - s.fingers[slot].birth) % ID_COUNT == 0
    {
      SameRemainder(s.begun, s.fingers[slot].birth);
    }
    if TrackingId(s.begun) in contacts {
      var slot :| slot in slots && slots[slot] == TrackingId(s.begun);
      assert slot in s.fingers && (s.begun - s.fingers[slot].birth) % ID_COUNT == 0;
    }
    if Clashes(s) {
      var slot :| slot in s.fingers && (s.begun - s.fingers[slot].birth) % ID_COUNT == 0;
      assert slot in slots && slots[slot] in contacts;
    }
  }

  lemma NewBijective(ids: set<int>, slots: Slots, slot: int, id: int)
    requires Bijective(ids, slots)
    requires slot !in slots && id !in ids
    ensures Bijective(ids + {id}, slots[slot := id])
  {
    var slots' := slots[slot := id];
    forall i | i in ids + {id} ensures exists s :: s in slots' && slots'[s] == i {
      if i == id {
        assert slots'[slot] == i;
      } else {
        var s :| s in slots && slots[s] == i;
        assert slots'[s] == i;
      }
    }
  }

  lemma NewMirrors(contacts: Contacts, slots: Slots, s: Surface, a: Sample, id: int, c: Contact)
    requires Mirrors(contacts, slots, s.fingers)
    requires a.slot !in s.fingers && id !in contacts && Tells(c, a)
    ensures Mirrors(contacts[id := c], slots[a.slot := id], Feed(s, a).fingers)
  {
  }

  /** The first sample of a finger that clashes with none. */
  lemma FeedNew(contacts: Contacts, slots: Slots, shown: Shown, s: Surface, a: Sample, c: Contact)
    requires InStep(contacts, slots, shown, s)
    requires a.slot !in slots && !Clashes(s) && Tells(c, a)
    ensures var id := TrackingId(s.begun);
            InStep(contacts[id := c], slots[a.slot := id], Put(shown, a, id), Feed(s, a))
  {
    hide Bijective, Mirrors;
    var id := TrackingId(s.begun);
    TakenIffClash(contacts, slots, shown, s);
    FeedSensible(s, a);
    FeedShown(s, a);
    NewBijective(contacts.Keys, slots, a.slot, id);
    assert contacts[id := c].Keys == contacts.Keys + {id};
    NewMirrors(contacts, slots, s, a, id, c);
  }

  /** A sample of any finger, unless it is new and clashes. */
  lemma FeedInStep(contacts: Contacts, slots: Slots, shown: Shown, s: Surface, a: Sample, id: int, c: Contact)
    requires InStep(contacts, slots, shown, s) && Tells(c, a)
    requires id == if a.slot in slots then slots[a.slot] else TrackingId(s.begun)
    ensures !Feed(s, a).clash ==> InStep(contacts[id := c], slots[a.slot := id], Put(shown, a, id), Feed(s, a))
    ensures Feed(s, a).begun == if a.slot in slots then s.begun else s.begun + 1
  {
    InStepSlots(contacts, slots, shown, s);
    if a.slot in slots {
      FeedKnown(contacts, slots, shown, s, a, c);
      assert slots[a.slot := id] == slots;
    } else if !Clashes(s) {
      FeedNew(contacts, slots, shown, s, a, c);
    }
    hide InStep;
  }

  lemma FeedKept(maxSlots: int, contacts: Contacts, slots: Slots, basicTid: Option<int>, shown: Shown,
                 handedOut: nat, s: Surface, inStep: bool, a: Sample, c: Contact)
    requires Kept(Multitouch, maxSlots, contacts, slots, basicTid, shown, handedOut, s, inStep)
    requires 0 <= a.slot < maxSlots && Tells(c, a)
    requires var id := if a.slot in slots then slots[a.slot] else TrackingId(handedOut);
             c.id == if id in contacts then contacts[id].id else id
    ensures var id := if a.slot in slots then slots[a.slot] else TrackingId(handedOut);
            Kept(Multitouch, maxSlots, contacts[id := c], slots[a.slot := id], basicTid, Put(shown, a, id),
                 if a.slot in slots then handedOut else handedOut + 1, Feed(s, a), inStep && !Feed(s, a).clash)
    ensures inStep && Feed(s, a).clash ==>
              SharedId(slots[a.slot := if a.slot in slots then slots[a.slot] else TrackingId(handedOut)])
  {
    var id := if a.slot in slots then slots[a.slot] else TrackingId(handedOut);
    FeedWellFormed(maxSlots, contacts, slots, shown, a, id, c);
    if inStep {
      FeedInStep(contacts, slots, shown, s, a, id, c);
      if Feed(s, a).clash {
        TakenIffClash(contacts, slots, shown, s);
        var other :| other in slots && slots[other] == id;
        assert slots[a.slot := id][other] == slots[a.slot := id][a.slot];
      }
    }
    hide InStep;
  }

  /** Two slots have the same id. */
  ghost predicate SharedId(slots: Slots) {
    exists a, b :: a in slots && b in slots && a != b && slots[a] == slots[b]
  }

  lemma FeedBasicKept(maxSlots: int, contacts: Contacts, slots: Slots, tid: int, shown: Shown,
                      handedOut: nat, s: Surface, inStep: bool, c: Contact)
    requires Kept(Basic, maxSlots, contacts, slots, Some(tid), shown, handedOut, s, inStep)
    requires !c.ended && c.id == if tid in contacts then contacts[tid].id else tid
    ensures Kept(Basic, maxSlots, contacts[tid := c], slots, Some(tid), shown, handedOut, s, inStep)
    ensures c.id == tid && contacts[tid := c] == map[tid := c]
  {
  }

  // ---------------------------------------------------------------------------
  // Ending a frame
  // ---------------------------------------------------------------------------

  /** Contacts that were not seen are marked first, and removed last. */
  ghost function Marked(contacts: Contacts): Contacts {
    map id | id in contacts :: if contacts[id].seen then contacts[id] else contacts[id].(ended := true)
  }

  ghost function KeepContacts(contacts: Contacts): Contacts {
    map id | id in contacts && !contacts[id].ended :: contacts[id]
  }

  ghost function KeepSlots(slots: Slots, contacts: Contacts): Slots {
    map slot | slot in slots && !(slots[slot] in contacts && contacts[slots[slot]].ended) :: slots[slot]
  }

  /** What is left on the receiver once the slots of `ids` have been ended. */
  ghost function WithoutIds(shown: Shown, slots: Slots, ids: seq<int>): Shown {
    map slot | slot in shown && !(slot in slots && slots[slot] in ids) :: shown[slot]
  }

  ghost function WithoutId(shown: Shown, slots: Slots, id: int): Shown {
    map slot | slot in shown && !(slot in slots && slots[slot] == id) :: shown[slot]
  }

  lemma WithoutOneMore(shown: Shown, slots: Slots, ids: seq<int>, id: int)
    ensures WithoutId(WithoutIds(shown, slots, ids), slots, id) == WithoutIds(shown, slots, ids + [id])
  {
  }

  /** `ids` has the contacts that were not seen. */
  ghost predicate HasUnseen(contacts: Contacts, ids: seq<int>) {
    forall id :: id in contacts && !contacts[id].seen ==> id in ids
  }

  /** `ids` has nothing but contacts that were not seen. */
  ghost predicate OnlyUnseen(contacts: Contacts, ids: seq<int>) {
    forall id :: id in ids ==> id in contacts && !contacts[id].seen
  }

  lemma EndWellFormed(maxSlots: int, contacts: Contacts, slots: Slots, shown: Shown, ids: seq<int>)
    requires WellFormed(maxSlots, contacts, slots) && NoneEnded(contacts) && Announced(shown, slots)
    requires HasUnseen(contacts, ids)
    ensures var marked := Marked(contacts);
            && WellFormed(maxSlots, KeepContacts(marked), KeepSlots(slots, marked))
            && NoneEnded(KeepContacts(marked))
            && Announced(WithoutIds(shown, slots, ids), KeepSlots(slots, marked))
  {
  }

  lemma EndSensible(s: Surface)
    requires Sensible(s)
    ensures Sensible(EndFrame(s))
  {
  }

  lemma EndBijective(contacts: Contacts, slots: Slots)
    requires Bijective(contacts.Keys, slots) && NoneEnded(contacts)
    ensures Bijective(KeepContacts(Marked(contacts)).Keys, KeepSlots(slots, Marked(contacts)))
  {
    var marked := Marked(contacts);
    var slots' := KeepSlots(slots, marked);
    forall id | id in KeepContacts(marked) ensures exists s :: s in slots' && slots'[s] == id {
      var s :| s in slots && slots[s] == id;
      assert slots'[s] == id;
    }
  }

  /** A slot stays exactly if its finger was fed. */
  lemma EndSlots(contacts: Contacts, slots: Slots, fingers: Fingers)
    requires Mirrors(contacts, slots, fingers) && NoneEnded(contacts)
    ensures forall slot :: slot in slots ==> (slot in KeepSlots(slots, Marked(contacts)) <==> fingers[slot].fed)
  {
    forall slot | slot in slots ensures slot in KeepSlots(slots, Marked(contacts)) <==> fingers[slot].fed {
      var id := slots[slot];
      assert id in contacts && Matches(contacts[id], fingers[slot]);
    }
  }

  lemma EndMirrors(contacts: Contacts, slots: Slots, s: Surface)
    requires Mirrors(contacts, slots, s.fingers) && NoneEnded(contacts)
    ensures Mirrors(KeepContacts(Marked(contacts)), KeepSlots(slots, Marked(contacts)), EndFrame(s).fingers)
  {
  }

  lemma EndShown(contacts: Contacts, slots: Slots, s: Surface, ids: seq<int>)
    requires Numbered(slots, s.fingers) && Mirrors(contacts, slots, s.fingers)
    requires HasUnseen(contacts, ids) && OnlyUnseen(contacts, ids)
    ensures WithoutIds(OnReceiver(s.fingers), slots, ids) == OnReceiver(EndFrame(s).fingers)
  {
    forall slot | slot in s.fingers ensures slots[slot] in ids <==> !s.fingers[slot].fed {
    }
  }

  lemma EndNumbered(contacts: Contacts, slots: Slots, s: Surface)
    requires Numbered(slots, s.fingers) && Mirrors(contacts, slots, s.fingers) && NoneEnded(contacts)
    ensures Numbered(KeepSlots(slots, Marked(contacts)), EndFrame(s).fingers)
  {
    EndSlots(contacts, slots, s.fingers);
    forall slot ensures slot in KeepSlots(slots, Marked(contacts)) <==> slot in EndFrame(s).fingers {
      assert slot in slots <==> slot in s.fingers;
    }
  }

  lemma EndInStep(contacts: Contacts, slots: Slots, shown: Shown, s: Surface, ids: seq<int>)
    requires InStep(contacts, slots, shown, s) && NoneEnded(contacts)
    requires HasUnseen(contacts, ids) && OnlyUnseen(contacts, ids)
    ensures var marked := Marked(contacts);
            InStep(KeepContacts(marked), KeepSlots(slots, marked), WithoutIds(shown, slots, ids), EndFrame(s))
  {
    EndSensible(s);
    EndBijective(contacts, slots);
    EndNumbered(contacts, slots, s);
    EndMirrors(contacts, slots, s);
    EndShown(contacts, slots, s, ids);
    hide Bijective, Mirrors, Sensible, Numbered;
  }

  // ---------------------------------------------------------------------------
  // Counting
  // ---------------------------------------------------------------------------

  lemma {:induction false} InjectiveSize(m: map<int, int>)
    requires forall a, b :: a in m && b in m && m[a] == m[b] ==> a == b
    ensures |m.Keys| == |m.Values|
    decreases |m|
  {
    if m.Keys == {} {
      assert m.Values == {};
    } else {
      var k := Member(m.Keys);
      var rest := m - {k};
      InjectiveSize(rest);
      assert m.Keys == rest.Keys + {k};
      assert m.Values == rest.Values + {m[k]};
    }
  }

  /** Before cleanup, the active contacts sit exactly in the slots whose finger is touching after it. */
  lemma ActiveIsTouching(contacts: Contacts, slots: Slots, shown: Shown, s: Surface)
    requires InStep(contacts, slots, shown, s) && NoneEnded(contacts)
    ensures forall slot :: ActiveSlot(Marked(contacts), slots, slot) <==> slot in TouchingSlots(EndFrame(s))
  {
  }

  /** There are as many active contacts as touching fingers. */
  lemma FingerCount(contacts: Contacts, slots: Slots, shown: Shown, s: Surface)
    requires InStep(contacts, slots, shown, s) && NoneEnded(contacts)
    ensures |ActiveIds(Marked(contacts))| == |TouchingSlots(EndFrame(s))|
  {
    ActiveIsTouching(contacts, slots, shown, s);
    var m := map slot | slot in slots && slot in TouchingSlots(EndFrame(s)) :: slots[slot];
    InjectiveSize(m);
    assert m.Keys == TouchingSlots(EndFrame(s));
    forall id | id in ActiveIds(Marked(contacts)) ensures id in m.Values {
      var slot :| slot in slots && slots[slot] == id;
      assert slot in m && m[slot] == id;
    }
    assert m.Values == ActiveIds(Marked(contacts));
  }

  lemma {:induction false} BoundedSize(s: set<int>, n: nat)
    requires forall i :: i in s ==> 0 <= i < n
    ensures |s| <= n
  {
    if s != {} {
      var k := Member(s);
      BoundedSize(s - {n - 1}, n - 1);
      if n - 1 in s {
        assert s == (s - {n - 1}) + {n - 1};
      } else {
        assert s == s - {n - 1};
      }
    }
  }

  /** `o` is the least element of `s`, if there is one. */
  ghost predicate IsLeast(o: Option<int>, s: set<int>) {
    match o
    case None => s == {}
    case Some(k) => k in s && forall i :: i in s ==> k <= i
  }

  /** The lowest active slot before cleanup is the lowest touching finger after it. */
  lemma PrimaryIsLeast(maxSlots: int, contacts: Contacts, slots: Slots, shown: Shown, s: Surface, primary: Option<int>)
    requires InStep(contacts, slots, shown, s) && NoneEnded(contacts) && WellFormed(maxSlots, contacts, slots)
    requires primary.Some? ==> ActiveSlot(Marked(contacts), slots, primary.value)
    requires forall slot :: 0 <= slot < maxSlots && ActiveSlot(Marked(contacts), slots, slot) ==>
               primary.Some? && primary.value <= slot
    ensures IsLeast(primary, TouchingSlots(EndFrame(s)))
    ensures |TouchingSlots(EndFrame(s))| > 0 ==> |TouchingSlots(EndFrame(s))| <= maxSlots
    ensures primary.Some? ==>
              && Marked(contacts)[slots[primary.value]].x == EndFrame(s).fingers[primary.value].x
              && Marked(contacts)[slots[primary.value]].y == EndFrame(s).fingers[primary.value].y
  {
    ActiveIsTouching(contacts, slots, shown, s);
    var touching := TouchingSlots(EndFrame(s));
    forall slot | slot in touching ensures 0 <= slot < maxSlots && primary.Some? && primary.value <= slot {
      assert ActiveSlot(Marked(contacts), slots, slot);
    }
    if touching != {} {
      var slot := Member(touching);
      BoundedSize(touching, maxSlots);
    }
    if primary.Some? {
      var slot := primary.value;
      assert slot in touching;
      var id := slots[slot];
      assert Matches(contacts[id], s.fingers[slot]);
    }
  }

  /** Without contacts there are no slots, and nothing is on the receiver. */
  lemma NothingKept(mode: Mode, maxSlots: int, slots: Slots, basicTid: Option<int>, shown: Shown,
                    handedOut: nat, s: Surface, inStep: bool)
    requires Kept(mode, maxSlots, map[], slots, basicTid, shown, handedOut, s, inStep)
    ensures slots == map[] && shown == map[]
    ensures mode.Multitouch? && inStep ==> s == Surface(map[], handedOut, false)
    ensures mode.Multitouch? ==>
              Kept(mode, maxSlots, map[], slots, basicTid, shown, handedOut, Surface(map[], handedOut, false), true)
  {
    forall slot ensures slot !in slots {
    }
    NothingShown(shown);
    assert OnReceiver(map[]) == map[];
  }

  lemma AllEnded(contacts: Contacts)
    ensures KeepContacts(Marked(Unseen(contacts))) == map[]
  {
  }

  /** With no slots in use the receiver has none either. */
  lemma NothingShown(shown: Shown)
    requires Announced(shown, map[])
    ensures shown == map[]
  {
    forall slot ensures slot !in shown {
    }
  }

  lemma EndKept(mode: Mode, maxSlots: int, contacts: Contacts, slots: Slots, basicTid: Option<int>, shown: Shown,
                handedOut: nat, s: Surface, inStep: bool, ids: seq<int>, tidy: bool)
    requires Kept(mode, maxSlots, contacts, slots, basicTid, shown, handedOut, s, inStep)
    requires HasUnseen(contacts, ids)
    requires tidy ==> OnlyUnseen(contacts, ids)
    ensures var marked := Marked(contacts);
            Kept(mode, maxSlots, KeepContacts(marked), KeepSlots(slots, marked), basicTid,
                 if mode.Multitouch? then WithoutIds(shown, slots, ids) else shown,
                 handedOut, EndFrame(s), inStep && tidy)
    ensures mode.Basic? ==> Marked(contacts).Keys <= Singleton(basicTid)
    ensures NoneEnded(contacts)
  {
    EndWellFormed(maxSlots, contacts, slots, shown, ids);
    if mode.Basic? {
      NothingShown(shown);
      EndBasic(contacts, shown, ids);
    } else if inStep && tidy {
      EndInStep(contacts, slots, shown, s, ids);
    }
    hide InStep;
  }

  lemma EndBasic(contacts: Contacts, shown: Shown, ids: seq<int>)
    requires shown == map[]
    ensures WithoutIds(shown, map[], ids) == map[]
    ensures KeepSlots(map[], Marked(contacts)) == map[]
    ensures KeepContacts(Marked(contacts)).Keys <= contacts.Keys
  {
  }

  /** The finger count and the primary slot, as the tracker finds them before cleanup. */
  lemma SummaryKept(maxSlots: int, contacts: Contacts, slots: Slots, basicTid: Option<int>, shown: Shown,
                    handedOut: nat, s: Surface, primary: Option<int>)
    requires Kept(Multitouch, maxSlots, contacts, slots, basicTid, shown, handedOut, s, true)
    requires primary.Some? ==> ActiveSlot(Marked(contacts), slots, primary.value)
    requires forall slot :: 0 <= slot < maxSlots && ActiveSlot(Marked(contacts), slots, slot) ==>
               primary.Some? && primary.value <= slot
    ensures var touching := TouchingSlots(EndFrame(s));
            && |ActiveIds(Marked(contacts))| == |touching|
            && (|touching| > 0 ==> |touching| <= maxSlots)
            && IsLeast(primary, touching)
            && (touching != {} <==> |touching| > 0)
    ensures primary.Some? ==>
              && slots[primary.value] in Marked(contacts)
              && primary.value in EndFrame(s).fingers
              && Marked(contacts)[slots[primary.value]].x == EndFrame(s).fingers[primary.value].x
              && Marked(contacts)[slots[primary.value]].y == EndFrame(s).fingers[primary.value].y
  {
    FingerCount(contacts, slots, shown, s);
    PrimaryIsLeast(maxSlots, contacts, slots, shown, s, primary);
  }

  /** The id that a slot has or gets is a proper one. */
  lemma KeptId(mode: Mode, maxSlots: int, contacts: Contacts, slots: Slots, basicTid: Option<int>, shown: Shown,
               handedOut: nat, s: Surface, inStep: bool, slot: int)
    requires Kept(mode, maxSlots, contacts, slots, basicTid, shown, handedOut, s, inStep)
    ensures slot in slots ==> slots[slot] != -1
  {
  }
}
