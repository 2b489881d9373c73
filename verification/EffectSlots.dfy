/** A sink's cache of effect ids next to the bounded effect table of its device. */
module EffectSlots {
  import opened Effects
  import opened Pairs

  datatype Key = Key(source: string, virt: int)

  /** The kernel's side: effects are kept under ids below `capacity`, and only some types are accepted. */
  datatype Device = Device(capacity: nat, accepts: set<Kind>, effects: map<int, FfEffect>)

  datatype Sink = Sink(fd: int, slots: map<Key, int>, device: Device)

  datatype Reply = Accepted(id: int) | NoSpace | Rejected

  // ---------------------------------------------------------------------------
  // The two requests a device answers
  // ---------------------------------------------------------------------------

  predicate Full(device: Device) {
    forall id :: 0 <= id < device.capacity ==> id in device.effects
  }

  predicate Playable(device: Device, eff: FfEffect) {
    device.capacity > 0 && KindOf(eff) in device.accepts
  }

  /** A type the device lacks is rejected; otherwise the effect gets a free id if there is one. */
  predicate Answers(device: Device, eff: FfEffect, reply: Reply) {
    if KindOf(eff) !in device.accepts then reply == Rejected
    else if Full(device) then reply == NoSpace
    else reply.Accepted? && 0 <= reply.id < device.capacity && reply.id !in device.effects
  }

  function Holding(device: Device, id: int, eff: FfEffect): Device {
    device.(effects := device.effects[id := eff.(id := id)])
  }

  function Without(device: Device, ids: set<int>): Device {
    device.(effects := device.effects - ids)
  }

  method Submit(device: Device, eff: FfEffect) returns (reply: Reply)
    ensures Answers(device, eff, reply)
  {
    if KindOf(eff) !in device.accepts {
      return Rejected;
    }
    for id := 0 to device.capacity
      invariant forall i :: 0 <= i < id ==> i in device.effects
    {
      if id !in device.effects {
        return Accepted(id);
      }
    }
    return NoSpace;
  }

  // ---------------------------------------------------------------------------
  // The cache
  // ---------------------------------------------------------------------------

  ghost predicate Injective(slots: map<Key, int>) {
    forall j, k :: j in slots && k in slots && slots[j] == slots[k] ==> j == k
  }

  /** The cached ids are the device's ids, each under one key: nothing dangles, nothing is shared, nothing leaks. */
  ghost predicate Tidy(sink: Sink) {
    && Injective(sink.slots)
    && sink.slots.Values == sink.device.effects.Keys
    && (forall id :: id in sink.device.effects ==>
          0 <= id < sink.device.capacity && KindOf(sink.device.effects[id]) in sink.device.accepts)
  }

  function Purged(sink: Sink, key: Key): Sink {
    if key in sink.slots then
      sink.(slots := sink.slots - {key}, device := Without(sink.device, {sink.slots[key]}))
    else
      sink
  }

  function Evicted(sink: Sink): Sink {
    sink.(slots := map[], device := Without(sink.device, sink.slots.Values))
  }

  function Stored(sink: Sink, key: Key, realId: int): Sink {
    sink.(slots := sink.slots[key := realId])
  }

  /** Where there is no room, everything cached is thrown out. */
  function Room(sink: Sink): Sink {
    if Full(sink.device) then Evicted(sink) else sink
  }

  ghost predicate Uploaded(before: Sink, after: Sink, eff: FfEffect, realId: int) {
    if KindOf(eff) !in before.device.accepts then
      realId == -1 && after == before
    else if Full(Room(before).device) then
      realId == -1 && after == Room(before)
    else
      && 0 <= realId < before.device.capacity && realId !in Room(before).device.effects
      && after == Room(before).(device := Holding(Room(before).device, realId, eff))
  }

  lemma EvictOne(device: Device, slots: map<Key, int>, todo: set<Key>, gone: set<int>, key: Key)
    requires key in todo && todo <= slots.Keys && gone <= slots.Values
    requires forall k :: k in slots && k !in todo ==> slots[k] in gone
    ensures Without(Without(device, gone), {slots[key]}) == Without(device, gone + {slots[key]})
    ensures gone + {slots[key]} <= slots.Values
    ensures forall k :: k in slots && k !in todo - {key} ==> slots[k] in gone + {slots[key]}
  {
  }

  lemma AllGone(slots: map<Key, int>, gone: set<int>)
    requires gone <= slots.Values && forall k :: k in slots ==> slots[k] in gone
    ensures gone == slots.Values
  {
  }

  lemma NothingGone(device: Device)
    ensures Without(device, {}) == device
  {
  }

  /** Removes everything cached from the device, in any order. */
  method EvictSlots(sink: Sink) returns (evicted: Sink)
    ensures evicted == Evicted(sink)
  {
    var device := sink.device;
    var todo := sink.slots.Keys;
    ghost var gone := {};
    NothingGone(device);
    while todo != {}
      invariant todo <= sink.slots.Keys
      invariant device == Without(sink.device, gone)
      invariant gone <= sink.slots.Values
      invariant forall k :: k in sink.slots && k !in todo ==> sink.slots[k] in gone
      decreases |todo|
    {
      hide Without;
      var key := Next(todo);
      EvictOne(sink.device, sink.slots, todo, gone, key);
      todo := todo - {key};
      device := Without(device, {sink.slots[key]});
      gone := gone + {sink.slots[key]};
    }
    AllGone(sink.slots, gone);
    evicted := sink.(slots := map[], device := device);
  }

  /** One upload: at first as it is, and once more after an eviction when the device had no room. */
  method UploadEffect(sink: Sink, eff: FfEffect) returns (after: Sink, realId: int)
    ensures Uploaded(sink, after, eff, realId)
  {
    after := sink;
    var reply := Submit(after.device, eff);
    if reply.NoSpace? {
      after := EvictSlots(after);
      reply := Submit(after.device, eff);
    }
    match reply {
      case Accepted(id) =>
        after := after.(device := Holding(after.device, id, eff));
        realId := id;
      case _ =>
        realId := -1;
    }
  }

  // ---------------------------------------------------------------------------
  // What keeps the cache tidy
  // ---------------------------------------------------------------------------

  lemma ValuesWithout(slots: map<Key, int>, key: Key)
    requires Injective(slots) && key in slots
    ensures (slots - {key}).Values == slots.Values - {slots[key]}
  {
    var rest := slots - {key};
    forall id | id in slots.Values - {slots[key]} ensures id in rest.Values {
      var k :| k in slots && slots[k] == id;
      assert k in rest;
    }
  }

  lemma ValuesWith(slots: map<Key, int>, key: Key, id: int)
    requires key !in slots
    ensures slots[key := id].Values == slots.Values + {id}
  {
    var more := slots[key := id];
    assert key in more;
    forall i | i in slots.Values ensures i in more.Values {
      var k :| k in slots && slots[k] == i;
      assert k in more && more[k] == i;
    }
  }

  lemma PurgeKeepsTidy(sink: Sink, key: Key)
    requires Tidy(sink)
    ensures Tidy(Purged(sink, key))
  {
    if key in sink.slots {
      ValuesWithout(sink.slots, key);
    }
  }

  /** Throwing out what is cached empties the device, so the upload that follows cannot lack room. */
  lemma EvictionEmpties(sink: Sink)
    requires Tidy(sink)
    ensures Tidy(Evicted(sink)) && Evicted(sink).device.effects == map[]
    ensures Full(Evicted(sink).device) <==> sink.device.capacity == 0
  {
    var device := Evicted(sink).device;
    if sink.device.capacity > 0 {
      assert 0 !in device.effects;
    }
  }

  /** An upload succeeds exactly when the device has room for one effect at all and knows the type. */
  lemma UploadSucceedsIff(before: Sink, after: Sink, eff: FfEffect, realId: int)
    requires Tidy(before) && Uploaded(before, after, eff, realId)
    ensures realId >= 0 <==> Playable(before.device, eff)
    ensures realId < 0 ==> realId == -1 && Tidy(after)
  {
    hide Tidy;
    EvictionEmpties(before);
    if before.device.capacity == 0 {
      assert Full(before.device);
    }
  }

  /**
    The id of a successful upload is stored under a key; that leaves the cache tidy
    if and only if the key was not in use, for otherwise the id it named is lost.
    */
  lemma StoreIsTidyIff(before: Sink, after: Sink, eff: FfEffect, realId: int, key: Key)
    requires Tidy(before) && Uploaded(before, after, eff, realId) && realId >= 0
    ensures Tidy(Stored(after, key, realId)) <==> key !in after.slots
  {
    var room := Room(before);
    EvictionEmpties(before);
    assert Tidy(room) && after.slots == room.slots;
    StoreIdIsTidyIff(room, eff, realId, key);
  }

  lemma StoreIdIsTidyIff(room: Sink, eff: FfEffect, id: int, key: Key)
    requires Tidy(room) && KindOf(eff) in room.device.accepts
    requires 0 <= id < room.device.capacity && id !in room.device.effects
    ensures Tidy(Stored(room.(device := Holding(room.device, id, eff)), key, id)) <==> key !in room.slots
  {
    var stored := Stored(room.(device := Holding(room.device, id, eff)), key, id);
    if key !in room.slots {
      ValuesWith(room.slots, key, id);
    } else {
      var lost := room.slots[key];
      assert lost in room.slots.Values;
      forall k | k in stored.slots ensures stored.slots[k] != lost {
        assert k != key ==> k in room.slots;
      }
      assert lost !in stored.slots.Values && lost in stored.device.effects.Keys;
    }
  }

  /** While the device has room nothing that is cached or on the device is lost; the new effect comes to it. */
  lemma UploadKeepsOthers(before: Sink, after: Sink, eff: FfEffect, realId: int, free: int)
    requires Uploaded(before, after, eff, realId) && 0 <= free < before.device.capacity
    requires free !in before.device.effects
    ensures after.slots == before.slots
    ensures realId < 0 ==> after == before
    ensures realId >= 0 ==> after.device.effects.Keys == before.device.effects.Keys + {realId}
    ensures realId >= 0 ==> realId !in before.device.effects
    ensures forall id :: id in before.device.effects ==>
              id in after.device.effects && after.device.effects[id] == before.device.effects[id]
  {
    assert !Full(before.device);
  }
}
