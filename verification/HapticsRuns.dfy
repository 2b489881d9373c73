/** Whole runs of the haptics dispatcher, and what becomes of it when a name or a source is used twice. */
module HapticsRuns {
  import opened Options
  import opened Effects
  import opened EffectSlots
  import opened EffectSources
  import opened Haptics

  datatype Op =
    | AddSource(source: string, fd: int)
    | AddSink(sink: string, fd: int, device: Device)
    | Create(source: string, effect: FfEffect)
    | Erase(source: string, virt: int)
    | Upload(source: string, uploaded: Option<FfEffect>, ended: bool)
    | Remove(source: string, removed: Option<int>, ended: bool)
    | PlayEffect(sink: string, source: string, virt: int, magnitude: int, maybeEff: Option<FfEffect>)
    | PlayRequest(sink: string, source: string, virt: int, magnitude: int, effect: FfEffect)
    | Stop(sink: string, source: string, virt: int)

  /** A moment of a run. */
  datatype State = State(sources: map<string, Source>, sinks: map<string, Sink>, nextId: int, counter: int,
                         written: seq<FfEvent>, history: seq<Note>)

  const BEGINNING := State(map[], map[], 0, 0, [], [])

  // ---------------------------------------------------------------------------
  // What each operation does
  // ---------------------------------------------------------------------------

  /** An effect is defined anew: what any sink has of it goes. */
  function Defining(st: State, source: string, virt: int, eff: FfEffect): State
    requires source in st.sources
  {
    st.(sources := Define(st.sources, source, virt, eff), sinks := PurgedAll(st.sinks, Key(source, virt)),
        history := st.history + [Defined(source, virt, eff)])
  }

  function Undefining(st: State, source: string, virt: int): State
    requires source in st.sources
  {
    st.(sources := Undefine(st.sources, source, virt), sinks := PurgedAll(st.sinks, Key(source, virt)),
        history := st.history + [Erased(source, virt)])
  }

  function Registering(st: State, source: string, fd: int): State {
    st.(sources := st.sources[source := Source(fd, map[])], history := st.history + [Registered(source)])
  }

  function Creating(st: State, source: string, effect: FfEffect): (State, int) {
    var known := if source in st.sources then st else Registering(st, source, -1);
    var virt := if effect.id == -1 then st.nextId else effect.id;
    (Defining(known.(nextId := if effect.id == -1 then st.nextId + 1 else st.nextId), source, virt,
              effect.(id := virt)),
     virt)
  }

  /** The events and caches after a request; which free id a device gives is its own choice. */
  ghost predicate Playing(st: State, next: State, sink: string, key: Key, magnitude: int, maybeEff: Option<FfEffect>,
                          result: int)
  {
    && next == st.(sinks := next.sinks, written := next.written,
                   counter := CounterAfter(st.sinks, sink, maybeEff, st.counter))
    && Played(st.sinks, next.sinks, st.written, next.written, sink, st.sources, key, maybeEff, st.counter, magnitude,
              result)
  }

  function Stopping(st: State, sink: string, key: Key): State {
    if sink in st.sinks && st.sinks[sink].fd >= 0 && key in st.sinks[sink].slots then
      st.(written := st.written + [FfEvent(st.sinks[sink].fd, st.sinks[sink].slots[key], 0)])
    else st
  }

  function Flag(ok: bool): int {
    if ok then 1 else 0
  }

  ghost predicate Follows(st: State, next: State, op: Op, result: int) {
    match op
    case AddSource(source, fd) => result == 0 && next == Registering(st, source, fd)
    case AddSink(sink, fd, device) =>
      result == 0 && next == if fd < 0 then st else st.(sinks := st.sinks[sink := Sink(fd, map[], device)])
    case Create(source, effect) => (next, result) == Creating(st, source, effect)
    case Erase(source, virt) =>
      && result == Flag(source in st.sources)
      && next == if source in st.sources then Undefining(st, source, virt) else st
    case Upload(source, uploaded, ended) =>
      && result == Flag(source in st.sources && uploaded.Some? && ended)
      && next == if source in st.sources && uploaded.Some? && ended
                 then Defining(st, source, uploaded.value.id, RebuildEffect(uploaded.value)) else st
    case Remove(source, removed, ended) =>
      && result == Flag(source in st.sources && removed.Some? && ended)
      && next == if source in st.sources && removed.Some? then Undefining(st, source, removed.value) else st
    case PlayEffect(sink, source, virt, magnitude, maybeEff) =>
      Playing(st, next, sink, Key(source, virt), magnitude, maybeEff, result)
    case PlayRequest(sink, source, virt, magnitude, effect) =>
      Playing(st, next, sink, Key(source, virt), magnitude, OneShotOf(st.sources, source, virt, effect), result)
    case Stop(sink, source, virt) =>
      && result == Flag(sink in st.sinks && st.sinks[sink].fd >= 0 && Key(source, virt) in st.sinks[sink].slots)
      && next == Stopping(st, sink, Key(source, virt))
  }

  /** The moments of a run: from the beginning, one operation after the other. */
  ghost predicate IsRun(states: seq<State>, ops: seq<Op>, results: seq<int>) {
    && |states| == |ops| + 1 && |results| == |ops| && states[0] == BEGINNING
    && forall i :: 0 <= i < |ops| ==> Follows(states[i], states[i + 1], ops[i], results[i])
  }

  // ---------------------------------------------------------------------------
  // The dispatcher follows
  // ---------------------------------------------------------------------------

  ghost function Snapshot(d: DispatcherHaptics): State
    reads d
  {
    State(d.sources, d.sinks, d.internalIdCounter, d.oneshotCounter, d.written, d.history)
  }

  method Do(d: DispatcherHaptics, op: Op) returns (result: int)
    modifies d
    ensures Follows(old(Snapshot(d)), Snapshot(d), op, result)
  {
    hide Sane, AllBacked, HeardIs, PlaysLatest, Played, Define, Undefine, PurgedAll, RebuildEffect;
    result := 0;
    match op {
      case AddSource(source, fd) => d.RegisterSource(source, fd);
      case AddSink(sink, fd, device) => d.RegisterSink(sink, fd, device);
      case Create(source, effect) => result := DoCreate(d, source, effect);
      case Erase(source, virt) =>
        var ok := d.ErasePersistentEffect(source, virt);
        result := Flag(ok);
      case Upload(source, uploaded, ended) =>
        if source in d.sources {
          var ok := d.HandleUpload(source, uploaded, ended);
          result := Flag(ok);
        }
      case Remove(source, removed, ended) =>
        if source in d.sources {
          var ok := d.HandleErase(source, removed, ended);
          result := Flag(ok);
        }
      case PlayEffect(sink, source, virt, magnitude, maybeEff) =>
        result := d.PlayEffect(sink, source, virt, magnitude, maybeEff);
      case PlayRequest(sink, source, virt, magnitude, effect) =>
        result := d.HapticsPlay(sink, source, virt, magnitude, effect);
      case Stop(sink, source, virt) =>
        var ok := d.StopEffect(sink, source, virt);
        result := Flag(ok);
    }
  }

  method DoCreate(d: DispatcherHaptics, source: string, effect: FfEffect) returns (virt: int)
    modifies d
    ensures (Snapshot(d), virt) == Creating(old(Snapshot(d)), source, effect)
  {
    hide Sane, AllBacked, Define, PurgedAll;
    virt := d.CreatePersistentEffect(source, effect);
    assert old(d.history) + [] == old(d.history);
  }

  // ---------------------------------------------------------------------------
  // What holds at every moment of every run
  // ---------------------------------------------------------------------------

  /** Nobody names a source like the one-shots, and a device is empty when it is opened. */
  predicate Proper(op: Op) {
    && (op.AddSource? || op.Create? ==> op.source != HAPTICS_SOURCE_ONESHOT)
    && (op.AddSink? ==> op.device.effects == map[])
  }

  ghost predicate InOrder(st: State) {
    Sane(st.sources, st.sinks, st.counter, st.history)
  }

  ghost predicate Remembers(st: State) {
    AllBacked(st.sources, st.sinks)
  }

  /** A source is registered again while one of its effects is cached. */
  ghost predicate ForgetsCached(st: State, op: Op) {
    op.AddSource? && exists i, k :: i in st.sinks && k in st.sinks[i].slots && k.source == op.source
  }

  /** What is promised of a request to play. */
  ghost predicate PlaysAsSaid(st: State, next: State, op: Op, result: int) {
    && (op.PlayRequest? ==>
          HeardIs(st.sinks, next.sinks, st.written, next.written, op.sink,
                  Intended(st.history, op.source, op.virt, op.effect), op.magnitude, result))
    && (op.PlayEffect? && (op.maybeEff.Some? || op.source != HAPTICS_SOURCE_ONESHOT) && Remembers(st) ==>
          PlaysLatest(st.sinks, next.sinks, st.written, next.written, op.sink,
                      Wanted(st.history, Key(op.source, op.virt), op.maybeEff), op.magnitude, result))
  }

  lemma RegisteringKeeps(st: State, source: string, fd: int)
    requires InOrder(st) && source != HAPTICS_SOURCE_ONESHOT
    ensures InOrder(Registering(st, source, fd))
    ensures Remembers(st) ==>
              (Remembers(Registering(st, source, fd)) <==> !ForgetsCached(st, AddSource(source, fd)))
  {
    RegisterKeepsSane(st.sources, st.sinks, st.counter, st.history, source, Source(fd, map[]));
    hide Sane, AllBacked;
  }

  lemma CreatingKeeps(st: State, source: string, effect: FfEffect)
    requires InOrder(st) && source != HAPTICS_SOURCE_ONESHOT
    ensures InOrder(Creating(st, source, effect).0)
    ensures Remembers(st) ==> Remembers(Creating(st, source, effect).0)
  {
    hide Sane, AllBacked, Define, PurgedAll;
    var known := if source in st.sources then st else Registering(st, source, -1);
    if source !in st.sources {
      if Remembers(st) {
        UnknownIsNotCached(st.sources, st.sinks, source);
      }
      RegisteringKeeps(st, source, -1);
    }
    var virt := if effect.id == -1 then st.nextId else effect.id;
    DefineKeepsSane(known.sources, known.sinks, known.counter, known.history, source, virt, effect.(id := virt));
  }

  lemma PlayingKeeps(st: State, next: State, sink: string, key: Key, magnitude: int, maybeEff: Option<FfEffect>,
                     result: int)
    requires InOrder(st) && Playing(st, next, sink, key, magnitude, maybeEff, result)
    ensures InOrder(next) && (Remembers(st) ==> Remembers(next))
  {
    hide Sane, AllBacked, PlayStep;
    if sink in st.sinks && st.sinks[sink].fd >= 0 {
      PlayKeepsSane(st.sinks, next.sinks, sink, st.sources, key, maybeEff, st.counter, st.history, result);
    }
  }

  lemma RequestIsHeard(st: State, next: State, op: Op, result: int)
    requires InOrder(st) && Follows(st, next, op, result)
    ensures PlaysAsSaid(st, next, op, result)
  {
    hide Sane, AllBacked, Played, HeardIs, PlaysLatest, Wanted, Intended;
    if op.PlayRequest? {
      var key, maybeEff := Key(op.source, op.virt), OneShotOf(st.sources, op.source, op.virt, op.effect);
      IntendedIsMeant(st.sources, st.sinks, st.counter, st.history, op.source, op.virt, op.effect, maybeEff);
      PlayIsHeard(st.sinks, next.sinks, st.written, next.written, op.sink, st.sources, key, maybeEff, st.counter,
                  st.history, op.magnitude, result);
    } else if op.PlayEffect? && (op.maybeEff.Some? || op.source != HAPTICS_SOURCE_ONESHOT) && Remembers(st) {
      DirectPlayIsLatest(st.sinks, next.sinks, st.written, next.written, op.sink, st.sources, Key(op.source, op.virt),
                         op.maybeEff, st.counter, st.history, op.magnitude, result);
    }
  }

  lemma EmptySinkIsGood(sources: map<string, Source>, fd: int, device: Device, counter: int)
    requires device.effects == map[] && fd >= 0
    ensures SinkGood(Sink(fd, map[], device), sources, counter) && Backed(Sink(fd, map[], device), sources)
  {
  }

  lemma AddingSinkKeeps(st: State, sink: string, fd: int, device: Device)
    requires InOrder(st) && fd >= 0 && device.effects == map[]
    ensures var next := st.(sinks := st.sinks[sink := Sink(fd, map[], device)]);
            InOrder(next) && (Remembers(st) ==> Remembers(next))
  {
    EmptySinkIsGood(st.sources, fd, device, st.counter);
    hide SinkGood, Backed, Tracks;
  }

  /** One proper operation keeps what holds. */
  lemma StepKeeps(st: State, next: State, op: Op, result: int)
    requires InOrder(st) && Follows(st, next, op, result) && Proper(op)
    ensures InOrder(next)
    ensures Remembers(st) && !ForgetsCached(st, op) ==> Remembers(next)
  {
    hide Sane, AllBacked, Playing, Define, Undefine, PurgedAll, RebuildEffect, Creating;
    match op
    case AddSource(source, fd) => RegisteringKeeps(st, source, fd);
    case AddSink(sink, fd, device) =>
      if fd >= 0 {
        AddingSinkKeeps(st, sink, fd, device);
      }
    case Create(source, effect) => CreatingKeeps(st, source, effect);
    case Erase(source, virt) =>
      if source in st.sources {
        UndefineKeepsSane(st.sources, st.sinks, st.counter, st.history, source, virt);
      }
    case Upload(source, uploaded, ended) =>
      if source in st.sources && uploaded.Some? && ended {
        DefineKeepsSane(st.sources, st.sinks, st.counter, st.history, source, uploaded.value.id,
                        RebuildEffect(uploaded.value));
      }
    case Remove(source, removed, ended) =>
      if source in st.sources && removed.Some? {
        UndefineKeepsSane(st.sources, st.sinks, st.counter, st.history, source, removed.value);
      }
    case PlayEffect(sink, source, virt, magnitude, maybeEff) =>
      PlayingKeeps(st, next, sink, Key(source, virt), magnitude, maybeEff, result);
    case PlayRequest(sink, source, virt, magnitude, effect) =>
      PlayingKeeps(st, next, sink, Key(source, virt), magnitude, OneShotOf(st.sources, source, virt, effect), result);
    case Stop(sink, source, virt) =>
  }

  /** The first `n` operations are proper. */
  predicate ProperUpTo(ops: seq<Op>, n: nat)
    requires n <= |ops|
  {
    forall i :: 0 <= i < n ==> Proper(ops[i])
  }

  /** None of the first `n` operations leaves a cached effect without a definition. */
  ghost predicate RemembersUpTo(states: seq<State>, ops: seq<Op>, n: nat)
    requires n <= |ops| && n <= |states|
  {
    forall i :: 0 <= i < n ==> !ForgetsCached(states[i], ops[i])
  }

  /**
    At every moment of every run up to which the operations are proper: the sources are what was last
    said, and all caches are coherent, injective and free of leaks; and every cached effect is still
    defined unless a source was registered again over its cached effects.
    */
  lemma {:induction false} RunKeeps(states: seq<State>, ops: seq<Op>, results: seq<int>, n: nat)
    requires IsRun(states, ops, results) && n <= |ops| && ProperUpTo(ops, n)
    ensures InOrder(states[n])
    ensures RemembersUpTo(states, ops, n) ==> Remembers(states[n])
    decreases n
  {
    if n == 0 {
      assert InOrder(BEGINNING) && Remembers(BEGINNING);
    } else {
      hide InOrder, Remembers, Follows, Proper, ForgetsCached;
      RunKeeps(states, ops, results, n - 1);
      assert Follows(states[n - 1], states[n - 1 + 1], ops[n - 1], results[n - 1]);
      StepKeeps(states[n - 1], states[n], ops[n - 1], results[n - 1]);
    }
  }

  /**
    And there every request of a script plays the last upload or its own effect; until a cached effect
    is forgotten, so does every direct request.
    */
  lemma RunPlaysAsSaid(states: seq<State>, ops: seq<Op>, results: seq<int>, n: nat)
    requires IsRun(states, ops, results) && n < |ops| && ProperUpTo(ops, n)
    ensures PlaysAsSaid(states[n], states[n + 1], ops[n], results[n])
  {
    hide InOrder, Remembers, Follows, Proper, PlaysAsSaid;
    RunKeeps(states, ops, results, n);
    assert Follows(states[n], states[n + 1], ops[n], results[n]);
    RequestIsHeard(states[n], states[n + 1], ops[n], results[n]);
  }

  /** Whatever the operations, the dispatcher makes a run of them. */
  method RunOps(ops: seq<Op>) returns (results: seq<int>, ghost states: seq<State>)
    ensures IsRun(states, ops, results)
    ensures |results| == |ops|
    ensures forall i :: 0 <= i <= |ops| && ProperUpTo(ops, i) ==> InOrder(states[i])
    ensures forall i :: 0 <= i <= |ops| && ProperUpTo(ops, i) && RemembersUpTo(states, ops, i) ==> Remembers(states[i])
    ensures forall i :: 0 <= i < |ops| && ProperUpTo(ops, i) ==>
              PlaysAsSaid(states[i], states[i + 1], ops[i], results[i])
  {
    hide InOrder, Remembers, PlaysAsSaid, ProperUpTo, RemembersUpTo, Follows;
    var d := new DispatcherHaptics();
    results := [];
    states := [Snapshot(d)];
    for n := 0 to |ops|
      invariant fresh(d) && |results| == n && |states| == n + 1
      invariant states[0] == BEGINNING && states[n] == Snapshot(d)
      invariant forall i :: 0 <= i < n ==> Follows(states[i], states[i + 1], ops[i], results[i])
    {
      var result := Do(d, ops[n]);
      results := results + [result];
      states := states + [Snapshot(d)];
    }
    forall i | 0 <= i <= |ops| && ProperUpTo(ops, i)
      ensures InOrder(states[i]) && (RemembersUpTo(states, ops, i) ==> Remembers(states[i]))
    {
      RunKeeps(states, ops, results, i);
    }
    forall i | 0 <= i < |ops| && ProperUpTo(ops, i)
      ensures PlaysAsSaid(states[i], states[i + 1], ops[i], results[i])
    {
      RunPlaysAsSaid(states, ops, results, i);
    }
  }

  // ---------------------------------------------------------------------------
  // From an upload to the device
  // ---------------------------------------------------------------------------

  /** The operation may change what the source says of the effect `virt`. */
  predicate Touches(op: Op, result: int, source: string, virt: int) {
    match op
    case AddSource(s, _) => s == source
    case Create(s, _) => s == source && result == virt
    case Erase(s, v) => s == source && v == virt
    case Upload(s, uploaded, _) => s == source && uploaded.Some? && uploaded.value.id == virt
    case Remove(s, removed, _) => s == source && removed == Some(virt)
    case _ => false
  }

  /** Nothing touches the effect after operation `n` and before operation `m`. */
  predicate LeftAlone(ops: seq<Op>, results: seq<int>, n: nat, m: nat, source: string, virt: int)
    requires m <= |ops| && |results| == |ops|
  {
    forall k :: n < k < m ==> !Touches(ops[k], results[k], source, virt)
  }

  ghost predicate Says(st: State, source: string, virt: int, eff: FfEffect) {
    Defines(st.sources, source, virt) && st.sources[source].effects[virt] == eff
  }

  lemma StaysSaid(st: State, next: State, op: Op, result: int, source: string, virt: int, eff: FfEffect)
    requires Follows(st, next, op, result) && !Touches(op, result, source, virt) && Says(st, source, virt, eff)
    ensures Says(next, source, virt, eff)
  {
    hide PurgedAll, Played, RebuildEffect, OneShotOf, CounterAfter;
  }

  lemma {:induction false} StillSaid(states: seq<State>, ops: seq<Op>, results: seq<int>, n: nat, m: nat,
                                     source: string, virt: int, eff: FfEffect)
    requires IsRun(states, ops, results) && n < m <= |ops| && Says(states[n + 1], source, virt, eff)
    requires LeftAlone(ops, results, n, m, source, virt)
    ensures Says(states[m], source, virt, eff)
    decreases m
  {
    hide Follows, Says, Touches;
    if m > n + 1 {
      StillSaid(states, ops, results, n, m - 1, source, virt, eff);
      Moment(states, ops, results, m - 1);
      StaysSaid(states[m - 1], states[m], ops[m - 1], results[m - 1], source, virt, eff);
    }
  }

  /** The request is heard, as one start of an effect that feels like `felt`. */
  ghost predicate Starts(st: State, next: State, sink: string, magnitude: int, result: int, felt: FfEffect) {
    && sink in st.sinks && sink in next.sinks && result in next.sinks[sink].device.effects
    && next.written == st.written + [FfEvent(st.sinks[sink].fd, result, magnitude)]
    && next.sinks[sink].device.effects[result] == felt.(id := next.sinks[sink].device.effects[result].id)
  }

  lemma SaidIsPlayed(st: State, next: State, op: Op, result: int, eff: FfEffect)
    requires InOrder(st) && Follows(st, next, op, result) && op.PlayRequest? && op.source != "" && op.virt >= 0
    requires Says(st, op.source, op.virt, eff)
    requires op.sink in st.sinks && Playable(st.sinks[op.sink].device, eff)
    ensures Starts(st, next, op.sink, op.magnitude, result, eff)
  {
    hide Follows, Playable;
    RequestIsHeard(st, next, op, result);
    assert Latest(st.history, op.source, op.virt) == Some(eff);
    hide Sane, Latest;
  }

  /** What a device holds of an uploaded effect: an effect of a type the program does not know becomes a rumble. */
  predicate FeelsLike(felt: FfEffect, eff: FfEffect) {
    && felt.direction == eff.direction && felt.delay == eff.delay
    && felt.button == eff.button && felt.interval == eff.interval
    && (if eff.force.Other? then
          felt.force == Rumble(0x4000, 0x4000) && felt.length == if eff.length != 0 then eff.length else 250
        else
          felt.force == eff.force && felt.length == eff.length)
  }

  lemma RebuiltFeels(eff: FfEffect)
    ensures FeelsLike(RebuildEffect(eff), eff)
  {
  }

  /**
   From an upload to a later request, whatever happens in between to other effects, other sources and
   any sink: a sink that can play the effect, or a rumble where its type is unknown, starts it.
   */
  lemma UploadIsPlayed(states: seq<State>, ops: seq<Op>, results: seq<int>, n: nat, m: nat)
    requires IsRun(states, ops, results) && n < m < |ops| && ProperUpTo(ops, m)
    requires ops[n].Upload? && ops[n].uploaded.Some? && ops[n].uploaded.value.id >= 0
    requires ops[n].source != "" && results[n] == 1
    requires LeftAlone(ops, results, n, m, ops[n].source, ops[n].uploaded.value.id)
    requires ops[m].PlayRequest? && ops[m].source == ops[n].source && ops[m].virt == ops[n].uploaded.value.id
    requires ops[m].sink in states[m].sinks
    requires var device, eff := states[m].sinks[ops[m].sink].device, ops[n].uploaded.value;
             device.capacity > 0 && (if eff.force.Other? then RumbleKind else KindOf(eff)) in device.accepts
    ensures exists felt :: FeelsLike(felt, ops[n].uploaded.value)
                           && Starts(states[m], states[m + 1], ops[m].sink, ops[m].magnitude, results[m], felt)
  {
    var eff, source := ops[n].uploaded.value, ops[n].source;
    Moment(states, ops, results, n);
    assert Says(states[n + 1], source, eff.id, RebuildEffect(eff));
    assert Playable(states[m].sinks[ops[m].sink].device, RebuildEffect(eff));
    RebuiltFeels(eff);
    StillSaid(states, ops, results, n, m, source, eff.id, RebuildEffect(eff));
    RunKeeps(states, ops, results, m);
    Moment(states, ops, results, m);
    hide Follows, RebuildEffect, Starts, FeelsLike, Says, InOrder, IsRun, Playable, KindOf, LeftAlone;
    SaidIsPlayed(states[m], states[m + 1], ops[m], results[m], RebuildEffect(eff));
  }

  lemma NextIdGrows(st: State, next: State, op: Op, result: int)
    requires Follows(st, next, op, result)
    ensures st.nextId <= next.nextId
    ensures op.Create? && op.effect.id == -1 ==> result == st.nextId < next.nextId
  {
    hide Define, Undefine, PurgedAll, RebuildEffect, Played;
  }

  lemma {:induction false} NextIdStaysAbove(states: seq<State>, ops: seq<Op>, results: seq<int>, n: nat, m: nat)
    requires IsRun(states, ops, results) && n <= m <= |ops|
    ensures states[n].nextId <= states[m].nextId
    decreases m
  {
    hide Follows;
    if m > n {
      NextIdStaysAbove(states, ops, results, n, m - 1);
      Moment(states, ops, results, m - 1);
      NextIdGrows(states[m - 1], states[m], ops[m - 1], results[m - 1]);
    }
  }

  /** Effects created without an id get ids of their own, all sources taken together. */
  lemma CreatedIdsDiffer(states: seq<State>, ops: seq<Op>, results: seq<int>, n: nat, m: nat)
    requires IsRun(states, ops, results) && n < m < |ops|
    requires ops[n].Create? && ops[m].Create? && ops[n].effect.id == ops[m].effect.id == -1
    ensures 0 <= results[n] < results[m]
  {
    NextIdStaysAbove(states, ops, results, 0, n);
    NextIdStaysAbove(states, ops, results, n + 1, m);
    Moment(states, ops, results, n);
    Moment(states, ops, results, m);
    hide Follows;
    NextIdGrows(states[n], states[n + 1], ops[n], results[n]);
    NextIdGrows(states[m], states[m + 1], ops[m], results[m]);
  }

  /** And from a script's own effect to a later request for the id that it got. */
  lemma CreatedIsPlayed(states: seq<State>, ops: seq<Op>, results: seq<int>, n: nat, m: nat)
    requires IsRun(states, ops, results) && n < m < |ops| && ProperUpTo(ops, m)
    requires ops[n].Create? && ops[n].source != "" && results[n] >= 0
    requires LeftAlone(ops, results, n, m, ops[n].source, results[n])
    requires ops[m].PlayRequest? && ops[m].source == ops[n].source && ops[m].virt == results[n]
    requires ops[m].sink in states[m].sinks && Playable(states[m].sinks[ops[m].sink].device, ops[n].effect)
    ensures Starts(states[m], states[m + 1], ops[m].sink, ops[m].magnitude, results[m], ops[n].effect)
    ensures ops[n].effect.id != -1 ==> results[n] == ops[n].effect.id
  {
    var source, virt := ops[n].source, results[n];
    var eff := ops[n].effect.(id := virt);
    Moment(states, ops, results, n);
    assert Says(states[n + 1], source, virt, eff);
    KindIgnoresId(ops[n].effect, virt);
    StillSaid(states, ops, results, n, m, source, virt, eff);
    RunKeeps(states, ops, results, m);
    Moment(states, ops, results, m);
    hide Follows, Says, InOrder, IsRun, KindOf, LeftAlone;
    SaidIsPlayed(states[m], states[m + 1], ops[m], results[m], eff);
  }

  ghost predicate Unsaid(st: State, source: string, virt: int) {
    !Defines(st.sources, source, virt)
  }

  lemma StaysUnsaid(st: State, next: State, op: Op, result: int, source: string, virt: int)
    requires Follows(st, next, op, result) && !Touches(op, result, source, virt) && Unsaid(st, source, virt)
    ensures Unsaid(next, source, virt)
  {
    hide PurgedAll, Played, RebuildEffect, OneShotOf, CounterAfter;
  }

  lemma {:induction false} StillUnsaid(states: seq<State>, ops: seq<Op>, results: seq<int>, n: nat, m: nat,
                                       source: string, virt: int)
    requires IsRun(states, ops, results) && n < m <= |ops| && Unsaid(states[n + 1], source, virt)
    requires LeftAlone(ops, results, n, m, source, virt)
    ensures Unsaid(states[m], source, virt)
    decreases m
  {
    hide Follows, Unsaid, Touches;
    if m > n + 1 {
      StillUnsaid(states, ops, results, n, m - 1, source, virt);
      Moment(states, ops, results, m - 1);
      StaysUnsaid(states[m - 1], states[m], ops[m - 1], results[m - 1], source, virt);
    }
  }

  lemma UnsaidIsSilent(st: State, next: State, op: Op, result: int)
    requires op.PlayEffect? || op.PlayRequest?
    requires InOrder(st) && Follows(st, next, op, result) && Unsaid(st, op.source, op.virt)
    ensures op.PlayEffect? && op.maybeEff.None? && op.source != HAPTICS_SOURCE_ONESHOT && Remembers(st) ==>
              result == -1 && next.written == st.written
    ensures op.PlayRequest? && op.sink in st.sinks && Playable(st.sinks[op.sink].device, op.effect) ==>
              Starts(st, next, op.sink, op.magnitude, result, op.effect)
  {
    hide Follows, Playable;
    RequestIsHeard(st, next, op, result);
    assert Latest(st.history, op.source, op.virt) == None;
    hide Sane, Latest;
  }

  /**
   After an erasure, until the effect is defined again: a script's request starts the effect that it brings,
   and a direct request that brings none starts nothing.
   */
  lemma ErasedIsNotPlayed(states: seq<State>, ops: seq<Op>, results: seq<int>, n: nat, m: nat)
    requires IsRun(states, ops, results) && n < m < |ops| && ProperUpTo(ops, m)
    requires ops[n].Erase? && (ops[m].PlayEffect? || ops[m].PlayRequest?)
    requires ops[m].source == ops[n].source && ops[m].virt == ops[n].virt
    requires LeftAlone(ops, results, n, m, ops[n].source, ops[n].virt)
    ensures ops[m].PlayEffect? && ops[m].maybeEff.None? && ops[n].source != HAPTICS_SOURCE_ONESHOT
            && RemembersUpTo(states, ops, m) ==>
              results[m] == -1 && states[m + 1].written == states[m].written
    ensures ops[m].PlayRequest? && ops[m].sink in states[m].sinks
            && Playable(states[m].sinks[ops[m].sink].device, ops[m].effect) ==>
              Starts(states[m], states[m + 1], ops[m].sink, ops[m].magnitude, results[m], ops[m].effect)
  {
    Moment(states, ops, results, n);
    assert Unsaid(states[n + 1], ops[n].source, ops[n].virt);
    StillUnsaid(states, ops, results, n, m, ops[n].source, ops[n].virt);
    RunKeeps(states, ops, results, m);
    Moment(states, ops, results, m);
    hide Follows, Starts, Unsaid, InOrder, Remembers, RemembersUpTo, ProperUpTo, Playable, LeftAlone;
    UnsaidIsSilent(states[m], states[m + 1], ops[m], results[m]);
  }

  // ---------------------------------------------------------------------------
  // What the two conditions are for
  // ---------------------------------------------------------------------------

  /**
    A one-shot that is uploaded leaves the cache tidy if and only if its key was not in use,
    and no source but one with the reserved name can have put it there.
    */
  lemma OneShotIsTidyIff(before: Sink, after: Sink, sources: map<string, Source>, key: Key, eff: FfEffect,
                         counter: int, realId: int)
    requires Tidy(before) && PlayStep(before, after, sources, key, Some(eff), counter, realId) && realId >= 0
    ensures Tidy(after) <==> Key(HAPTICS_SOURCE_ONESHOT, counter) !in Room(before).slots
  {
    StoreIsTidyIff(before, after.(slots := Room(before).slots), eff, realId, Key(HAPTICS_SOURCE_ONESHOT, counter));
    hide Tidy;
  }

  const PAD := Sink(3, map[], Device(2, {RumbleKind}, map[]))

  /** A sink with room for two effects plays its first one. */
  lemma FirstPlay(after: Sink, sources: map<string, Source>, key: Key, eff: FfEffect, realId: int)
    requires PlayStep(PAD, after, sources, key, None, 0, realId)
    requires Defines(sources, key.source, key.virt) && sources[key.source].effects[key.virt] == eff
    requires KindOf(eff) == RumbleKind
    ensures realId >= 0 && Tidy(after) && key in after.slots && !Full(after.device)
    ensures Playable(after.device, eff) && after.fd == PAD.fd
  {
    assert 0 !in PAD.device.effects;
    assert !Full(PAD.device) && Tidy(PAD);
    StoreIsTidyIff(PAD, after.(slots := map[]), eff, realId, key);
    assert after.device.effects.Keys == {realId};
    assert 0 !in after.device.effects || 1 !in after.device.effects;
  }

  /** A one-shot then takes over the key that the first effect was cached under. */
  lemma SecondPlay(before: Sink, after: Sink, sources: map<string, Source>, key: Key, eff: FfEffect, realId: int)
    requires Tidy(before) && !Full(before.device) && Playable(before.device, eff)
    requires Key(HAPTICS_SOURCE_ONESHOT, 0) in before.slots
    requires PlayStep(before, after, sources, key, Some(eff), 0, realId)
    ensures realId >= 0 && !Tidy(after)
  {
    OneShotIsTidyIff(before, after, sources, key, eff, 0, realId);
    hide Tidy;
  }

  lemma KindIgnoresId(effect: FfEffect, id: int)
    ensures KindOf(effect.(id := id)) == KindOf(effect)
  {
  }

  /** An effect is created for a new source and played on a sink that has just been opened. */
  function CreateAndPlay(source: string, effect: FfEffect): seq<Op> {
    [AddSink("pad", PAD.fd, PAD.device), Create(source, effect), PlayEffect("pad", source, 0, 1, None)]
  }

  lemma Moment(states: seq<State>, ops: seq<Op>, results: seq<int>, n: nat)
    requires IsRun(states, ops, results) && n < |ops|
    ensures Follows(states[n], states[n + 1], ops[n], results[n])
  {
  }

  /** After that the effect is cached, and the device could take one more. */
  lemma AfterFirstPlay(states: seq<State>, ops: seq<Op>, results: seq<int>, source: string, effect: FfEffect)
    requires IsRun(states, ops, results) && |ops| >= 3 && ops[..3] == CreateAndPlay(source, effect)
    requires KindOf(effect) == RumbleKind && effect.id == -1
    ensures var st := states[3];
            && "pad" in st.sinks && st.sinks["pad"].fd == PAD.fd && st.counter == 0 && st.sinks.Keys == {"pad"}
            && Tidy(st.sinks["pad"]) && !Full(st.sinks["pad"].device) && Key(source, 0) in st.sinks["pad"].slots
            && st.sinks["pad"].device.accepts == PAD.device.accepts && st.sinks["pad"].device.capacity == 2
            && source in st.sources
  {
    hide Tidy, Full, PlayStep, KindOf;
    Moment(states, ops, results, 0);
    Moment(states, ops, results, 1);
    Moment(states, ops, results, 2);
    assert ops[0] == ops[..3][0] && ops[1] == ops[..3][1] && ops[2] == ops[..3][2];
    assert states[2].sinks["pad"] == PAD;
    KindIgnoresId(effect, 0);
    FirstPlay(states[3].sinks["pad"], states[2].sources, Key(source, 0), effect.(id := 0), results[2]);
    PlayKeepsDevice(PAD, states[3].sinks["pad"], states[2].sources, Key(source, 0), None, 0, results[2]);
  }

  lemma PlayKeepsDevice(before: Sink, after: Sink, sources: map<string, Source>, key: Key, maybeEff: Option<FfEffect>,
                        counter: int, realId: int)
    requires PlayStep(before, after, sources, key, maybeEff, counter, realId)
    ensures after.device.accepts == before.device.accepts && after.device.capacity == before.device.capacity
  {
  }

  /** A source with the reserved name, and a one-shot: a device effect leaks, whatever ids the device gives. */
  lemma ReservedNameLeaks(states: seq<State>, results: seq<int>, effect: FfEffect)
    requires KindOf(effect) == RumbleKind && effect.id == -1
    requires IsRun(states, CreateAndPlay(HAPTICS_SOURCE_ONESHOT, effect)
                             + [PlayEffect("pad", "", -1, 1, Some(effect))], results)
    ensures "pad" in states[4].sinks && !Tidy(states[4].sinks["pad"])
  {
    hide Tidy, Full, PlayStep, KindOf;
    var ops := CreateAndPlay(HAPTICS_SOURCE_ONESHOT, effect) + [PlayEffect("pad", "", -1, 1, Some(effect))];
    assert ops[..3] == CreateAndPlay(HAPTICS_SOURCE_ONESHOT, effect);
    AfterFirstPlay(states, ops, results, HAPTICS_SOURCE_ONESHOT, effect);
    Moment(states, ops, results, 3);
    SecondPlay(states[3].sinks["pad"], states[4].sinks["pad"], states[3].sources, Key("", -1), effect, results[3]);
  }

  /** A source that is registered again while its effect is cached: the forgotten effect is played once more. */
  lemma ForgottenEffectPlays(states: seq<State>, results: seq<int>, source: string, effect: FfEffect)
    requires KindOf(effect) == RumbleKind && effect.id == -1 && source != HAPTICS_SOURCE_ONESHOT
    requires IsRun(states, CreateAndPlay(source, effect)
                             + [AddSource(source, -1), PlayEffect("pad", source, 0, 1, None)], results)
    ensures InOrder(states[4]) && Latest(states[4].history, source, 0) == None
    ensures results[4] >= 0 && states[5].written == states[4].written + [FfEvent(PAD.fd, results[4], 1)]
    ensures !PlaysLatest(states[4].sinks, states[5].sinks, states[4].written, states[5].written, "pad",
                         Wanted(states[4].history, Key(source, 0), None), 1, results[4])
  {
    hide Tidy, Full, PlayStep, KindOf, Sane, Latest, Wanted, PlaysLatest;
    var ops := CreateAndPlay(source, effect) + [AddSource(source, -1), PlayEffect("pad", source, 0, 1, None)];
    assert ops[..3] == CreateAndPlay(source, effect);
    AfterFirstPlay(states, ops, results, source, effect);
    RunKeeps(states, ops, results, 4);
    Moment(states, ops, results, 3);
    LatestAfter(states[3].history, Registered(source), source, 0);
    Moment(states, ops, results, 4);
    var st, next := states[4], states[5];
    assert !Defines(st.sources, source, 0);
    ForgottenIsPlayed(st.sources, st.sinks, st.counter, st.history, "pad", Key(source, 0), st.written, 1);
    CachedIsPlayed(st.sinks, next.sinks, st.written, next.written, "pad", st.sources, Key(source, 0), st.counter, 1,
                   results[4]);
  }

  lemma CachedIsPlayed(sinks: map<string, Sink>, after: map<string, Sink>, written: seq<FfEvent>, longer: seq<FfEvent>,
                       sinkId: string, sources: map<string, Source>, key: Key, counter: int, magnitude: int,
                       realId: int)
    requires sinkId in sinks && sinks[sinkId].fd >= 0 && key in sinks[sinkId].slots
    requires Played(sinks, after, written, longer, sinkId, sources, key, None, counter, magnitude, realId)
    ensures after == sinks && realId == sinks[sinkId].slots[key]
    ensures longer == written + [FfEvent(sinks[sinkId].fd, realId, magnitude)]
  {
  }
}
