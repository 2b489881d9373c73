/** The dispatcher of force-feedback effects: virtual effects per source, cached as real effects per sink. */
module Haptics {
  import opened Options
  import opened Pairs
  import opened Effects
  import opened EffectSlots
  import opened EffectSources

  /** An event written to a sink: start (`value` > 0) or stop the effect `code`. */
  datatype FfEvent = FfEvent(fd: int, code: int, value: int)

  function PurgedAll(sinks: map<string, Sink>, key: Key): map<string, Sink> {
    map id | id in sinks :: Purged(sinks[id], key)
  }

  /** An upload whose id, if there is one, is stored under a key. */
  ghost predicate UploadedUnder(before: Sink, after: Sink, eff: FfEffect, realId: int, key: Key) {
    if realId < 0 then
      Uploaded(before, after, eff, realId)
    else
      var uploaded := after.(slots := Room(before).slots);
      Uploaded(before, uploaded, eff, realId) && after == Stored(uploaded, key, realId)
  }

  /** What playing does to a sink that exists: the effect is taken from the cache or uploaded. */
  ghost predicate PlayStep(before: Sink, after: Sink, sources: map<string, Source>, key: Key,
                           maybeEff: Option<FfEffect>, counter: int, realId: int)
  {
    match maybeEff
    case Some(eff) => UploadedUnder(before, after, eff, realId, Key(HAPTICS_SOURCE_ONESHOT, counter))
    case None =>
      if key in before.slots then
        realId == before.slots[key] && after == before
      else if Defines(sources, key.source, key.virt) then
        UploadedUnder(before, after, sources[key.source].effects[key.virt], realId, key)
      else
        realId == -1 && after == before
  }

  // ---------------------------------------------------------------------------
  // The invariant
  // ---------------------------------------------------------------------------

  ghost predicate SinkGood(sink: Sink, sources: map<string, Source>, counter: int) {
    sink.fd >= 0 && Tidy(sink) && Coherent(sink, sources) && OneShotsBelow(sink, counter)
  }

  /** No source has the name kept for one-shots, the sources are what was last said, and every cache is right. */
  ghost predicate Sane(sources: map<string, Source>, sinks: map<string, Sink>, counter: int, history: seq<Note>) {
    && HAPTICS_SOURCE_ONESHOT !in sources
    && Tracks(history, sources)
    && forall id :: id in sinks ==> SinkGood(sinks[id], sources, counter)
  }

  ghost predicate AllBacked(sources: map<string, Source>, sinks: map<string, Sink>) {
    forall id :: id in sinks ==> Backed(sinks[id], sources)
  }

  lemma PurgeKeepsSinkGood(sink: Sink, before: map<string, Source>, after: map<string, Source>, counter: int, key: Key)
    requires SinkGood(sink, before, counter) && AgreeBut(before, after, key)
    ensures SinkGood(Purged(sink, key), after, counter)
    ensures Backed(sink, before) ==> Backed(Purged(sink, key), after)
  {
    PurgeKeepsTidy(sink, key);
    PurgeKeepsCoherent(sink, before, after, key);
    hide Tidy, Coherent, Backed;
  }

  lemma PurgeAllKeepsGood(sinks: map<string, Sink>, before: map<string, Source>, after: map<string, Source>,
                          counter: int, key: Key)
    requires forall id :: id in sinks ==> SinkGood(sinks[id], before, counter)
    requires AgreeBut(before, after, key)
    ensures forall id :: id in PurgedAll(sinks, key) ==> SinkGood(PurgedAll(sinks, key)[id], after, counter)
    ensures AllBacked(before, sinks) ==> AllBacked(after, PurgedAll(sinks, key))
  {
    hide SinkGood, AgreeBut, Backed, Purged;
    forall id | id in sinks
      ensures SinkGood(Purged(sinks[id], key), after, counter)
      ensures Backed(sinks[id], before) ==> Backed(Purged(sinks[id], key), after)
    {
      PurgeKeepsSinkGood(sinks[id], before, after, counter, key);
    }
  }

  /** An upload or a creation: the effect is defined anew, and no sink keeps what it was. */
  lemma DefineKeepsSane(sources: map<string, Source>, sinks: map<string, Sink>, counter: int, history: seq<Note>,
                        source: string, virt: int, eff: FfEffect)
    requires Sane(sources, sinks, counter, history) && source in sources
    ensures Sane(Define(sources, source, virt, eff), PurgedAll(sinks, Key(source, virt)), counter,
                 history + [Defined(source, virt, eff)])
    ensures AllBacked(sources, sinks) ==>
              AllBacked(Define(sources, source, virt, eff), PurgedAll(sinks, Key(source, virt)))
  {
    TracksDefined(history, sources, source, virt, eff);
    PurgeAllKeepsGood(sinks, sources, Define(sources, source, virt, eff), counter, Key(source, virt));
    hide SinkGood, Tracks, AllBacked, PurgedAll;
  }

  lemma UndefineKeepsSane(sources: map<string, Source>, sinks: map<string, Sink>, counter: int, history: seq<Note>,
                          source: string, virt: int)
    requires Sane(sources, sinks, counter, history) && source in sources
    ensures Sane(Undefine(sources, source, virt), PurgedAll(sinks, Key(source, virt)), counter,
                 history + [Erased(source, virt)])
    ensures AllBacked(sources, sinks) ==>
              AllBacked(Undefine(sources, source, virt), PurgedAll(sinks, Key(source, virt)))
  {
    TracksErased(history, sources, source, virt);
    PurgeAllKeepsGood(sinks, sources, Undefine(sources, source, virt), counter, Key(source, virt));
    hide SinkGood, Tracks, AllBacked, PurgedAll;
  }

  lemma RegisterKeepsSane(sources: map<string, Source>, sinks: map<string, Sink>, counter: int, history: seq<Note>,
                          id: string, source: Source)
    requires Sane(sources, sinks, counter, history) && id != HAPTICS_SOURCE_ONESHOT && source.effects == map[]
    ensures Sane(sources[id := source], sinks, counter, history + [Registered(id)])
    ensures AllBacked(sources, sinks) ==>
              (AllBacked(sources[id := source], sinks) <==>
               forall i, k :: i in sinks && k in sinks[i].slots ==> k.source != id)
  {
    TracksRegistered(history, sources, id, source);
    forall i | i in sinks
      ensures SinkGood(sinks[i], sources[id := source], counter)
      ensures Backed(sinks[i], sources) ==>
                (Backed(sinks[i], sources[id := source]) <==> forall k :: k in sinks[i].slots ==> k.source != id)
    {
      RegistrationKeepsCoherent(sinks[i], sources, id, source);
    }
    hide SinkGood, Tracks, Backed;
  }

  lemma UnknownIsNotCached(sources: map<string, Source>, sinks: map<string, Sink>, id: string)
    requires AllBacked(sources, sinks) && id !in sources && id != HAPTICS_SOURCE_ONESHOT
    ensures forall i, k :: i in sinks && k in sinks[i].slots ==> k.source != id
  {
    forall i, k | i in sinks && k in sinks[i].slots ensures k.source != id {
      assert Backed(sinks[i], sources);
    }
  }

  // ---------------------------------------------------------------------------
  // Playing
  // ---------------------------------------------------------------------------

  /** The effect a request means. */
  function Meant(sources: map<string, Source>, key: Key, maybeEff: Option<FfEffect>): Option<FfEffect> {
    if maybeEff.Some? then maybeEff
    else if Defines(sources, key.source, key.virt) then Some(sources[key.source].effects[key.virt])
    else None
  }

  lemma UploadUnderKeepsGood(before: Sink, after: Sink, sources: map<string, Source>, eff: FfEffect, realId: int,
                             key: Key, counter: int, later: int)
    requires SinkGood(before, sources, counter) && UploadedUnder(before, after, eff, realId, key)
    requires key !in before.slots && counter <= later
    requires key.source == HAPTICS_SOURCE_ONESHOT ==> key.virt < later
    requires Defines(sources, key.source, key.virt) ==> Same(eff, sources[key.source].effects[key.virt])
    ensures SinkGood(after, sources, later)
    ensures Backed(before, sources) && (key.source == HAPTICS_SOURCE_ONESHOT || Defines(sources, key.source, key.virt))
        ==> Backed(after, sources)
    ensures realId >= 0 <==> Playable(before.device, eff)
    ensures realId >= 0 ==>
              key in after.slots && after.slots[key] == realId
              && realId in after.device.effects && Same(after.device.effects[realId], eff)
  {
    var uploaded := if realId < 0 then after else after.(slots := Room(before).slots);
    UploadSucceedsIff(before, uploaded, eff, realId);
    if realId >= 0 {
      StoreIsTidyIff(before, uploaded, eff, realId, key);
      StoreKeepsCoherent(before, uploaded, sources, eff, realId, key);
    }
    hide Tidy, Full, Playable;
  }

  /** Playing what the cache holds or can get: the outcome of one request. */
  lemma PlayStepMeans(before: Sink, after: Sink, sources: map<string, Source>, key: Key,
                      maybeEff: Option<FfEffect>, counter: int, realId: int)
    requires SinkGood(before, sources, counter) && HAPTICS_SOURCE_ONESHOT !in sources
    requires PlayStep(before, after, sources, key, maybeEff, counter, realId)
    ensures SinkGood(after, sources, if maybeEff.Some? then counter + 1 else counter)
    ensures Backed(before, sources) ==> Backed(after, sources)
    ensures var meant := Meant(sources, key, maybeEff);
            realId >= 0 <==> if meant.Some? then Playable(before.device, meant.value) else key in before.slots
    ensures realId >= 0 && Meant(sources, key, maybeEff).Some? ==>
              realId in after.device.effects && Same(after.device.effects[realId], Meant(sources, key, maybeEff).value)
  {
    var meant := Meant(sources, key, maybeEff);
    if maybeEff.Some? {
      UploadUnderKeepsGood(before, after, sources, maybeEff.value, realId, Key(HAPTICS_SOURCE_ONESHOT, counter),
                           counter, counter + 1);
    } else if key in before.slots {
      CachedIsUsable(before, key);
      assert meant.Some? ==> KindOf(before.device.effects[before.slots[key]]) == KindOf(meant.value);
    } else if meant.Some? {
      UploadUnderKeepsGood(before, after, sources, meant.value, realId, key, counter, counter);
    }
    hide Tidy, UploadedUnder, Playable, Same, Backed;
  }

  lemma PlayKeepsSane(sinks: map<string, Sink>, after: map<string, Sink>, sinkId: string, sources: map<string, Source>,
                      key: Key, maybeEff: Option<FfEffect>, counter: int, history: seq<Note>, realId: int)
    requires Sane(sources, sinks, counter, history)
    requires sinkId in sinks && sinkId in after && after == sinks[sinkId := after[sinkId]]
    requires PlayStep(sinks[sinkId], after[sinkId], sources, key, maybeEff, counter, realId)
    ensures Sane(sources, after, if maybeEff.Some? then counter + 1 else counter, history)
    ensures AllBacked(sources, sinks) ==> AllBacked(sources, after)
  {
    hide Tidy, Coherent, PlayStep, Tracks, Backed;
    PlayStepMeans(sinks[sinkId], after[sinkId], sources, key, maybeEff, counter, realId);
  }

  /** What a play request means, going by what was last said about the effect. */
  function Intended(history: seq<Note>, source: string, id: int, eff: FfEffect): FfEffect {
    var latest := Latest(history, source, id);
    if source != "" && id >= 0 && latest.Some? then latest.value else eff
  }

  lemma IntendedIsMeant(sources: map<string, Source>, sinks: map<string, Sink>, counter: int, history: seq<Note>,
                        source: string, id: int, eff: FfEffect, maybeEff: Option<FfEffect>)
    requires Sane(sources, sinks, counter, history)
    requires maybeEff == if source == "" || id < 0 || !Defines(sources, source, id) then Some(eff) else None
    ensures Meant(sources, Key(source, id), maybeEff) == Some(Intended(history, source, id, eff))
  {
    assert Latest(history, source, id).Some? <==> Defines(sources, source, id);
  }

  /** The one-shot that a script's request brings, used if the source does not define the effect it names. */
  function OneShotOf(sources: map<string, Source>, source: string, id: int, eff: FfEffect): Option<FfEffect> {
    if source == "" || id < 0 || !Defines(sources, source, id) then Some(eff) else None
  }

  /** One-shots are numbered, even if they are then not played, as long as the sink is there. */
  function CounterAfter(sinks: map<string, Sink>, sinkId: string, maybeEff: Option<FfEffect>, counter: int): int {
    counter + if sinkId in sinks && sinks[sinkId].fd >= 0 && maybeEff.Some? then 1 else 0
  }

  /** All that one request changes in the sinks, and the event it writes. */
  ghost predicate Played(sinks: map<string, Sink>, after: map<string, Sink>, written: seq<FfEvent>,
                         longer: seq<FfEvent>, sinkId: string, sources: map<string, Source>, key: Key,
                         maybeEff: Option<FfEffect>, counter: int, magnitude: int, realId: int)
  {
    if sinkId !in sinks || sinks[sinkId].fd < 0 then
      realId == -1 && after == sinks && longer == written
    else
      && sinkId in after && after == sinks[sinkId := after[sinkId]]
      && PlayStep(sinks[sinkId], after[sinkId], sources, key, maybeEff, counter, realId)
      && longer == if realId >= 0 || (maybeEff.None? && key in sinks[sinkId].slots)
                   then written + [FfEvent(after[sinkId].fd, realId, magnitude)]
                   else written
  }

  /**
    A play request is heard if and only if the sink exists and its device can play the effect at all;
    it is heard as one start of an effect that the device holds and that feels like the one intended.
    */
  ghost predicate HeardIs(sinks: map<string, Sink>, after: map<string, Sink>, written: seq<FfEvent>,
                          longer: seq<FfEvent>, sinkId: string, intended: FfEffect, magnitude: int, realId: int)
  {
    && (realId >= 0 <==> sinkId in sinks && Playable(sinks[sinkId].device, intended))
    && (realId < 0 ==> longer == written)
    && (realId >= 0 ==>
          && sinkId in after && after[sinkId].fd == sinks[sinkId].fd
          && longer == written + [FfEvent(after[sinkId].fd, realId, magnitude)]
          && realId in after[sinkId].device.effects && Same(after[sinkId].device.effects[realId], intended))
  }

  lemma PlayIsHeard(sinks: map<string, Sink>, after: map<string, Sink>, written: seq<FfEvent>, longer: seq<FfEvent>,
                    sinkId: string, sources: map<string, Source>, key: Key, maybeEff: Option<FfEffect>, counter: int,
                    history: seq<Note>, magnitude: int, realId: int)
    requires Sane(sources, sinks, counter, history) && Meant(sources, key, maybeEff).Some?
    requires Played(sinks, after, written, longer, sinkId, sources, key, maybeEff, counter, magnitude, realId)
    ensures HeardIs(sinks, after, written, longer, sinkId, Meant(sources, key, maybeEff).value, magnitude, realId)
  {
    if sinkId in sinks {
      assert SinkGood(sinks[sinkId], sources, counter);
      PlayStepMeans(sinks[sinkId], after[sinkId], sources, key, maybeEff, counter, realId);
      if maybeEff.None? && key in sinks[sinkId].slots {
        CachedIsUsable(sinks[sinkId], key);
      }
      assert after[sinkId].fd == sinks[sinkId].fd;
    }
  }

  /** The effect that a direct request means, going by what was last said. */
  function Wanted(history: seq<Note>, key: Key, maybeEff: Option<FfEffect>): Option<FfEffect> {
    if maybeEff.Some? then maybeEff else Latest(history, key.source, key.virt)
  }

  ghost predicate PlaysLatest(sinks: map<string, Sink>, after: map<string, Sink>, written: seq<FfEvent>,
                              longer: seq<FfEvent>, sinkId: string, wanted: Option<FfEffect>, magnitude: int,
                              realId: int)
  {
    match wanted
    case Some(eff) => HeardIs(sinks, after, written, longer, sinkId, eff, magnitude, realId)
    case None => realId == -1 && longer == written
  }

  /** Where every cached effect is still defined, a direct request plays the latest upload or nothing. */
  lemma DirectPlayIsLatest(sinks: map<string, Sink>, after: map<string, Sink>, written: seq<FfEvent>,
                           longer: seq<FfEvent>, sinkId: string, sources: map<string, Source>, key: Key,
                           maybeEff: Option<FfEffect>, counter: int, history: seq<Note>, magnitude: int, realId: int)
    requires Sane(sources, sinks, counter, history) && AllBacked(sources, sinks)
    requires maybeEff.Some? || key.source != HAPTICS_SOURCE_ONESHOT
    requires Played(sinks, after, written, longer, sinkId, sources, key, maybeEff, counter, magnitude, realId)
    ensures PlaysLatest(sinks, after, written, longer, sinkId, Wanted(history, key, maybeEff), magnitude, realId)
  {
    WantedIsMeant(sources, sinks, counter, history, key, maybeEff);
    if Meant(sources, key, maybeEff).Some? {
      PlayIsHeard(sinks, after, written, longer, sinkId, sources, key, maybeEff, counter, history, magnitude, realId);
    } else if sinkId in sinks && sinks[sinkId].fd >= 0 {
      assert Backed(sinks[sinkId], sources);
      assert key !in sinks[sinkId].slots;
    }
  }

  /** Every direct request, of whatever sink and effect, plays the latest upload or nothing. */
  ghost predicate AllPlayLatest(sources: map<string, Source>, sinks: map<string, Sink>, counter: int,
                                history: seq<Note>) {
    forall after, written, longer, sinkId, key: Key, maybeEff: Option<FfEffect>, magnitude, realId ::
      && (maybeEff.Some? || key.source != HAPTICS_SOURCE_ONESHOT)
      && Played(sinks, after, written, longer, sinkId, sources, key, maybeEff, counter, magnitude, realId)
      ==> PlaysLatest(sinks, after, written, longer, sinkId, Wanted(history, key, maybeEff), magnitude, realId)
  }

  /** A cached effect that its source no longer defines is played on request although nothing should be. */
  lemma ForgottenIsPlayed(sources: map<string, Source>, sinks: map<string, Sink>, counter: int, history: seq<Note>,
                          sinkId: string, key: Key, written: seq<FfEvent>, magnitude: int)
    requires Sane(sources, sinks, counter, history)
    requires sinkId in sinks && key in sinks[sinkId].slots && !Defines(sources, key.source, key.virt)
    ensures var realId := sinks[sinkId].slots[key];
            var longer := written + [FfEvent(sinks[sinkId].fd, realId, magnitude)];
            && realId >= 0
            && Played(sinks, sinks, written, longer, sinkId, sources, key, None, counter, magnitude, realId)
            && !PlaysLatest(sinks, sinks, written, longer, sinkId, Wanted(history, key, None), magnitude, realId)
  {
    WantedIsMeant(sources, sinks, counter, history, key, None);
    CachedIsUsable(sinks[sinkId], key);
    hide Sane, Tidy;
    assert sinks == sinks[sinkId := sinks[sinkId]];
  }

  /** Direct requests play the latest upload exactly while every cached effect is still defined. */
  lemma AllPlayLatestIff(sources: map<string, Source>, sinks: map<string, Sink>, counter: int, history: seq<Note>)
    requires Sane(sources, sinks, counter, history)
    ensures AllPlayLatest(sources, sinks, counter, history) <==> AllBacked(sources, sinks)
  {
    if AllBacked(sources, sinks) {
      forall after, written, longer, sinkId, key: Key, maybeEff: Option<FfEffect>, magnitude, realId |
        && (maybeEff.Some? || key.source != HAPTICS_SOURCE_ONESHOT)
        && Played(sinks, after, written, longer, sinkId, sources, key, maybeEff, counter, magnitude, realId)
        ensures PlaysLatest(sinks, after, written, longer, sinkId, Wanted(history, key, maybeEff), magnitude, realId)
      {
        DirectPlayIsLatest(sinks, after, written, longer, sinkId, sources, key, maybeEff, counter, history,
                           magnitude, realId);
      }
    } else {
      var sinkId :| sinkId in sinks && !Backed(sinks[sinkId], sources);
      var key :| key in sinks[sinkId].slots && key.source != HAPTICS_SOURCE_ONESHOT
                 && !Defines(sources, key.source, key.virt);
      ForgottenIsPlayed(sources, sinks, counter, history, sinkId, key, [], 1);
    }
    hide Sane, PlaysLatest, Played, Wanted;
  }

  lemma WantedIsMeant(sources: map<string, Source>, sinks: map<string, Sink>, counter: int, history: seq<Note>,
                      key: Key, maybeEff: Option<FfEffect>)
    requires Sane(sources, sinks, counter, history)
    ensures Wanted(history, key, maybeEff) == Meant(sources, key, maybeEff)
  {
    assert Latest(history, key.source, key.virt).Some? <==> Defines(sources, key.source, key.virt);
  }

  lemma CachedIsUsable(sink: Sink, key: Key)
    requires Tidy(sink) && key in sink.slots
    ensures sink.slots[key] in sink.device.effects && sink.slots[key] >= 0
    ensures Playable(sink.device, sink.device.effects[sink.slots[key]])
  {
    assert sink.slots[key] in sink.slots.Values;
  }

  method PurgeSink(sink: Sink, key: Key) returns (purged: Sink)
    ensures purged == Purged(sink, key)
  {
    if key !in sink.slots {
      return sink;
    }
    var realId := sink.slots[key];
    purged := sink.(device := Without(sink.device, {realId}));
    purged := purged.(slots := purged.slots - {key});
  }

  ghost predicate ErasedEverywhere(before: map<string, Source>, after: map<string, Source>,
                                   sinks: map<string, Sink>, purged: map<string, Sink>,
                                   history: seq<Note>, longer: seq<Note>, source: string, virt: int)
  {
    && source in before
    && after == Undefine(before, source, virt)
    && purged == PurgedAll(sinks, Key(source, virt))
    && longer == history + [Erased(source, virt)]
  }

  // ---------------------------------------------------------------------------
  // The dispatcher
  // ---------------------------------------------------------------------------

  class DispatcherHaptics {
    var sources: map<string, Source>
    var sinks: map<string, Sink>
    var internalIdCounter: int
    var oneshotCounter: int
    var written: seq<FfEvent>  // all events written to sinks
    ghost var history: seq<Note>

    ghost predicate Good()
      reads this
    {
      Sane(sources, sinks, oneshotCounter, history)
    }

    ghost predicate Everything()
      reads this
    {
      AllBacked(sources, sinks)
    }

    constructor ()
      ensures Good() && Everything()
      ensures sources == map[] && sinks == map[] && internalIdCounter == 0 && oneshotCounter == 0
      ensures written == [] && history == []
    {
      sources, sinks, internalIdCounter, oneshotCounter, written, history := map[], map[], 0, 0, [], [];
    }

    /** Creates or replaces a source, with no effects. */
    method RegisterSource(id: string, fd: int)
      modifies `sources, `history
      ensures sources == old(sources)[id := Source(fd, map[])]
      ensures history == old(history) + [Registered(id)]
      ensures old(Good()) && id != HAPTICS_SOURCE_ONESHOT ==> Good()
      ensures old(Good() && Everything()) && id != HAPTICS_SOURCE_ONESHOT ==>
                (Everything() <==> forall i, k :: i in sinks && k in sinks[i].slots ==> k.source != id)
    {
      ghost var before := sources;
      sources := sources[id := Source(fd, map[])];
      history := history + [Registered(id)];
      if old(Good()) && id != HAPTICS_SOURCE_ONESHOT {
        RegisterKeepsSane(before, sinks, oneshotCounter, old(history), id, Source(fd, map[]));
      }
    }

    /** A sink starts with an empty cache; `device` is what has just been opened as `fd`. */
    method RegisterSink(id: string, fd: int, device: Device)
      modifies `sinks
      ensures sinks == if fd < 0 then old(sinks) else old(sinks)[id := Sink(fd, map[], device)]
      ensures old(Good()) && device.effects == map[] ==> Good()
      ensures old(Everything()) ==> Everything()
    {
      if fd < 0 {
        return;
      }
      sinks := sinks[id := Sink(fd, map[], device)];
    }

    method PropagateEraseToSinks(source: string, virt: int)
      modifies `sinks
      ensures sinks == PurgedAll(old(sinks), Key(source, virt))
    {
      hide Purged;
      var key := Key(source, virt);
      var todo := sinks.Keys;
      while todo != {}
        invariant todo <= old(sinks).Keys
        invariant sinks.Keys == old(sinks).Keys
        invariant forall id :: id in sinks ==>
                  sinks[id] == if id in todo then old(sinks)[id] else Purged(old(sinks)[id], key)
        decreases |todo|
      {
        var id := Next(todo);
        todo := todo - {id};
        var sink := PurgeSink(sinks[id], key);
        sinks := sinks[id := sink];
      }
    }

    method UploadEffectToSink(sinkId: string, eff: FfEffect) returns (realId: int)
      modifies `sinks
      ensures sinkId !in old(sinks) ==> realId == -1 && sinks == old(sinks)
      ensures sinkId in old(sinks) ==>
                && sinkId in sinks && sinks == old(sinks)[sinkId := sinks[sinkId]]
                && Uploaded(old(sinks)[sinkId], sinks[sinkId], eff, realId)
    {
      if sinkId !in sinks {
        return -1;
      }
      var sink;
      sink, realId := UploadEffect(sinks[sinkId], eff);
      sinks := sinks[sinkId := sink];
    }

    /** Uploads, and remembers the id under `key`. */
    method UploadAndStore(sinkId: string, eff: FfEffect, key: Key) returns (realId: int)
      requires sinkId in sinks
      modifies `sinks
      ensures sinkId in sinks && sinks == old(sinks)[sinkId := sinks[sinkId]]
      ensures UploadedUnder(old(sinks)[sinkId], sinks[sinkId], eff, realId, key)
      ensures realId >= -1
    {
      realId := UploadEffectToSink(sinkId, eff);
      if realId < 0 {
        return -1;
      }
      ghost var uploaded := sinks[sinkId];
      sinks := sinks[sinkId := Stored(sinks[sinkId], key, realId)];
      assert sinks[sinkId].(slots := Room(old(sinks)[sinkId]).slots) == uploaded;
    }

    /** Defines an effect, under a new id unless it brings its own. */
    method CreatePersistentEffect(source: string, eff: FfEffect) returns (virt: int)
      modifies `sources, `sinks, `internalIdCounter, `history
      ensures virt == if eff.id == -1 then old(internalIdCounter) else eff.id
      ensures internalIdCounter == if eff.id == -1 then old(internalIdCounter) + 1 else old(internalIdCounter)
      ensures var known := if source in old(sources) then old(sources) else old(sources)[source := Source(-1, map[])];
              sources == Define(known, source, virt, eff.(id := virt))
      ensures sinks == PurgedAll(old(sinks), Key(source, virt))
      ensures history == old(history) + (if source in old(sources) then [] else [Registered(source)])
                         + [Defined(source, virt, eff.(id := virt))]
      ensures old(Good()) && source != HAPTICS_SOURCE_ONESHOT ==> Good()
      ensures old(Good() && Everything()) && source != HAPTICS_SOURCE_ONESHOT ==> Everything()
    {
      hide Sane, AllBacked, Define, PurgedAll;
      if source !in sources {
        if Everything() && source != HAPTICS_SOURCE_ONESHOT {
          UnknownIsNotCached(sources, sinks, source);
        }
        RegisterSource(source, -1);
      }
      virt := eff.id;
      if virt == -1 {
        virt := internalIdCounter;
        internalIdCounter := internalIdCounter + 1;
      }
      ghost var known, earlier := sources, history;
      PropagateEraseToSinks(source, virt);
      DefineIn(source, virt, eff.(id := virt));
      history := history + [Defined(source, virt, eff.(id := virt))];
      if Sane(known, old(sinks), oneshotCounter, earlier) {
        DefineKeepsSane(known, old(sinks), oneshotCounter, earlier, source, virt, eff.(id := virt));
      }
    }

    method DefineIn(source: string, virt: int, eff: FfEffect)
      requires source in sources
      modifies `sources
      ensures sources == Define(old(sources), source, virt, eff)
    {
      var ctx := sources[source];
      sources := sources[source := ctx.(effects := ctx.effects[virt := eff])];
    }

    method UndefineIn(source: string, virt: int)
      requires source in sources
      modifies `sources
      ensures sources == Undefine(old(sources), source, virt)
    {
      var ctx := sources[source];
      sources := sources[source := ctx.(effects := ctx.effects - {virt})];
    }

    method ErasePersistentEffect(source: string, virt: int) returns (ok: bool)
      modifies `sources, `sinks, `history
      ensures ok == (source in old(sources))
      ensures !ok ==> sources == old(sources) && sinks == old(sinks) && history == old(history)
      ensures ok ==> ErasedEverywhere(old(sources), sources, old(sinks), sinks, old(history), history, source, virt)
      ensures old(Good()) ==> Good()
      ensures old(Good() && Everything()) ==> Everything()
    {
      if source !in sources {
        return false;
      }
      hide Sane, AllBacked, Undefine, PurgedAll;
      PropagateEraseToSinks(source, virt);
      UndefineIn(source, virt);
      history := history + [Erased(source, virt)];
      if old(Good()) {
        UndefineKeepsSane(old(sources), old(sinks), oneshotCounter, old(history), source, virt);
      }
      return true;
    }

    /** An upload announced by the source's own device; `begun` and `ended` are the outcomes of the two requests. */
    method HandleUpload(source: string, begun: Option<FfEffect>, ended: bool) returns (ok: bool)
      requires source in sources
      modifies `sources, `sinks, `history
      ensures ok == (begun.Some? && ended)
      ensures !ok ==> sources == old(sources) && sinks == old(sinks) && history == old(history)
      ensures ok ==>
                var virt, eff := begun.value.id, RebuildEffect(begun.value);
                && sources == Define(old(sources), source, virt, eff)
                && sinks == PurgedAll(old(sinks), Key(source, virt))
                && history == old(history) + [Defined(source, virt, eff)]
      ensures old(Good()) ==> Good()
      ensures old(Good() && Everything()) ==> Everything()
    {
      if begun.None? || !ended {
        return false;
      }
      hide Sane, AllBacked, Define, PurgedAll, RebuildEffect;
      var virt := begun.value.id;
      var normalized := RebuildEffect(begun.value);
      DefineIn(source, virt, normalized);
      PropagateEraseToSinks(source, virt);
      history := history + [Defined(source, virt, normalized)];
      if old(Good()) {
        DefineKeepsSane(old(sources), old(sinks), oneshotCounter, old(history), source, virt, normalized);
      }
      return true;
    }

    /** An erasure announced by the source's own device: it is done even if it cannot be confirmed. */
    method HandleErase(source: string, begun: Option<int>, ended: bool) returns (ok: bool)
      requires source in sources
      modifies `sources, `sinks, `history
      ensures ok == (begun.Some? && ended)
      ensures begun.None? ==> sources == old(sources) && sinks == old(sinks) && history == old(history)
      ensures begun.Some? ==>
                ErasedEverywhere(old(sources), sources, old(sinks), sinks, old(history), history, source, begun.value)
      ensures old(Good()) ==> Good()
      ensures old(Good() && Everything()) ==> Everything()
    {
      if begun.None? {
        return false;
      }
      hide Sane, AllBacked, Undefine, PurgedAll;
      var virt := begun.value;
      UndefineIn(source, virt);
      PropagateEraseToSinks(source, virt);
      history := history + [Erased(source, virt)];
      if old(Good()) {
        UndefineKeepsSane(old(sources), old(sinks), oneshotCounter, old(history), source, virt);
      }
      return ended;
    }

    /** The real id of what is to be played, taken from the cache or uploaded for the purpose. */
    method Obtain(sinkId: string, key: Key, maybeEff: Option<FfEffect>) returns (ok: bool, realId: int)
      requires sinkId in sinks
      modifies `sinks, `oneshotCounter
      ensures sinkId in sinks && sinks == old(sinks)[sinkId := sinks[sinkId]]
      ensures PlayStep(old(sinks)[sinkId], sinks[sinkId], sources, key, maybeEff, old(oneshotCounter), realId)
      ensures oneshotCounter == old(oneshotCounter) + (if maybeEff.Some? then 1 else 0)
      ensures ok == (realId >= 0 || (maybeEff.None? && key in old(sinks)[sinkId].slots))
      ensures !ok ==> realId == -1
    {
      hide UploadedUnder;
      match maybeEff {
        case None =>
          if key in sinks[sinkId].slots {
            return true, sinks[sinkId].slots[key];
          }
          if key.source !in sources || key.virt !in sources[key.source].effects {
            return false, -1;
          }
          realId := UploadAndStore(sinkId, sources[key.source].effects[key.virt], key);
        case Some(eff) =>
          var oneshot := Key(HAPTICS_SOURCE_ONESHOT, oneshotCounter);
          oneshotCounter := oneshotCounter + 1;
          realId := UploadAndStore(sinkId, eff, oneshot);
      }
      ok := realId >= 0;
    }

    /** Plays a persistent effect, or `maybeEff` as a one-shot. */
    method PlayEffect(sinkId: string, source: string, virt: int, magnitude: int, maybeEff: Option<FfEffect>)
        returns (realId: int)
      modifies `sinks, `oneshotCounter, `written
      ensures Played(old(sinks), sinks, old(written), written, sinkId, sources, Key(source, virt), maybeEff,
                     old(oneshotCounter), magnitude, realId)
      ensures oneshotCounter == CounterAfter(old(sinks), sinkId, maybeEff, old(oneshotCounter))
      ensures old(Good()) ==> Good()
      ensures old(Good() && Everything()) ==> Everything()
      ensures old(Good() && Everything()) && (maybeEff.Some? || source != HAPTICS_SOURCE_ONESHOT) ==>
                PlaysLatest(old(sinks), sinks, old(written), written, sinkId,
                            Wanted(history, Key(source, virt), maybeEff), magnitude, realId)
    {
      hide Sane, AllBacked, PlayStep, PlaysLatest, Wanted;
      var key := Key(source, virt);
      if sinkId !in sinks || sinks[sinkId].fd < 0 {
        realId := -1;
      } else {
        var ok;
        ok, realId := Obtain(sinkId, key, maybeEff);
        if old(Good()) {
          PlayKeepsSane(old(sinks), sinks, sinkId, sources, key, maybeEff, old(oneshotCounter), history, realId);
        }
        if ok {
          written := written + [FfEvent(sinks[sinkId].fd, realId, magnitude)];
        }
      }
      if old(Good() && Everything()) && (maybeEff.Some? || source != HAPTICS_SOURCE_ONESHOT) {
        DirectPlayIsLatest(old(sinks), sinks, old(written), written, sinkId, sources, key, maybeEff,
                           old(oneshotCounter), history, magnitude, realId);
      }
    }

    /** What the scripts' `play` does: a persistent effect if its source defines it, a one-shot otherwise. */
    method HapticsPlay(sinkId: string, source: string, id: int, magnitude: int, eff: FfEffect)
        returns (realId: int)
      modifies `sinks, `oneshotCounter, `written
      ensures var maybeEff := OneShotOf(sources, source, id, eff);
              && Played(old(sinks), sinks, old(written), written, sinkId, sources, Key(source, id), maybeEff,
                        old(oneshotCounter), magnitude, realId)
              && oneshotCounter == CounterAfter(old(sinks), sinkId, maybeEff, old(oneshotCounter))
      ensures old(Good()) ==> Good()
      ensures old(Good() && Everything()) ==> Everything()
      ensures old(Good()) ==>
                HeardIs(old(sinks), sinks, old(written), written, sinkId, Intended(history, source, id, eff),
                        magnitude, realId)
    {
      hide Sane, AllBacked, Played, HeardIs, Intended;
      ghost var before := sinks;
      if source == "" || id < 0 || source !in sources || id !in sources[source].effects {
        realId := PlayEffect(sinkId, source, id, magnitude, Some(eff));
        if old(Good()) {
          PlayIsHeard(before, sinks, old(written), written, sinkId, sources, Key(source, id), Some(eff),
                      old(oneshotCounter), history, magnitude, realId);
          IntendedIsMeant(sources, before, old(oneshotCounter), history, source, id, eff, Some(eff));
        }
      } else {
        realId := PlayEffect(sinkId, source, id, magnitude, None);
        if old(Good()) {
          PlayIsHeard(before, sinks, old(written), written, sinkId, sources, Key(source, id), None, old(oneshotCounter),
                      history, magnitude, realId);
          IntendedIsMeant(sources, before, old(oneshotCounter), history, source, id, eff, None);
        }
      }
    }

    /** Stops what was last played under the key. */
    method StopEffect(sinkId: string, source: string, virt: int) returns (ok: bool)
      modifies `written
      ensures ok == (sinkId in sinks && sinks[sinkId].fd >= 0 && Key(source, virt) in sinks[sinkId].slots)
      ensures written == if ok
                         then old(written) + [FfEvent(sinks[sinkId].fd, sinks[sinkId].slots[Key(source, virt)], 0)]
                         else old(written)
      ensures old(Good()) && ok ==> sinks[sinkId].slots[Key(source, virt)] in sinks[sinkId].device.effects
    {
      if sinkId !in sinks || sinks[sinkId].fd < 0 {
        return false;
      }
      var key := Key(source, virt);
      if key !in sinks[sinkId].slots {
        return false;
      }
      var realId := sinks[sinkId].slots[key];
      assert realId in sinks[sinkId].slots.Values;
      written := written + [FfEvent(sinks[sinkId].fd, realId, 0)];
      return true;
    }
  }
}
