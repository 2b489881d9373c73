/** Virtual effects per source, what was last said about each of them, and what a cache says about them. */
module EffectSources {
  import opened Options
  import opened Effects
  import opened EffectSlots

  const HAPTICS_SOURCE_ONESHOT := "_aelkey_haptics_oneshot_"

  datatype Source = Source(fd: int, effects: map<int, FfEffect>)

  predicate Defines(sources: map<string, Source>, source: string, virt: int) {
    source in sources && virt in sources[source].effects
  }

  function Define(sources: map<string, Source>, source: string, virt: int, eff: FfEffect): map<string, Source>
    requires source in sources
  {
    sources[source := sources[source].(effects := sources[source].effects[virt := eff])]
  }

  function Undefine(sources: map<string, Source>, source: string, virt: int): map<string, Source>
    requires source in sources
  {
    sources[source := sources[source].(effects := sources[source].effects - {virt})]
  }

  // ---------------------------------------------------------------------------
  // What was last said
  // ---------------------------------------------------------------------------

  /** One entry in the history of all sources. */
  datatype Note = Registered(source: string) | Defined(source: string, virt: int, effect: FfEffect)
                | Erased(source: string, virt: int)

  /** The last upload of an effect, unless it was erased or its source was registered anew since. */
  function Latest(history: seq<Note>, source: string, virt: int): Option<FfEffect> {
    if history == [] then None
    else
      var last := history[|history| - 1];
      if last.source != source then Latest(history[..|history| - 1], source, virt)
      else if last.Registered? then None
      else if last.virt != virt then Latest(history[..|history| - 1], source, virt)
      else if last.Erased? then None
      else Some(last.effect)
  }

  ghost predicate Tracks(history: seq<Note>, sources: map<string, Source>) {
    forall source, virt ::
      Latest(history, source, virt)
      == if Defines(sources, source, virt) then Some(sources[source].effects[virt]) else None
  }

  /** What a new entry says. */
  lemma LatestAfter(history: seq<Note>, note: Note, source: string, virt: int)
    ensures Latest(history + [note], source, virt)
         == if note.source != source then Latest(history, source, virt)
            else if note.Registered? then None
            else if note.virt != virt then Latest(history, source, virt)
            else if note.Erased? then None
            else Some(note.effect)
  {
    var longer := history + [note];
    assert longer[|longer| - 1] == note && longer[..|longer| - 1] == history;
  }

  lemma TracksRegistered(history: seq<Note>, sources: map<string, Source>, id: string, source: Source)
    requires Tracks(history, sources) && source.effects == map[]
    ensures Tracks(history + [Registered(id)], sources[id := source])
  {
    forall s, v { LatestAfter(history, Registered(id), s, v); }
  }

  lemma TracksDefined(history: seq<Note>, sources: map<string, Source>, source: string, virt: int, eff: FfEffect)
    requires Tracks(history, sources) && source in sources
    ensures Tracks(history + [Defined(source, virt, eff)], Define(sources, source, virt, eff))
  {
    forall s, v { LatestAfter(history, Defined(source, virt, eff), s, v); }
  }

  lemma TracksErased(history: seq<Note>, sources: map<string, Source>, source: string, virt: int)
    requires Tracks(history, sources) && source in sources
    ensures Tracks(history + [Erased(source, virt)], Undefine(sources, source, virt))
  {
    forall s, v { LatestAfter(history, Erased(source, virt), s, v); }
  }

  // ---------------------------------------------------------------------------
  // Coherence
  // ---------------------------------------------------------------------------

  /** Every cached effect that its source still defines is what the source says it is. */
  ghost predicate Coherent(sink: Sink, sources: map<string, Source>) {
    forall k :: k in sink.slots && Defines(sources, k.source, k.virt) ==>
      && sink.slots[k] in sink.device.effects
      && Same(sink.device.effects[sink.slots[k]], sources[k.source].effects[k.virt])
  }

  /** Every cached effect is a one-shot or one that its source still defines. */
  ghost predicate Backed(sink: Sink, sources: map<string, Source>) {
    forall k :: k in sink.slots && k.source != HAPTICS_SOURCE_ONESHOT ==> Defines(sources, k.source, k.virt)
  }

  ghost predicate OneShotsBelow(sink: Sink, counter: int) {
    forall k :: k in sink.slots && k.source == HAPTICS_SOURCE_ONESHOT ==> k.virt < counter
  }

  /** Nothing but the effect `key` names is different. */
  ghost predicate AgreeBut(a: map<string, Source>, b: map<string, Source>, key: Key) {
    forall s, v :: Key(s, v) != key ==>
      && (Defines(a, s, v) <==> Defines(b, s, v))
      && (Defines(a, s, v) ==> a[s].effects[v] == b[s].effects[v])
  }

  /** Whatever becomes of an effect, purging its key first or last keeps the cache coherent. */
  lemma PurgeKeepsCoherent(sink: Sink, before: map<string, Source>, after: map<string, Source>, key: Key)
    requires Tidy(sink) && Coherent(sink, before) && AgreeBut(before, after, key)
    ensures Coherent(Purged(sink, key), after)
    ensures Backed(sink, before) ==> Backed(Purged(sink, key), after)
  {
    var purged := Purged(sink, key);
    forall k | k in purged.slots
      ensures k in sink.slots && Key(k.source, k.virt) != key
      ensures sink.slots[k] in sink.device.effects ==> sink.slots[k] in purged.device.effects
    {
    }
  }

  /** A registration empties its source, which cannot make a cached effect wrong, but can leave one without a source. */
  lemma RegistrationKeepsCoherent(sink: Sink, sources: map<string, Source>, id: string, source: Source)
    requires Coherent(sink, sources) && source.effects == map[]
    ensures Coherent(sink, sources[id := source])
    ensures Backed(sink, sources) ==>
              (Backed(sink, sources[id := source]) <==>
               id == HAPTICS_SOURCE_ONESHOT || forall k :: k in sink.slots ==> k.source != id)
  {
  }

  /** A fresh upload is stored under a key that means what was uploaded. */
  lemma StoreKeepsCoherent(before: Sink, after: Sink, sources: map<string, Source>, eff: FfEffect, id: int, key: Key)
    requires Tidy(before) && Coherent(before, sources)
    requires Uploaded(before, after, eff, id) && id >= 0
    requires Defines(sources, key.source, key.virt) ==> Same(eff, sources[key.source].effects[key.virt])
    ensures Coherent(Stored(after, key, id), sources)
    ensures Backed(before, sources) && (key.source == HAPTICS_SOURCE_ONESHOT || Defines(sources, key.source, key.virt))
        ==> Backed(Stored(after, key, id), sources)
  {
    var stored := Stored(after, key, id);
    assert Same(stored.device.effects[id], eff);
    forall k | k in stored.slots && k != key
      ensures k in before.slots && stored.slots[k] == before.slots[k]
      ensures before.slots[k] in before.device.effects && stored.slots[k] in stored.device.effects
      ensures stored.device.effects[stored.slots[k]] == before.device.effects[before.slots[k]]
    {
      assert before.slots[k] in before.slots.Values;
    }
  }
}
