/** The parser feeding the remapper: nothing stays stuck. */
module KeyboardPipeline {
  import opened Options
  import opened Words
  import opened HidUsages
  import opened Remapper
  import opened RemapperProperties
  import opened HidReport

  // ---------------------------------------------------------------------------
  // Physical keys
  // ---------------------------------------------------------------------------

  /** The physical keys that are down after `events`. */
  ghost function DownAfter(down: set<Code>, events: seq<KeyEvent>): set<Code> {
    if events == [] then down
    else
      var before, e := DownAfter(down, events[..|events| - 1]), events[|events| - 1];
      if e.kind.EvKey? && e.value == 1 then before + {e.code}
      else if e.kind.EvKey? && e.value == 0 then before - {e.code}
      else before
  }

  /** Somewhere in `events` a key is pressed that is down. */
  ghost predicate PressesHeld(down: set<Code>, events: seq<KeyEvent>) {
    events != [] &&
    var before, e := events[..|events| - 1], events[|events| - 1];
    || PressesHeld(down, before)
    || (e.kind.EvKey? && e.value == 1 && e.code in DownAfter(down, before))
  }

  lemma {:induction false} DownConcat(down: set<Code>, a: seq<KeyEvent>, b: seq<KeyEvent>)
    ensures DownAfter(down, a + b) == DownAfter(DownAfter(down, a), b)
    ensures PressesHeld(down, a + b) <==> PressesHeld(down, a) || PressesHeld(DownAfter(down, a), b)
    decreases |b|
  {
    if b == [] {
      assert a + b == a;
    } else {
      var n := |b| - 1;
      assert (a + b)[..|a + b| - 1] == a + b[..n];
      DownConcat(down, a, b[..n]);
    }
  }

  lemma ListsLess(events: seq<KeyEvent>, codes: set<Code>, value: int)
    requires Lists(events, codes, value) && events != []
    ensures var n := |events| - 1;
            && events[n].code in codes
            && Lists(events[..n], codes - {events[n].code}, value)
  {
    var n := |events| - 1;
    var less := events[..n];
    assert events[n].code in CodesOf(events);
    assert forall i :: 0 <= i < n ==> less[i] == events[i];
    forall c | c in codes - {events[n].code} ensures c in CodesOf(less) {
      assert c in CodesOf(events);
      var i :| 0 <= i < |events| && events[i].code == c;
      assert less[i].code == c;
    }
    assert forall i :: 0 <= i < n ==> less[i].code in CodesOf(events);
    assert CodesOf(less) == codes - {events[n].code};
  }

  lemma {:induction false} DownOfReleases(down: set<Code>, events: seq<KeyEvent>, codes: set<Code>)
    requires Lists(events, codes, 0)
    ensures DownAfter(down, events) == down - codes
    ensures !PressesHeld(down, events)
    decreases |events|
  {
    if events == [] {
      assert codes == {};
    } else {
      var n := |events| - 1;
      ListsLess(events, codes, 0);
      DownOfReleases(down, events[..n], codes - {events[n].code});
    }
  }

  lemma {:induction false} DownOfPresses(down: set<Code>, events: seq<KeyEvent>, codes: set<Code>)
    requires Lists(events, codes, 1)
    ensures DownAfter(down, events) == down + codes
    ensures PressesHeld(down, events) <==> down * codes != {}
    decreases |events|
  {
    if events == [] {
      assert codes == {};
    } else {
      var n := |events| - 1;
      ListsLess(events, codes, 1);
      DownOfPresses(down, events[..n], codes - {events[n].code});
      assert down * codes == down * (codes - {events[n].code}) + down * {events[n].code};
    }
  }

  /** What a report's events do to the keys that are down, whatever the order within each part. */
  lemma DownOfDiff(p: Parts, prevMods: set<Code>, prevKeys: set<Code>, mods: set<Code>, keys: set<Code>,
                   down: set<Code>)
    requires IsDiff(p, prevMods, prevKeys, mods, keys)
    ensures DownAfter(down, p.All())
         == (((down - (prevMods - mods)) + (mods - prevMods)) - (prevKeys - keys)) + (keys - prevKeys)
    ensures PressesHeld(down, p.All()) <==>
              || (down - (prevMods - mods)) * (mods - prevMods) != {}
              || (((down - (prevMods - mods)) + (mods - prevMods)) - (prevKeys - keys)) * (keys - prevKeys) != {}
  {
    var d1 := down - (prevMods - mods);
    var d2 := d1 + (mods - prevMods);
    var d3 := d2 - (prevKeys - keys);
    DownConcat(down, p.modReleases, p.modPresses + (p.keyReleases + p.keyPresses));
    DownConcat(d1, p.modPresses, p.keyReleases + p.keyPresses);
    DownConcat(d2, p.keyReleases, p.keyPresses);
    DownOfReleases(down, p.modReleases, prevMods - mods);
    DownOfPresses(d1, p.modPresses, mods - prevMods);
    DownOfReleases(d2, p.keyReleases, prevKeys - keys);
    DownOfPresses(d3, p.keyPresses, keys - prevKeys);
  }

  /** After a report nothing is down but what the report names. */
  lemma DiffLeavesNamed(p: Parts, prevMods: set<Code>, prevKeys: set<Code>, mods: set<Code>, keys: set<Code>,
                        down: set<Code>)
    requires IsDiff(p, prevMods, prevKeys, mods, keys)
    requires down <= prevMods + prevKeys
    ensures DownAfter(down, p.All()) <= mods + keys
  {
    DownOfDiff(p, prevMods, prevKeys, mods, keys, down);
  }

  /**
   A report presses a key that is down exactly if it names a modifier that it or the report
   before also names in its key bytes.
   */
  lemma DiffPressesHeldIff(p: Parts, prevMods: set<Code>, prevKeys: set<Code>, mods: set<Code>, keys: set<Code>)
    requires IsDiff(p, prevMods, prevKeys, mods, keys)
    requires prevMods !! prevKeys
    ensures PressesHeld(prevMods + prevKeys, p.All()) <==> mods * (prevKeys + keys) != {}
    ensures mods * (prevKeys + keys) == {} ==> DownAfter(prevMods + prevKeys, p.All()) == mods + keys
  {
    hide IsDiff, DownAfter, PressesHeld;
    var down := prevMods + prevKeys;
    DownOfDiff(p, prevMods, prevKeys, mods, keys, down);
    HeldByDiff(prevMods, prevKeys, mods, keys);
    if mods * (prevKeys + keys) == {} {
      LeftByDiff(prevMods, prevKeys, mods, keys);
    }
  }

  /** A key is down when a report presses it exactly if the report, or the one before, has it in key bytes. */
  lemma HeldByDiff(prevMods: set<Code>, prevKeys: set<Code>, mods: set<Code>, keys: set<Code>)
    requires prevMods !! prevKeys
    ensures var d1 := prevMods + prevKeys - (prevMods - mods);
            var d3 := d1 + (mods - prevMods) - (prevKeys - keys);
            d1 * (mods - prevMods) != {} || d3 * (keys - prevKeys) != {} <==> mods * (prevKeys + keys) != {}
  {
    var d1 := prevMods + prevKeys - (prevMods - mods);
    var d3 := d1 + (mods - prevMods) - (prevKeys - keys);
    if c :| c in d1 * (mods - prevMods) {
      assert c in mods * (prevKeys + keys);
    } else if c :| c in d3 * (keys - prevKeys) {
      assert c in mods * (prevKeys + keys);
    }
    if c :| c in mods * (prevKeys + keys) {
      assert c in d1 * (mods - prevMods) || c in d3 * (keys - prevKeys);
    }
  }

  lemma LeftByDiff(prevMods: set<Code>, prevKeys: set<Code>, mods: set<Code>, keys: set<Code>)
    requires prevMods !! prevKeys && mods * (prevKeys + keys) == {}
    ensures prevMods + prevKeys - (prevMods - mods) + (mods - prevMods) - (prevKeys - keys) + (keys - prevKeys)
         == mods + keys
  {
    var after := prevMods + prevKeys - (prevMods - mods) + (mods - prevMods) - (prevKeys - keys) + (keys - prevKeys);
    forall c ensures c in after <==> c in mods + keys {
      assert c !in mods * (prevKeys + keys);
    }
  }

  // ---------------------------------------------------------------------------
  // The remapper follows the physical keys
  // ---------------------------------------------------------------------------

  /** While the Fn layer is on, some active key switched it on. */
  ghost predicate FnIsHeld(s: State) {
    s.fnDown ==> exists code :: code in s.active && IsFn(s.active[code])
  }

  lemma StepFollows(layers: Layers, s: State, e: KeyEvent, down: set<Code>)
    requires s.active.Keys <= down
    ensures Step(layers, s, e).active.Keys <= DownAfter(down, [e])
    ensures !PressesHeld(down, [e]) ==> LostByStep(layers, s, e) == multiset{}
    ensures !PressesHeld(down, [e]) && FnIsHeld(s) ==> FnIsHeld(Step(layers, s, e))
  {
    hide ResolveMapping;
    assert [e][..0] == [];
    var s' := Step(layers, s, e);
    if !PressesHeld(down, [e]) && FnIsHeld(s) && s'.fnDown && s' != s {
      if e.value == 1 {
        if s.fnDown {
          var code :| code in s.active && IsFn(s.active[code]);
          assert code in s'.active && IsFn(s'.active[code]);
        } else {
          assert e.code in s'.active && IsFn(s'.active[e.code]);
        }
      } else {
        var code :| code in s.active && IsFn(s.active[code]);
        assert code in s'.active && IsFn(s'.active[code]);
      }
    }
  }

  ghost function AsInputs(events: seq<KeyEvent>): seq<Input> {
    seq(|events|, i requires 0 <= i < |events| => Event(events[i]))
  }

  lemma {:induction false} RunConcat(layers: Layers, s: State, a: seq<Input>, b: seq<Input>)
    ensures Run(layers, s, a + b) == Run(layers, Run(layers, s, a), b)
    ensures Lost(layers, s, a + b) == Lost(layers, s, a) + Lost(layers, Run(layers, s, a), b)
    decreases |b|
  {
    if b == [] {
      assert a + b == a;
    } else {
      var n := |b| - 1;
      assert (a + b)[..|a + b| - 1] == a + b[..n];
      RunConcat(layers, s, a, b[..n]);
    }
  }

  lemma {:induction false} RunFollows(layers: Layers, s: State, events: seq<KeyEvent>, down: set<Code>)
    requires s.active.Keys <= down
    ensures Run(layers, s, AsInputs(events)).active.Keys <= DownAfter(down, events)
    ensures !PressesHeld(down, events) ==> Lost(layers, s, AsInputs(events)) == multiset{}
    ensures !PressesHeld(down, events) && FnIsHeld(s) ==> FnIsHeld(Run(layers, s, AsInputs(events)))
    decreases |events|
  {
    if events != [] {
      var n := |events| - 1;
      assert AsInputs(events)[..n] == AsInputs(events[..n]);
      RunFollows(layers, s, events[..n], down);
      assert events == events[..n] + [events[n]];
      DownConcat(down, events[..n], [events[n]]);
      StepFollows(layers, Run(layers, s, AsInputs(events[..n])), events[n], DownAfter(down, events[..n]));
    }
  }

  // ---------------------------------------------------------------------------
  // Keys that are sure to be held
  // ---------------------------------------------------------------------------

  /** Somewhere in `events` a key of `among` is pressed that is down. */
  ghost predicate PressesHeldOf(among: set<Code>, down: set<Code>, events: seq<KeyEvent>) {
    events != [] &&
    var before, e := events[..|events| - 1], events[|events| - 1];
    || PressesHeldOf(among, down, before)
    || (e.kind.EvKey? && e.value == 1 && e.code in among && e.code in DownAfter(down, before))
  }

  lemma {:induction false} HeldOfConcat(among: set<Code>, down: set<Code>, a: seq<KeyEvent>, b: seq<KeyEvent>)
    ensures PressesHeldOf(among, down, a + b) <==>
            PressesHeldOf(among, down, a) || PressesHeldOf(among, DownAfter(down, a), b)
    decreases |b|
  {
    if b == [] {
      assert a + b == a;
    } else {
      var n := |b| - 1;
      assert (a + b)[..|a + b| - 1] == a + b[..n];
      DownConcat(down, a, b[..n]);
      HeldOfConcat(among, down, a, b[..n]);
    }
  }

  lemma HeldOfOne(among: set<Code>, down: set<Code>, codes: set<Code>, code: Code)
    requires code in codes
    ensures down * codes * among != {} <==>
            down * (codes - {code}) * among != {} || (code in down && code in among)
  {
    if c :| c in down * codes * among {
      assert c != code ==> c in down * (codes - {code}) * among;
    }
    if c :| c in down * (codes - {code}) * among {
      assert c in down * codes * among;
    }
    if code in down && code in among {
      assert code in down * codes * among;
    }
  }

  lemma {:induction false} HeldOfPresses(among: set<Code>, down: set<Code>, events: seq<KeyEvent>, codes: set<Code>)
    requires Lists(events, codes, 1)
    ensures PressesHeldOf(among, down, events) <==> down * codes * among != {}
    decreases |events|
  {
    if events == [] {
      assert codes == {};
    } else {
      var n := |events| - 1;
      var code := events[n].code;
      ListsLess(events, codes, 1);
      assert events[n] == KeyEvent(EvKey, code, 1);
      HeldOfPresses(among, down, events[..n], codes - {code});
      DownOfPresses(down, events[..n], codes - {code});
      hide Lists;
      HeldOfOne(among, down, codes, code);
    }
  }

  /** If a report presses a key that is down, then a modifier that it names. */
  lemma DiffPressesHeldModifier(p: Parts, prevMods: set<Code>, prevKeys: set<Code>, mods: set<Code>, keys: set<Code>,
                                among: set<Code>)
    requires IsDiff(p, prevMods, prevKeys, mods, keys)
    requires prevMods !! prevKeys && mods <= among
    requires mods * (prevKeys + keys) != {}
    ensures PressesHeldOf(among, prevMods + prevKeys, p.All())
  {
    hide Lists;
    var down := prevMods + prevKeys;
    var d1 := down - (prevMods - mods);
    var d2 := d1 + (mods - prevMods);
    var d3 := d2 - (prevKeys - keys);
    DownOfReleases(down, p.modReleases, prevMods - mods);
    DownOfPresses(d1, p.modPresses, mods - prevMods);
    DownOfReleases(d2, p.keyReleases, prevKeys - keys);
    HeldOfConcat(among, down, p.modReleases, p.modPresses + (p.keyReleases + p.keyPresses));
    HeldOfConcat(among, d1, p.modPresses, p.keyReleases + p.keyPresses);
    HeldOfConcat(among, d2, p.keyReleases, p.keyPresses);
    HeldOfPresses(among, d1, p.modPresses, mods - prevMods);
    HeldOfPresses(among, d3, p.keyPresses, keys - prevKeys);
    HeldModifier(prevMods, prevKeys, mods, keys, among);
  }

  lemma HeldModifier(prevMods: set<Code>, prevKeys: set<Code>, mods: set<Code>, keys: set<Code>, among: set<Code>)
    requires prevMods !! prevKeys && mods <= among && mods * (prevKeys + keys) != {}
    ensures var d1 := prevMods + prevKeys - (prevMods - mods);
            var d3 := d1 + (mods - prevMods) - (prevKeys - keys);
            d1 * (mods - prevMods) * among != {} || d3 * (keys - prevKeys) * among != {}
  {
    var d1 := prevMods + prevKeys - (prevMods - mods);
    var d3 := d1 + (mods - prevMods) - (prevKeys - keys);
    var c :| c in mods * (prevKeys + keys);
    assert c in among;
    if c in prevKeys {
      assert c in d1 && c in mods - prevMods;
      assert c in d1 * (mods - prevMods) * among;
    } else {
      assert c in d3 && c in keys - prevKeys;
      assert c in d3 * (keys - prevKeys) * among;
    }
  }

  /** The keys of `codes` are active and hold some output. */
  ghost predicate Loaded(s: State, codes: set<Code>) {
    forall c :: c in codes ==> c in s.active && Outputs(s.active[c]) != multiset{}
  }

  /** Whatever the Fn layer, no key of `codes` is suppressed or switches the Fn layer. */
  ghost predicate Reliable(layers: Layers, codes: set<Code>) {
    forall c, fnDown :: c in codes ==>
      var mapped := ResolveMapping(layers, fnDown, c); mapped.Some? && !IsFn(mapped.value)
  }

  lemma OneHeld(among: set<Code>, down: set<Code>, e: KeyEvent)
    ensures PressesHeldOf(among, down, [e]) <==> e.kind.EvKey? && e.value == 1 && e.code in among && e.code in down
    ensures DownAfter(down, [e]) == if !e.kind.EvKey? then down
                                    else if e.value == 1 then down + {e.code}
                                    else if e.value == 0 then down - {e.code}
                                    else down
  {
    assert [e][..0] == [];
  }

  lemma StepLoaded(layers: Layers, s: State, e: KeyEvent, down: set<Code>, codes: set<Code>)
    requires Reliable(layers, codes) && Loaded(s, down * codes)
    ensures Loaded(Step(layers, s, e), DownAfter(down, [e]) * codes)
    ensures PressesHeldOf(codes, down, [e]) ==> LostByStep(layers, s, e) != multiset{}
  {
    OneHeld(codes, down, e);
    hide ResolveMapping, DownAfter, PressesHeldOf;
    if e.kind.EvKey? && e.value == 1 && e.code in codes {
      var mapped := ResolveMapping(layers, s.fnDown, e.code);
      assert mapped.Some? && !IsFn(mapped.value);
      assert mapped.value[0] in Outputs(mapped.value);
      if e.code in down {
        assert e.code in down * codes;
      }
    }
  }

  /** Keys that are sure to be held stay so, and pressing one of them while it is down loses something. */
  lemma {:induction false} RunLoaded(layers: Layers, s: State, events: seq<KeyEvent>, down: set<Code>, codes: set<Code>)
    requires Reliable(layers, codes) && Loaded(s, down * codes)
    ensures Loaded(Run(layers, s, AsInputs(events)), DownAfter(down, events) * codes)
    ensures PressesHeldOf(codes, down, events) ==> Lost(layers, s, AsInputs(events)) != multiset{}
    decreases |events|
  {
    hide Reliable, Loaded, Step, LostByStep;
    if events != [] {
      var n := |events| - 1;
      assert AsInputs(events)[..n] == AsInputs(events[..n]);
      RunLoaded(layers, s, events[..n], down, codes);
      assert events == events[..n] + [events[n]];
      DownConcat(down, events[..n], [events[n]]);
      HeldOfConcat(codes, down, events[..n], [events[n]]);
      var s' := Run(layers, s, AsInputs(events[..n]));
      StepLoaded(layers, s', events[n], DownAfter(down, events[..n]), codes);
      EmptySum(Lost(layers, s, AsInputs(events[..n])), LostByStep(layers, s', events[n]));
    }
  }

  lemma EmptySum<T>(a: multiset<T>, b: multiset<T>)
    ensures a + b == multiset{} <==> a == multiset{} && b == multiset{}
  {
    assert |a + b| == |a| + |b|;
  }
}
