/** Whole runs of the keyboard: reports in, output events out. */
module KeyboardRuns {
  import opened Options
  import opened Words
  import opened HidUsages
  import opened Remapper
  import opened RemapperProperties
  import opened HidReport
  import opened KeyboardPipeline

  /** A report with what the parser made of it, or a caller switching the Fn layer. */
  datatype Feed = Report(bytes: seq<Byte>, parts: Parts) | Switch(down: bool)

  ghost predicate IsReport(f: Feed) {
    f.Report? && |f.bytes| >= 8
  }

  /** The modifiers named by the last report that was not too short. */
  ghost function ModsAfter(run: seq<Feed>): set<Code> {
    if run == [] then {}
    else
      var f := run[|run| - 1];
      if IsReport(f) then Mods(f.bytes) else ModsAfter(run[..|run| - 1])
  }

  /** The keys named by the last report that was not too short. */
  ghost function KeysAfter(run: seq<Feed>): set<Code> {
    if run == [] then {}
    else
      var f := run[|run| - 1];
      if IsReport(f) then Keys(f.bytes) else KeysAfter(run[..|run| - 1])
  }

  /** Every report's events are what the parser may make of it; their order is not fixed. */
  ghost predicate Parsed(run: seq<Feed>) {
    run != [] ==>
      var before, f := run[..|run| - 1], run[|run| - 1];
      && Parsed(before)
      && (IsReport(f) ==> IsDiff(f.parts, ModsAfter(before), KeysAfter(before), Mods(f.bytes), Keys(f.bytes)))
  }

  /** The events of one feed, as the remapper gets them. */
  ghost function EventsOf(f: Feed): seq<KeyEvent> {
    if IsReport(f) then f.parts.All() else []
  }

  ghost function InputsOf(f: Feed): seq<Input> {
    if f.Switch? then [SetFn(f.down)] else AsInputs(EventsOf(f))
  }

  ghost function Events(run: seq<Feed>): seq<KeyEvent> {
    if run == [] then [] else Events(run[..|run| - 1]) + EventsOf(run[|run| - 1])
  }

  ghost function Inputs(run: seq<Feed>): seq<Input> {
    if run == [] then [] else Inputs(run[..|run| - 1]) + InputsOf(run[|run| - 1])
  }

  /** No report names a modifier that it or the report before also names in its key bytes. */
  ghost predicate Separate(run: seq<Feed>) {
    run != [] ==>
      var before, f := run[..|run| - 1], run[|run| - 1];
      && Separate(before)
      && (IsReport(f) ==> Mods(f.bytes) * (KeysAfter(before) + Keys(f.bytes)) == {})
  }

  ghost predicate NoSwitch(run: seq<Feed>) {
    forall i :: 0 <= i < |run| ==> run[i].Report?
  }

  // ---------------------------------------------------------------------------
  // Runs
  // ---------------------------------------------------------------------------

  /** At every moment, only keys that the last report names are active. */
  lemma {:induction false} OnlyNamedKeysActive(layers: Layers, run: seq<Feed>)
    requires Parsed(run)
    ensures Run(layers, INITIAL, Inputs(run)).active.Keys <= ModsAfter(run) + KeysAfter(run)
    decreases |run|
  {
    if run != [] {
      var before, f := run[..|run| - 1], run[|run| - 1];
      OnlyNamedKeysActive(layers, before);
      var s, down := Run(layers, INITIAL, Inputs(before)), ModsAfter(before) + KeysAfter(before);
      RunConcat(layers, INITIAL, Inputs(before), InputsOf(f));
      if f.Switch? {
        OneSwitch(layers, s, f.down);
      } else {
        RunFollows(layers, s, EventsOf(f), down);
        if IsReport(f) {
          DiffLeavesNamed(f.parts, ModsAfter(before), KeysAfter(before), Mods(f.bytes), Keys(f.bytes), down);
        }
      }
    }
  }

  lemma OneSwitch(layers: Layers, s: State, down: bool)
    ensures Run(layers, s, [SetFn(down)]) == s.(fnDown := down)
    ensures Lost(layers, s, [SetFn(down)]) == multiset{}
  {
    assert [SetFn(down)][..0] == [];
  }

  /** The events of a run press a key that is down exactly if its reports are not separate. */
  lemma {:induction false} PressesHeldIffNotSeparate(run: seq<Feed>)
    requires Parsed(run)
    ensures PressesHeld({}, Events(run)) <==> !Separate(run)
    ensures Separate(run) ==>
              DownAfter({}, Events(run)) == ModsAfter(run) + KeysAfter(run) && ModsAfter(run) !! KeysAfter(run)
    decreases |run|
  {
    if run != [] {
      var before, f := run[..|run| - 1], run[|run| - 1];
      PressesHeldIffNotSeparate(before);
      DownConcat({}, Events(before), EventsOf(f));
      if IsReport(f) && Separate(before) {
        DiffPressesHeldIff(f.parts, ModsAfter(before), KeysAfter(before), Mods(f.bytes), Keys(f.bytes));
      }
    }
  }

  /** With separate reports nothing is lost, and the Fn layer is on only while a key holds it. */
  lemma {:induction false} SeparateLosesNothing(layers: Layers, run: seq<Feed>)
    requires Parsed(run) && Separate(run)
    ensures Lost(layers, INITIAL, Inputs(run)) == multiset{}
    ensures NoSwitch(run) ==> FnIsHeld(Run(layers, INITIAL, Inputs(run)))
    decreases |run|
  {
    if run != [] {
      var before, f := run[..|run| - 1], run[|run| - 1];
      SeparateLosesNothing(layers, before);
      OnlyNamedKeysActive(layers, before);
      PressesHeldIffNotSeparate(before);
      PressesHeldIffNotSeparate(run);
      DownConcat({}, Events(before), EventsOf(f));
      var s := Run(layers, INITIAL, Inputs(before));
      RunConcat(layers, INITIAL, Inputs(before), InputsOf(f));
      if f.Switch? {
        OneSwitch(layers, s, f.down);
      } else {
        RunFollows(layers, s, EventsOf(f), ModsAfter(before) + KeysAfter(before));
      }
    }
  }

  /** Bytes of a report in which nothing is pressed; the second byte is reserved. */
  predicate AllUp(bytes: seq<Byte>) {
    |bytes| >= 8 && bytes[0] == 0 && forall i :: 2 <= i < 8 ==> bytes[i] == 0
  }

  lemma AllUpNamesNothing(bytes: seq<Byte>)
    requires AllUp(bytes)
    ensures Mods(bytes) == {} && Keys(bytes) == {}
  {
    forall bit | 0 <= bit < 8 ensures !HasBit(bytes[0], bit) {
    }
  }

  ghost predicate EndsAllUp(run: seq<Feed>) {
    run != [] && run[|run| - 1].Report? && AllUp(run[|run| - 1].bytes)
  }

  /**
   After any reports, with any mappings and any switching of the Fn layer, a report with
   nothing pressed leaves no key active, and every press has been released except for what
   was lost.  With separate reports nothing was lost, and the Fn layer is off too unless a
   caller switched it.
   */
  lemma NothingStaysStuck(layers: Layers, run: seq<Feed>)
    requires Parsed(run) && EndsAllUp(run)
    ensures var s, lost := Run(layers, INITIAL, Inputs(run)), Lost(layers, INITIAL, Inputs(run));
            && s.active == map[]
            && Sent(s.out, 1) == Sent(s.out, 0) + lost
            && (Separate(run) ==> Sent(s.out, 1) == Sent(s.out, 0))
            && (Separate(run) && NoSwitch(run) ==> !s.fnDown)
  {
    var s, lost := Run(layers, INITIAL, Inputs(run)), Lost(layers, INITIAL, Inputs(run));
    AllUpNamesNothing(run[|run| - 1].bytes);
    OnlyNamedKeysActive(layers, run);
    assert s.active == map[];
    Conservation(layers, Inputs(run));
    assert Sent(s.out, 0) + Held(s.active) + lost == Sent(s.out, 0) + lost;
    if Separate(run) {
      SeparateLosesNothing(layers, run);
      assert Sent(s.out, 0) + lost == Sent(s.out, 0);
    }
  }

  // ---------------------------------------------------------------------------
  // When reports are separate
  // ---------------------------------------------------------------------------

  /** No key byte names a modifier. */
  predicate NoModifierBytes(bytes: seq<Byte>)
    requires |bytes| >= 8
  {
    forall i :: 2 <= i < 8 ==> !IsModifierUsage(bytes[i])
  }

  ghost predicate AreModifiers(codes: set<Code>) {
    forall c :: c in codes ==> c.Named? && IsModifier(c.key)
  }

  ghost predicate AreNoModifiers(codes: set<Code>) {
    forall c :: c in codes ==> c.Named? && !IsModifier(c.key)
  }

  lemma ModsAreModifiers(bytes: seq<Byte>)
    requires |bytes| >= 8
    ensures AreModifiers(Mods(bytes))
  {
    forall bit | 0 <= bit < 8 ensures IsModifier(MOD_BITS[bit]) {
      ModBitsAreModifiers(bit);
    }
  }

  lemma KeysAreNoModifiers(bytes: seq<Byte>)
    requires |bytes| >= 8 && NoModifierBytes(bytes)
    ensures AreNoModifiers(Keys(bytes))
  {
    hide HidToKey, IsModifier;
    forall i | 2 <= i < 8 && HidToKey(bytes[i]).Some? ensures !IsModifier(HidToKey(bytes[i]).value) {
      ModifierUsages(bytes[i]);
    }
  }

  ghost predicate PlainRun(run: seq<Feed>) {
    forall i :: 0 <= i < |run| && IsReport(run[i]) ==> NoModifierBytes(run[i].bytes)
  }

  /** Reports whose key bytes name no modifier are separate. */
  lemma {:induction false} PlainRunIsSeparate(run: seq<Feed>)
    requires PlainRun(run)
    ensures Separate(run) && AreNoModifiers(KeysAfter(run))
    decreases |run|
  {
    if run != [] {
      var before, f := run[..|run| - 1], run[|run| - 1];
      PlainRunIsSeparate(before);
      if IsReport(f) {
        ModsAreModifiers(f.bytes);
        KeysAreNoModifiers(f.bytes);
        assert forall c :: c in Mods(f.bytes) ==> c !in KeysAfter(before) + Keys(f.bytes);
      }
    }
  }

  // ---------------------------------------------------------------------------
  // The condition is exact if modifiers always have an output
  // ---------------------------------------------------------------------------

  ghost const MODIFIERS: set<Code> := set bit | 0 <= bit < 8 :: Named(MOD_BITS[bit])

  /** Where modifiers always have an output, reports that are not separate lose something. */
  lemma {:induction false} NotSeparateLoses(layers: Layers, run: seq<Feed>)
    requires Parsed(run) && Reliable(layers, MODIFIERS)
    ensures Loaded(Run(layers, INITIAL, Inputs(run)), DownAfter({}, Events(run)) * MODIFIERS)
    ensures !Separate(run) ==> Lost(layers, INITIAL, Inputs(run)) != multiset{}
    decreases |run|
  {
    if run != [] {
      var before, f := run[..|run| - 1], run[|run| - 1];
      NotSeparateLoses(layers, before);
      var s, down := Run(layers, INITIAL, Inputs(before)), DownAfter({}, Events(before));
      RunConcat(layers, INITIAL, Inputs(before), InputsOf(f));
      DownConcat({}, Events(before), EventsOf(f));
      EmptySum(Lost(layers, INITIAL, Inputs(before)), Lost(layers, s, InputsOf(f)));
      hide Reliable;
      if f.Switch? {
        OneSwitch(layers, s, f.down);
      } else {
        RunLoaded(layers, s, EventsOf(f), down, MODIFIERS);
        if Separate(before) && !Separate(run) {
          PressesHeldIffNotSeparate(before);
          DiffPressesHeldModifier(f.parts, ModsAfter(before), KeysAfter(before), Mods(f.bytes), Keys(f.bytes),
                                  MODIFIERS);
        }
      }
    }
  }

  /**
   With any mappings under which a modifier always has an output, and any switching of the Fn
   layer, everything is released in the end exactly if the reports are separate.
   */
  lemma ReleasesAllIff(layers: Layers, run: seq<Feed>)
    requires Parsed(run) && EndsAllUp(run) && Reliable(layers, MODIFIERS)
    ensures var s := Run(layers, INITIAL, Inputs(run)); Sent(s.out, 1) == Sent(s.out, 0) <==> Separate(run)
  {
    var s, lost := Run(layers, INITIAL, Inputs(run)), Lost(layers, INITIAL, Inputs(run));
    NotSeparateLoses(layers, run);
    NothingStaysStuck(layers, run);
    if Sent(s.out, 1) == Sent(s.out, 0) {
      assert |Sent(s.out, 0) + lost| == |Sent(s.out, 0)| + |lost|;
    }
  }

  const BITS: seq<Byte> := [1, 2, 4, 8, 16, 32, 64, 128]

  /** A report that names one modifier twice, in its modifier byte and in a key byte. */
  function Doubled(bit: nat): seq<Byte>
    requires bit < 8
  {
    [BITS[bit], 0, 0xE0 + bit, 0, 0, 0, 0, 0]
  }

  const RELEASED: seq<Byte> := [0, 0, 0, 0, 0, 0, 0, 0]

  lemma OneBit(bit: nat, k: nat)
    requires bit < 8 && k < 8
    ensures HasBit(BITS[bit], k) <==> k == bit
  {
    assert Pow2(0) == 1 && Pow2(1) == 2 && Pow2(2) == 4 && Pow2(3) == 8;
    assert Pow2(4) == 16 && Pow2(5) == 32 && Pow2(6) == 64 && Pow2(7) == 128;
  }

  lemma DoubledNames(bit: nat)
    requires bit < 8
    ensures Mods(Doubled(bit)) == {Named(MOD_BITS[bit])} && Keys(Doubled(bit)) == {Named(MOD_BITS[bit])}
  {
    hide HidToKey, HasBit;
    var bytes, m := Doubled(bit), Named(MOD_BITS[bit]);
    OneBit(bit, bit);
    forall k | 0 <= k < 8 ensures HasBit(bytes[0], k) <==> k == bit {
      OneBit(bit, k);
    }
    UsageOfBit(bit);
    assert bytes[2] != 0 && HidToKey(bytes[2]) == Some(MOD_BITS[bit]);
    assert m in Keys(bytes);
    assert m in Mods(bytes);
  }

  lemma UsageOfBit(bit: nat)
    requires bit < 8
    ensures HidToKey(0xE0 + bit) == Some(MOD_BITS[bit])
  {
  }

  lemma OneMoreInput(layers: Layers, s: State, events: seq<KeyEvent>, e: KeyEvent)
    ensures Run(layers, s, AsInputs(events + [e])) == Step(layers, Run(layers, s, AsInputs(events)), e)
    ensures Lost(layers, s, AsInputs(events + [e]))
         == Lost(layers, s, AsInputs(events)) + LostByStep(layers, Run(layers, s, AsInputs(events)), e)
  {
    hide Step, LostByStep;
    assert AsInputs(events + [e])[..|events|] == AsInputs(events);
  }

  /** Pressing a key twice loses nothing if its first press has no output. */
  lemma SilentLosesNothing(layers: Layers, s: State, code: Code)
    requires var mapped := ResolveMapping(layers, s.fnDown, code); mapped.None? || IsFn(mapped.value)
    requires s.active == map[]
    ensures var press := KeyEvent(EvKey, code, 1); Lost(layers, s, AsInputs([press, press])) == multiset{}
  {
    hide ResolveMapping;
    var press := KeyEvent(EvKey, code, 1);
    assert [] + [press] == [press] && [press] + [press] == [press, press];
    assert AsInputs([]) == [];
    OneMoreInput(layers, s, [], press);
    OneMoreInput(layers, s, [press], press);
    hide Lost;
  }

  /** A report that names a modifier twice, and one that releases it. */
  ghost function DoubledRun(fnDown: bool, bit: nat): seq<Feed>
    requires bit < 8
  {
    var press, release := KeyEvent(EvKey, Named(MOD_BITS[bit]), 1), KeyEvent(EvKey, Named(MOD_BITS[bit]), 0);
    [Switch(fnDown)]
    + [Report(Doubled(bit), Parts([], [press], [], [press]))]
    + [Report(RELEASED, Parts([release], [], [release], []))]
  }

  lemma ListsOne(code: Code, value: int)
    ensures Lists([KeyEvent(EvKey, code, value)], {code}, value)
    ensures Lists([], {}, value)
  {
    assert [KeyEvent(EvKey, code, value)][0].code == code;
  }

  lemma ParsedMore(run: seq<Feed>, f: Feed)
    requires Parsed(run)
    requires IsReport(f) ==> IsDiff(f.parts, ModsAfter(run), KeysAfter(run), Mods(f.bytes), Keys(f.bytes))
    ensures Parsed(run + [f])
    ensures ModsAfter(run + [f]) == if IsReport(f) then Mods(f.bytes) else ModsAfter(run)
    ensures KeysAfter(run + [f]) == if IsReport(f) then Keys(f.bytes) else KeysAfter(run)
    ensures Separate(run + [f]) <==>
            Separate(run) && (IsReport(f) ==> Mods(f.bytes) * (KeysAfter(run) + Keys(f.bytes)) == {})
    ensures Inputs(run + [f]) == Inputs(run) + InputsOf(f)
  {
    hide IsDiff, Mods, Keys, AsInputs;
    OneMore(run, f);
  }

  lemma DoubledDiffs(bit: nat)
    requires bit < 8
    ensures var m := Named(MOD_BITS[bit]);
            var press, release := KeyEvent(EvKey, m, 1), KeyEvent(EvKey, m, 0);
            && IsDiff(Parts([], [press], [], [press]), {}, {}, Mods(Doubled(bit)), Keys(Doubled(bit)))
            && IsDiff(Parts([release], [], [release], []), {m}, {m}, Mods(RELEASED), Keys(RELEASED))
    ensures Mods(Doubled(bit)) == {Named(MOD_BITS[bit])} && Keys(Doubled(bit)) == {Named(MOD_BITS[bit])}
  {
    hide Lists, Mods, Keys;
    var m := Named(MOD_BITS[bit]);
    ListsOne(m, 1);
    ListsOne(m, 0);
    DoubledNames(bit);
    AllUpNamesNothing(RELEASED);
    assert {m} - {} == {m} && {} - {m} == {};
  }

  lemma DoubledIsParsed(fnDown: bool, bit: nat)
    requires bit < 8
    ensures Parsed(DoubledRun(fnDown, bit)) && EndsAllUp(DoubledRun(fnDown, bit)) && !Separate(DoubledRun(fnDown, bit))
    ensures Inputs(DoubledRun(fnDown, bit))
         == [SetFn(fnDown)]
            + AsInputs([KeyEvent(EvKey, Named(MOD_BITS[bit]), 1), KeyEvent(EvKey, Named(MOD_BITS[bit]), 1)])
            + AsInputs([KeyEvent(EvKey, Named(MOD_BITS[bit]), 0), KeyEvent(EvKey, Named(MOD_BITS[bit]), 0)])
  {
    hide IsDiff, Mods, Keys, AsInputs, Parsed, Separate, ModsAfter, KeysAfter, Inputs;
    var m := Named(MOD_BITS[bit]);
    var press, release := KeyEvent(EvKey, m, 1), KeyEvent(EvKey, m, 0);
    var switch := [Switch(fnDown)];
    var f := Report(Doubled(bit), Parts([], [press], [], [press]));
    var g := Report(RELEASED, Parts([release], [], [release], []));
    NothingFed();
    DoubledDiffs(bit);
    ParsedMore([], Switch(fnDown));
    assert [] + switch == switch && [] + [SetFn(fnDown)] == [SetFn(fnDown)];
    ParsedMore(switch, f);
    ParsedMore(switch + [f], g);
    assert f.parts.All() == [press, press] && g.parts.All() == [release, release];
  }

  lemma NothingFed()
    ensures Parsed([]) && Separate([]) && ModsAfter([]) == {} && KeysAfter([]) == {} && Inputs([]) == []
  {
  }

  /**
   And only then: if some modifier can be without output, a run whose reports are not separate
   releases everything in the end.
   */
  lemma UnreliableHides(layers: Layers) returns (run: seq<Feed>)
    requires !Reliable(layers, MODIFIERS)
    ensures Parsed(run) && EndsAllUp(run) && !Separate(run)
    ensures var s := Run(layers, INITIAL, Inputs(run)); Sent(s.out, 1) == Sent(s.out, 0)
  {
    var code, fnDown :| code in MODIFIERS
      && var mapped := ResolveMapping(layers, fnDown, code); mapped.None? || IsFn(mapped.value);
    var bit :| 0 <= bit < 8 && code == Named(MOD_BITS[bit]);
    run := DoubledRun(fnDown, bit);
    DoubledIsParsed(fnDown, bit);
    NothingStaysStuck(layers, run);
    DoubledLosesNothing(layers, fnDown, bit);
    var s := Run(layers, INITIAL, Inputs(run));
    assert Sent(s.out, 0) + multiset{} == Sent(s.out, 0);
  }

  lemma DoubledLosesNothing(layers: Layers, fnDown: bool, bit: nat)
    requires bit < 8
    requires var mapped := ResolveMapping(layers, fnDown, Named(MOD_BITS[bit])); mapped.None? || IsFn(mapped.value)
    ensures Lost(layers, INITIAL, Inputs(DoubledRun(fnDown, bit))) == multiset{}
  {
    hide ResolveMapping, Lost, Run, Inputs, DoubledRun, AsInputs;
    var run, m := DoubledRun(fnDown, bit), Named(MOD_BITS[bit]);
    var press, release := KeyEvent(EvKey, m, 1), KeyEvent(EvKey, m, 0);
    var switch, presses, releases := [SetFn(fnDown)], AsInputs([press, press]), AsInputs([release, release]);
    DoubledIsParsed(fnDown, bit);
    var s := INITIAL.(fnDown := fnDown);
    OneSwitch(layers, INITIAL, fnDown);
    RunConcat(layers, INITIAL, switch, presses);
    RunConcat(layers, INITIAL, switch + presses, releases);
    SilentLosesNothing(layers, s, m);
    var held := Run(layers, s, presses);
    ReleasingLosesNothing(layers, held, release);
  }

  lemma ReleasingLosesNothing(layers: Layers, s: State, release: KeyEvent)
    requires release.value == 0
    ensures Lost(layers, s, AsInputs([release, release])) == multiset{}
  {
    assert [] + [release] == [release] && [release] + [release] == [release, release];
    assert AsInputs([]) == [];
    OneMoreInput(layers, s, [], release);
    OneMoreInput(layers, s, [release], release);
    hide Lost;
  }

  const UNMAPPED := Layers(map[], map[], map[])

  lemma UnmappedIsReliable()
    ensures Reliable(UNMAPPED, MODIFIERS)
  {
    hide ResolveMapping, IsIdentity;
    forall bit, fnDown | 0 <= bit < 8
      ensures ResolveMapping(UNMAPPED, fnDown, Named(MOD_BITS[bit])) == Some([Named(MOD_BITS[bit])])
      ensures MOD_BITS[bit] != KEY_FN
    {
      ModifierIsIdentity(bit);
      UnmappedIdentity(Named(MOD_BITS[bit]), fnDown);
    }
  }

  lemma ModifierIsIdentity(bit: nat)
    requires bit < 8
    ensures IsIdentity(Named(MOD_BITS[bit])) && MOD_BITS[bit] != KEY_FN
  {
  }

  lemma UnmappedIdentity(code: Code, fnDown: bool)
    requires IsIdentity(code)
    ensures ResolveMapping(UNMAPPED, fnDown, code) == Some([code])
  {
    hide IsIdentity;
  }

  /** In particular without mappings. */
  lemma UnmappedReleasesAllIff(run: seq<Feed>)
    requires Parsed(run) && EndsAllUp(run)
    ensures var s := Run(UNMAPPED, INITIAL, Inputs(run)); Sent(s.out, 1) == Sent(s.out, 0) <==> Separate(run)
  {
    UnmappedIsReliable();
    ReleasesAllIff(UNMAPPED, run);
  }

  /** Left Ctrl as a modifier bit and as a key byte of one report: it is pressed twice and released once. */
  lemma DoubledModifierSticks(pressed: Parts, released: Parts)
    requires var run := [Report([0x01, 0, 0xE0, 0, 0, 0, 0, 0], pressed), Report([0, 0, 0, 0, 0, 0, 0, 0], released)];
             Parsed(run)
    ensures var run := [Report([0x01, 0, 0xE0, 0, 0, 0, 0, 0], pressed), Report([0, 0, 0, 0, 0, 0, 0, 0], released)];
            var s := Run(UNMAPPED, INITIAL, Inputs(run));
            Sent(s.out, 1) != Sent(s.out, 0)
  {
    var bytes: seq<Byte> := [0x01, 0, 0xE0, 0, 0, 0, 0, 0];
    var run := [Report(bytes, pressed), Report([0, 0, 0, 0, 0, 0, 0, 0], released)];
    assert !Separate(run) by {
      assert Named(KEY_LEFTCTRL) in Mods(bytes) by {
        assert HasBit(bytes[0], 0) && Named(MOD_BITS[0]) == Named(KEY_LEFTCTRL);
      }
      assert Named(KEY_LEFTCTRL) in Keys(bytes) by {
        assert bytes[2] == 0xE0 && HidToKey(0xE0) == Some(KEY_LEFTCTRL);
      }
      assert run[..1] == [Report(bytes, pressed)];
      assert Mods(bytes) * (KeysAfter([]) + Keys(bytes)) != {};
      assert !Separate([Report(bytes, pressed)]);
    }
    UnmappedReleasesAllIff(run);
  }

  // ---------------------------------------------------------------------------
  // The parser and the remapper together
  // ---------------------------------------------------------------------------

  lemma OneMore(run: seq<Feed>, f: Feed)
    ensures (run + [f])[..|run + [f]| - 1] == run
  {
  }

  /** A report that arrives, or a caller that switches the Fn layer. */
  datatype Call = ReportArrives(bytes: seq<Byte>) | SetFnDown(down: bool)

  ghost predicate Answers(f: Feed, call: Call) {
    match call
    case ReportArrives(bytes) => f.Report? && f.bytes == bytes
    case SetFnDown(down) => f == Switch(down)
  }

  /** No key byte of any report names a modifier. */
  predicate PlainCalls(calls: seq<Call>) {
    forall i :: 0 <= i < |calls| && calls[i].ReportArrives? && |calls[i].bytes| >= 8 ==> NoModifierBytes(calls[i].bytes)
  }

  predicate CallsEndAllUp(calls: seq<Call>) {
    calls != [] && calls[|calls| - 1].ReportArrives? && AllUp(calls[|calls| - 1].bytes)
  }

  /** One frame: parses a report and feeds the remapper with what comes out, or switches the Fn layer. */
  method RunCall(parser: Parser, keyboard: Keyboard, call: Call, ghost run: seq<Feed>)
    returns (emitted: seq<KeyEvent>, ghost f: Feed)
    requires Parsed(run) && parser.prevMods == ModsAfter(run) && parser.prevKeys == KeysAfter(run)
    requires keyboard.Now() == Run(keyboard.layers, INITIAL, Inputs(run)) && keyboard.buffer == []
    modifies parser, keyboard
    ensures Answers(f, call) && Parsed(run + [f])
    ensures parser.prevMods == ModsAfter(run + [f]) && parser.prevKeys == KeysAfter(run + [f])
    ensures keyboard.Now() == Run(keyboard.layers, INITIAL, Inputs(run + [f]))
    ensures keyboard.buffer == [] && keyboard.past == old(keyboard.past) + emitted
  {
    hide Inputs, Run, Steps, Parsed, ModsAfter, KeysAfter, Mods, Keys, IsDiff;
    match call {
      case ReportArrives(bytes) =>
        keyboard.BeginFrame();
        var events, parts := parser.ParseReport(bytes);
        f := Report(bytes, parts);
        if events.Some? {
          keyboard.FeedEvents(events.value);
        }
      case SetFnDown(down) =>
        keyboard.SetFnDown(down);
        f := Switch(down);
    }
    OneMoreFeed(keyboard.layers, run, f);
    assert old(keyboard.past) + [] == old(keyboard.past);
    emitted := keyboard.EmitEvents();
  }

  /**
   The parser and the remapper together, from the start: if the last report has nothing pressed,
   then separate reports release every code as often as they press it; so do reports whose key
   bytes name no modifier; and if modifiers always have an output, only separate reports do.
   */
  method RunCalls(layers: Layers, calls: seq<Call>) returns (out: seq<KeyEvent>, ghost run: seq<Feed>)
    ensures |run| == |calls| && forall i :: 0 <= i < |run| ==> Answers(run[i], calls[i])
    ensures Parsed(run)
    ensures out == Run(layers, INITIAL, Inputs(run)).out
    ensures CallsEndAllUp(calls) && Separate(run) ==> Sent(out, 1) == Sent(out, 0)
    ensures CallsEndAllUp(calls) && Reliable(layers, MODIFIERS) ==> (Sent(out, 1) == Sent(out, 0) <==> Separate(run))
    ensures CallsEndAllUp(calls) && PlainCalls(calls) ==> Sent(out, 1) == Sent(out, 0)
  {
    hide Inputs, Run, AllUp, Sent, Parsed, ModsAfter, KeysAfter, Separate, Reliable;
    var parser := new Parser();
    var keyboard := new Keyboard(layers);
    out, run := [], [];
    EmptyRun(layers);
    for i := 0 to |calls|
      invariant fresh(parser) && fresh(keyboard) && keyboard.layers == layers
      invariant |run| == i && forall k :: 0 <= k < i ==> Answers(run[k], calls[k])
      invariant Parsed(run)
      invariant parser.prevMods == ModsAfter(run) && parser.prevKeys == KeysAfter(run)
      invariant keyboard.Now() == Run(layers, INITIAL, Inputs(run))
      invariant keyboard.past == out && keyboard.buffer == []
    {
      ghost var f;
      var emitted;
      emitted, f := RunCall(parser, keyboard, calls[i], run);
      run := run + [f];
      out := out + emitted;
    }
    assert out + [] == out;
    if CallsEndAllUp(calls) {
      NothingStaysStuck(layers, run);
      if PlainCalls(calls) {
        PlainRunIsSeparate(run);
      }
      if Reliable(layers, MODIFIERS) {
        ReleasesAllIff(layers, run);
      }
    }
  }

  lemma EmptyRun(layers: Layers)
    ensures Parsed([]) && ModsAfter([]) == {} && KeysAfter([]) == {}
    ensures Run(layers, INITIAL, Inputs([])) == INITIAL
  {
    NothingFed();
  }

  lemma OneMoreFeed(layers: Layers, run: seq<Feed>, f: Feed)
    requires Parsed(run)
    requires IsReport(f) ==> IsDiff(f.parts, ModsAfter(run), KeysAfter(run), Mods(f.bytes), Keys(f.bytes))
    ensures Parsed(run + [f])
    ensures ModsAfter(run + [f]) == if IsReport(f) then Mods(f.bytes) else ModsAfter(run)
    ensures KeysAfter(run + [f]) == if IsReport(f) then Keys(f.bytes) else KeysAfter(run)
    ensures var s := Run(layers, INITIAL, Inputs(run));
            Run(layers, INITIAL, Inputs(run + [f]))
            == if f.Switch? then s.(fnDown := f.down)
               else if IsReport(f) then Steps(layers, s, EventsOf(f))
               else s
  {
    hide IsDiff, Mods, Keys, Inputs, Parsed, ModsAfter, KeysAfter, Run, Lost, Steps, Separate;
    ParsedMore(run, f);
    var s := Run(layers, INITIAL, Inputs(run));
    RunConcat(layers, INITIAL, Inputs(run), InputsOf(f));
    if f.Switch? {
      OneSwitch(layers, s, f.down);
    } else {
      StepsAreRun(layers, s, EventsOf(f));
      NoSteps(layers, s);
    }
  }

  lemma NoSteps(layers: Layers, s: State)
    ensures Steps(layers, s, []) == s
  {
  }

  lemma {:induction false} StepsAreRun(layers: Layers, s: State, events: seq<KeyEvent>)
    ensures Steps(layers, s, events) == Run(layers, s, AsInputs(events))
    decreases |events|
  {
    if events != [] {
      var n := |events| - 1;
      assert AsInputs(events)[..n] == AsInputs(events[..n]);
      StepsAreRun(layers, s, events[..n]);
    }
  }
}
