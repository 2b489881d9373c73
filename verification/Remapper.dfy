/**
 The keyboard remapper: the mapping of a key is chosen when it is pressed and used again
 when it is released.
 */
module Remapper {
  import opened Options
  import opened HidUsages

  datatype EventType = EvKey | EvMsc | EvSyn | EvOther

  /** An input or output event; value 1 presses, 0 releases, 2 repeats. */
  datatype KeyEvent = KeyEvent(kind: EventType, code: Code, value: int)

  /** A user's mapping for a key: one code, or a list of them. */
  datatype Mapping = Single(code: Code) | Many(codes: seq<Code>)

  datatype Layers = Layers(normal: map<Code, Mapping>, modifier: map<Code, Mapping>, fn: map<Code, Mapping>)

  /** Keys that keep their meaning while the Fn layer is on. */
  predicate IsIdentity(code: Code) {
    code.Named? &&
    match code.key
    case KEY_LEFTSHIFT | KEY_RIGHTSHIFT | KEY_LEFTCTRL | KEY_RIGHTCTRL => true
    case KEY_LEFTALT | KEY_RIGHTALT | KEY_LEFTMETA | KEY_RIGHTMETA => true
    case KEY_CAPSLOCK | KEY_NUMLOCK | KEY_SCROLLLOCK => true
    case KEY_COMPOSE | KEY_ISO_LEVEL3_SHIFT | KEY_ISO_LEVEL5_SHIFT => true
    case KEY_FN => true
    case _ => false
  }

  const FN_CODE := Named(KEY_FN)

  function Lookup(m: map<Code, Mapping>, code: Code): Option<Mapping> {
    if code in m then Some(m[code]) else None
  }

  /** The output codes of a key that is pressed now; `None` suppresses it. */
  function ResolveMapping(layers: Layers, fnDown: bool, code: Code): (mapped: Option<seq<Code>>)
    ensures mapped.Some? ==> mapped.value != []
  {
    var chosen: Option<Mapping> :=
      if fnDown then
        OrElse(Lookup(layers.modifier, code),
               OrElse(if IsIdentity(code) then Some(Single(code)) else None, Lookup(layers.fn, code)))
      else
        OrElse(Lookup(layers.modifier, code), OrElse(Lookup(layers.normal, code), Some(Single(code))));
    match chosen
    case None => None
    case Some(Single(c)) => Some([c])
    case Some(Many(codes)) => if codes == [] then None else Some(codes)
  }

  /** The output codes that a mapping stands for; an empty list suppresses the key. */
  function OutputOf(m: Mapping): Option<seq<Code>> {
    match m
    case Single(code) => Some([code])
    case Many(codes) => if codes == [] then None else Some(codes)
  }

  /** Which layer decides: first the modifier layer, then the key itself or the layer that is on. */
  lemma LayerPrecedence(layers: Layers, fnDown: bool, code: Code)
    ensures code in layers.modifier ==> ResolveMapping(layers, fnDown, code) == OutputOf(layers.modifier[code])
    ensures code !in layers.modifier && !IsIdentity(code) && code in layers.fn ==>
              ResolveMapping(layers, true, code) == OutputOf(layers.fn[code])
    ensures code !in layers.modifier && code in layers.normal ==>
              ResolveMapping(layers, false, code) == OutputOf(layers.normal[code])
    ensures code !in layers.modifier && IsIdentity(code) ==> ResolveMapping(layers, true, code) == Some([code])
    ensures code !in layers.modifier && !IsIdentity(code) && code !in layers.fn ==>
              ResolveMapping(layers, true, code) == None
    ensures code !in layers.modifier && code !in layers.normal ==> ResolveMapping(layers, false, code) == Some([code])
  {
  }

  /** Changing another layer, or the deciding layer at another key, changes nothing. */
  lemma OtherLayersDoNotMatter(a: Layers, b: Layers, fnDown: bool, code: Code)
    requires Lookup(a.modifier, code) == Lookup(b.modifier, code)
    requires code in a.modifier
          || (fnDown && (IsIdentity(code) || Lookup(a.fn, code) == Lookup(b.fn, code)))
          || (!fnDown && Lookup(a.normal, code) == Lookup(b.normal, code))
    ensures ResolveMapping(a, fnDown, code) == ResolveMapping(b, fnDown, code)
  {
  }

  /** The locks, and the keys that choose a level, other than the modifiers of a boot report. */
  predicate IsLockOrLevel(key: Key) {
    match key
    case KEY_CAPSLOCK | KEY_NUMLOCK | KEY_SCROLLLOCK => true
    case KEY_COMPOSE | KEY_ISO_LEVEL3_SHIFT | KEY_ISO_LEVEL5_SHIFT | KEY_FN => true
    case _ => false
  }

  lemma ModifiersAreIdentity(key: Key)
    requires IsModifier(key)
    ensures IsIdentity(Named(key))
  {
  }

  lemma LocksAreIdentity(key: Key)
    requires IsLockOrLevel(key)
    ensures IsIdentity(Named(key))
  {
  }

  lemma NothingElseIsIdentity(key: Key)
    requires IsIdentity(Named(key)) && !IsModifier(key)
    ensures IsLockOrLevel(key)
  {
  }

  /** The keys that work on the Fn layer although nothing maps them. */
  lemma UnmappedOnFnLayer(layers: Layers, key: Key)
    requires Named(key) !in layers.modifier && Named(key) !in layers.fn
    ensures ResolveMapping(layers, true, Named(key))
         == if IsModifier(key) || IsLockOrLevel(key) then Some([Named(key)]) else None
  {
    hide IsIdentity, IsModifier, IsLockOrLevel;
    if IsModifier(key) {
      ModifiersAreIdentity(key);
    } else if IsLockOrLevel(key) {
      LocksAreIdentity(key);
    } else if IsIdentity(Named(key)) {
      NothingElseIsIdentity(key);
    }
  }

  /** Mapped to KEY_FN alone, a key switches the Fn layer instead of producing output. */
  predicate IsFn(mapped: seq<Code>) {
    mapped == [FN_CODE]
  }

  // ---------------------------------------------------------------------------
  // Specification: one event at a time
  // ---------------------------------------------------------------------------

  /** The remapper's state, with everything it has put out so far. */
  datatype State = State(fnDown: bool, active: map<Code, seq<Code>>, out: seq<KeyEvent>)

  const INITIAL := State(false, map[], [])

  /** Presses in order. */
  function Presses(codes: seq<Code>): seq<KeyEvent> {
    seq(|codes|, i requires 0 <= i < |codes| => KeyEvent(EvKey, codes[i], 1))
  }

  /** Releases in reverse order. */
  function Releases(codes: seq<Code>): seq<KeyEvent> {
    seq(|codes|, i requires 0 <= i < |codes| => KeyEvent(EvKey, codes[|codes| - 1 - i], 0))
  }

  function Press(layers: Layers, s: State, code: Code): State {
    match ResolveMapping(layers, s.fnDown, code)
    case None => s
    case Some(mapped) =>
      if IsFn(mapped) then
        State(true, s.active[code := mapped], s.out)
      else
        State(s.fnDown, s.active[code := mapped], s.out + Presses(mapped))
  }

  function Release(s: State, code: Code): State {
    if code !in s.active then s
    else if IsFn(s.active[code]) then
      State(false, s.active - {code}, s.out)
    else
      State(s.fnDown, s.active - {code}, s.out + Releases(s.active[code]))
  }

  function Step(layers: Layers, s: State, e: KeyEvent): State {
    if e.kind.EvKey? && e.value == 1 then Press(layers, s, e.code)
    else if e.kind.EvKey? && e.value == 0 then Release(s, e.code)
    else s
  }

  function Steps(layers: Layers, s: State, events: seq<KeyEvent>): State {
    if events == [] then s
    else Step(layers, Steps(layers, s, events[..|events| - 1]), events[|events| - 1])
  }

  lemma StepsMore(layers: Layers, s: State, events: seq<KeyEvent>, j: nat)
    requires j < |events|
    ensures Steps(layers, s, events[..j + 1]) == Step(layers, Steps(layers, s, events[..j]), events[j])
  {
    assert events[..j + 1][..j] == events[..j];
  }

  lemma {:induction false} StepsConcat(layers: Layers, s: State, a: seq<KeyEvent>, b: seq<KeyEvent>)
    ensures Steps(layers, s, a + b) == Steps(layers, Steps(layers, s, a), b)
    decreases |b|
  {
    if b == [] {
      assert a + b == a;
    } else {
      var n := |b| - 1;
      assert (a + b)[..|a + b| - 1] == a + b[..n];
      StepsConcat(layers, s, a, b[..n]);
    }
  }

  // ---------------------------------------------------------------------------
  // The remapper
  // ---------------------------------------------------------------------------

  class Keyboard {
    const layers: Layers

    var fnDown: bool
    var activeKeys: map<Code, seq<Code>>   // physical code -> output codes chosen at press time
    var buffer: seq<KeyEvent>

    ghost var past: seq<KeyEvent>          // everything put out before what is pending in `buffer`

    ghost function Now(): State
      reads this
    {
      State(fnDown, activeKeys, past + buffer)
    }

    constructor (layers: Layers)
      ensures this.layers == layers && Now() == INITIAL && buffer == [] && past == []
    {
      this.layers := layers;
      fnDown, activeKeys, buffer, past := false, map[], [], [];
    }

    method AppendEvent(code: Code, value: int)
      modifies this`buffer
      ensures buffer == old(buffer) + [KeyEvent(EvKey, code, value)]
    {
      buffer := buffer + [KeyEvent(EvKey, code, value)];
    }

    /** What was not emitted is dropped. */
    method BeginFrame()
      modifies this`buffer, this`past
      ensures buffer == [] && past == old(past) + old(buffer) && Now() == old(Now())
    {
      past := past + buffer;
      buffer := [];
    }

    method EmitPresses(mapped: seq<Code>)
      modifies this`buffer
      ensures buffer == old(buffer) + Presses(mapped)
    {
      var i := 0;
      while i < |mapped|
        invariant 0 <= i <= |mapped|
        invariant buffer == old(buffer) + Presses(mapped)[..i]
      {
        AppendEvent(mapped[i], 1);
        i := i + 1;
      }
      assert Presses(mapped)[..i] == Presses(mapped);
    }

    method EmitReleases(mapped: seq<Code>)
      modifies this`buffer
      ensures buffer == old(buffer) + Releases(mapped)
    {
      var i := |mapped|;
      while i > 0
        invariant 0 <= i <= |mapped|
        invariant buffer == old(buffer) + Releases(mapped)[..|mapped| - i]
      {
        i := i - 1;
        AppendEvent(mapped[i], 0);
      }
      assert Releases(mapped)[..|mapped|] == Releases(mapped);
    }

    method FeedEvents(events: seq<KeyEvent>)
      modifies this`fnDown, this`activeKeys, this`buffer
      ensures Now() == Steps(layers, old(Now()), events)
    {
      var k := 0;
      while k < |events|
        invariant 0 <= k <= |events|
        invariant Now() == Steps(layers, old(Now()), events[..k])
      {
        var e := events[k];
        StepsMore(layers, old(Now()), events, k);
        if e.kind.EvKey? && (e.value == 0 || e.value == 1) {
          if e.value == 1 {
            PressKey(e.code);
          } else {
            ReleaseKey(e.code);
          }
        }
        k := k + 1;
      }
      assert events[..k] == events;
    }

    method PressKey(code: Code)
      modifies this`fnDown, this`activeKeys, this`buffer
      ensures Now() == Press(layers, old(Now()), code)
    {
      hide ResolveMapping, Presses;
      var mapped := ResolveMapping(layers, fnDown, code);
      if mapped.Some? && IsFn(mapped.value) {
        fnDown := true;
        activeKeys := activeKeys[code := [FN_CODE]];
      } else if mapped.Some? {
        activeKeys := activeKeys[code := mapped.value];
        EmitPresses(mapped.value);
        assert past + (old(buffer) + Presses(mapped.value)) == (past + old(buffer)) + Presses(mapped.value);
      }
    }

    method ReleaseKey(code: Code)
      modifies this`fnDown, this`activeKeys, this`buffer
      ensures Now() == Release(old(Now()), code)
    {
      hide Releases;
      if code in activeKeys {
        var mapped := activeKeys[code];
        activeKeys := activeKeys - {code};
        if IsFn(mapped) {
          fnDown := false;
        } else {
          EmitReleases(mapped);
          assert past + (old(buffer) + Releases(mapped)) == (past + old(buffer)) + Releases(mapped);
        }
      }
    }

    /** Hands over the pending events. */
    method EmitEvents() returns (emitted: seq<KeyEvent>)
      modifies this`buffer, this`past
      ensures emitted == old(buffer) && buffer == [] && past == old(past) + emitted && Now() == old(Now())
    {
      emitted := buffer;
      past := past + buffer;
      buffer := [];
    }

    method SetFnDown(down: bool)
      modifies this`fnDown
      ensures Now() == old(Now()).(fnDown := down)
    {
      fnDown := down;
    }
  }
}
