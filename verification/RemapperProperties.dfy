/** Conservation: what the remapper presses, it releases or still holds. */
module RemapperProperties {
  import opened Options
  import opened Tally
  import opened HidUsages
  import opened Remapper

  /** How often each code was put out with the given value. */
  ghost function Sent(out: seq<KeyEvent>, value: int): multiset<Code> {
    if out == [] then multiset{}
    else
      var e := out[|out| - 1];
      Sent(out[..|out| - 1], value) + (if e.value == value then multiset{e.code} else multiset{})
  }

  /** The output codes that an active key holds down; a Fn key holds none. */
  ghost function Outputs(mapped: seq<Code>): multiset<Code> {
    if IsFn(mapped) then multiset{} else multiset(mapped)
  }

  /** Everything that the active keys hold down. */
  ghost function Held(active: map<Code, seq<Code>>): multiset<Code> {
    Total(active, Outputs)
  }

  /** What becomes unreleasable because a key is pressed while it is held. */
  ghost function LostByStep(layers: Layers, s: State, e: KeyEvent): multiset<Code> {
    if e.kind.EvKey? && e.value == 1 && e.code in s.active && ResolveMapping(layers, s.fnDown, e.code).Some?
    then Outputs(s.active[e.code])
    else multiset{}
  }

  /** An event, or a caller switching the Fn layer. */
  datatype Input = Event(e: KeyEvent) | SetFn(down: bool)

  ghost function Apply(layers: Layers, s: State, i: Input): State {
    match i
    case Event(e) => Step(layers, s, e)
    case SetFn(down) => s.(fnDown := down)
  }

  ghost function Run(layers: Layers, s: State, inputs: seq<Input>): State {
    if inputs == [] then s
    else Apply(layers, Run(layers, s, inputs[..|inputs| - 1]), inputs[|inputs| - 1])
  }

  ghost function Lost(layers: Layers, s: State, inputs: seq<Input>): multiset<Code> {
    if inputs == [] then multiset{}
    else
      var n := |inputs| - 1;
      Lost(layers, s, inputs[..n]) +
      match inputs[n]
      case Event(e) => LostByStep(layers, Run(layers, s, inputs[..n]), e)
      case SetFn(_) => multiset{}
  }

  // ---------------------------------------------------------------------------
  // Counting
  // ---------------------------------------------------------------------------

  lemma {:induction false} SentConcat(a: seq<KeyEvent>, b: seq<KeyEvent>, value: int)
    ensures Sent(a + b, value) == Sent(a, value) + Sent(b, value)
    decreases |b|
  {
    if b == [] {
      assert a + b == a;
    } else {
      var n := |b| - 1;
      assert (a + b)[..|a + b| - 1] == a + b[..n];
      SentConcat(a, b[..n], value);
    }
  }

  lemma {:induction false} SentPresses(codes: seq<Code>)
    ensures Sent(Presses(codes), 1) == multiset(codes)
    ensures Sent(Presses(codes), 0) == multiset{}
    decreases |codes|
  {
    if codes != [] {
      var n := |codes| - 1;
      assert Presses(codes)[..n] == Presses(codes[..n]);
      assert codes == codes[..n] + [codes[n]];
      SentPresses(codes[..n]);
    }
  }

  lemma {:induction false} SentReleases(codes: seq<Code>)
    ensures Sent(Releases(codes), 0) == multiset(codes)
    ensures Sent(Releases(codes), 1) == multiset{}
    decreases |codes|
  {
    if codes != [] {
      var n := |codes| - 1;
      assert Releases(codes)[..n] == Releases(codes[1..]);
      assert codes == [codes[0]] + codes[1..];
      SentReleases(codes[1..]);
    }
  }

  // ---------------------------------------------------------------------------
  // The law
  // ---------------------------------------------------------------------------

  ghost predicate Balanced(s: State, lost: multiset<Code>) {
    Sent(s.out, 1) == Sent(s.out, 0) + Held(s.active) + lost
  }

  /** Pressing `more` keeps the balance if what is held grows by `more` less `gone`. */
  lemma Rebalance<T(!new)>(pressed: multiset<T>, released: multiset<T>, held: multiset<T>, lost: multiset<T>,
                     held': multiset<T>, gone: multiset<T>, more: multiset<T>)
    requires pressed == released + held + lost
    requires held' + gone == held + more
    ensures pressed + more == released + held' + (lost + gone)
  {
    forall t: T ensures (pressed + more)[t] == (released + held' + (lost + gone))[t] {
      assert (held' + gone)[t] == (held + more)[t];
      assert pressed[t] == (released + held + lost)[t];
    }
  }

  lemma PressBalanced(s: State, code: Code, mapped: seq<Code>, fnDown: bool, lost: multiset<Code>)
    requires Balanced(s, lost)
    ensures Balanced(State(fnDown, s.active[code := mapped], if IsFn(mapped) then s.out else s.out + Presses(mapped)),
                     lost + if code in s.active then Outputs(s.active[code]) else multiset{})
  {
    hide Sent, Presses, Total;
    var gone := if code in s.active then Outputs(s.active[code]) else multiset{};
    TotalWith(s.active, Outputs, code, mapped);
    SentPresses(mapped);
    SentConcat(s.out, Presses(mapped), 1);
    SentConcat(s.out, Presses(mapped), 0);
    Rebalance(Sent(s.out, 1), Sent(s.out, 0), Held(s.active), lost,
              Held(s.active[code := mapped]), gone, Outputs(mapped));
  }

  lemma ReleaseBalanced(s: State, code: Code, fnDown: bool, lost: multiset<Code>)
    requires Balanced(s, lost) && code in s.active
    ensures Balanced(State(fnDown, s.active - {code},
                           if IsFn(s.active[code]) then s.out else s.out + Releases(s.active[code])), lost)
  {
    var mapped := s.active[code];
    TotalWithout(s.active, Outputs, code);
    SentReleases(mapped);
    SentConcat(s.out, Releases(mapped), 1);
    SentConcat(s.out, Releases(mapped), 0);
  }

  lemma StepBalanced(layers: Layers, s: State, e: KeyEvent, lost: multiset<Code>)
    requires Balanced(s, lost)
    ensures Balanced(Step(layers, s, e), lost + LostByStep(layers, s, e))
  {
    hide ResolveMapping, Presses, Releases, Balanced, Outputs;
    assert lost + multiset{} == lost;
    if e.kind.EvKey? && e.value == 1 {
      var resolved := ResolveMapping(layers, s.fnDown, e.code);
      if resolved.Some? {
        PressBalanced(s, e.code, resolved.value, s.fnDown || IsFn(resolved.value), lost);
      }
    } else if e.kind.EvKey? && e.value == 0 && e.code in s.active {
      ReleaseBalanced(s, e.code, s.fnDown && !IsFn(s.active[e.code]), lost);
    }
  }

  /**
   For every run, presses are releases, plus what is still held, plus what was lost by
   pressing a key that was held.
   */
  lemma {:induction false} Conservation(layers: Layers, inputs: seq<Input>)
    ensures Balanced(Run(layers, INITIAL, inputs), Lost(layers, INITIAL, inputs))
    decreases |inputs|
  {
    if inputs == [] {
    } else {
      var n := |inputs| - 1;
      var s, lost := Run(layers, INITIAL, inputs[..n]), Lost(layers, INITIAL, inputs[..n]);
      Conservation(layers, inputs[..n]);
      match inputs[n]
      case Event(e) => StepBalanced(layers, s, e, lost);
      case SetFn(_) => assert lost + multiset{} == lost;
    }
  }

  // ---------------------------------------------------------------------------
  // The mapping chosen at press time
  // ---------------------------------------------------------------------------

  ghost predicate LeavesAlone(inputs: seq<Input>, code: Code) {
    forall i :: 0 <= i < |inputs| && inputs[i].Event? ==> inputs[i].e.code != code
  }

  lemma {:induction false} MappingIsRemembered(layers: Layers, s: State, inputs: seq<Input>, code: Code)
    requires code in s.active && LeavesAlone(inputs, code)
    ensures var held := Run(layers, s, inputs); code in held.active && held.active[code] == s.active[code]
    decreases |inputs|
  {
    hide ResolveMapping;
    if inputs != [] {
      MappingIsRemembered(layers, s, inputs[..|inputs| - 1], code);
    }
  }

  lemma PressPutsOut(layers: Layers, s: State, code: Code, mapped: seq<Code>)
    requires ResolveMapping(layers, s.fnDown, code) == Some(mapped)
    ensures var pressed := Step(layers, s, KeyEvent(EvKey, code, 1));
            && code in pressed.active && pressed.active[code] == mapped
            && (IsFn(mapped) ==> pressed.fnDown && pressed.out == s.out)
            && (!IsFn(mapped) ==> pressed.fnDown == s.fnDown && pressed.out == s.out + Presses(mapped))
  {
    hide ResolveMapping, Presses;
  }

  lemma ReleasePutsOut(layers: Layers, s: State, code: Code)
    requires code in s.active
    ensures var mapped, released := s.active[code], Step(layers, s, KeyEvent(EvKey, code, 0));
            && released.active == s.active - {code}
            && (IsFn(mapped) ==> !released.fnDown && released.out == s.out)
            && (!IsFn(mapped) ==> released.fnDown == s.fnDown && released.out == s.out + Releases(mapped))
  {
    hide Releases;
  }

  /** Releases are presses, code by code, from the last to the first. */
  lemma ReleasesMirrorPresses(codes: seq<Code>)
    ensures |Presses(codes)| == |Releases(codes)| == |codes|
    ensures forall i :: 0 <= i < |codes| ==>
              && Presses(codes)[i] == KeyEvent(EvKey, codes[i], 1)
              && Releases(codes)[|codes| - 1 - i] == KeyEvent(EvKey, codes[i], 0)
  {
  }

  /**
   Whatever happens to other keys and to the Fn layer in between, a key's release undoes its
   press: it releases exactly the codes pressed, in reverse order, or leaves the Fn layer.
   */
  lemma ReleaseMirrorsPress(layers: Layers, s: State, code: Code, mapped: seq<Code>, inputs: seq<Input>)
    requires ResolveMapping(layers, s.fnDown, code) == Some(mapped) && LeavesAlone(inputs, code)
    ensures var pressed := Step(layers, s, KeyEvent(EvKey, code, 1));
            var held := Run(layers, pressed, inputs);
            var released := Step(layers, held, KeyEvent(EvKey, code, 0));
            && released.active == held.active - {code}
            && (IsFn(mapped) ==> pressed.fnDown && pressed.out == s.out && !released.fnDown && released.out == held.out)
            && (!IsFn(mapped) ==>
                  && pressed.fnDown == s.fnDown && released.fnDown == held.fnDown
                  && pressed.out == s.out + Presses(mapped) && released.out == held.out + Releases(mapped))
    ensures |Presses(mapped)| == |Releases(mapped)| == |mapped|
    ensures forall i :: 0 <= i < |mapped| ==>
              && Presses(mapped)[i] == KeyEvent(EvKey, mapped[i], 1)
              && Releases(mapped)[|mapped| - 1 - i] == KeyEvent(EvKey, mapped[i], 0)
  {
    hide ResolveMapping, Step, Run, IsFn, Presses, Releases, LeavesAlone;
    var pressed := Step(layers, s, KeyEvent(EvKey, code, 1));
    PressPutsOut(layers, s, code, mapped);
    MappingIsRemembered(layers, pressed, inputs, code);
    ReleasePutsOut(layers, Run(layers, pressed, inputs), code);
    ReleasesMirrorPresses(mapped);
  }

  /**
   A key whose mapping is KEY_FN alone puts nothing out: it turns the Fn layer on, and off again when it is
   released, whatever other keys do meanwhile.
   */
  lemma FnKeySwitches(layers: Layers, s: State, code: Code, inputs: seq<Input>)
    requires ResolveMapping(layers, s.fnDown, code) == Some([Named(KEY_FN)]) && LeavesAlone(inputs, code)
    ensures var pressed := Step(layers, s, KeyEvent(EvKey, code, 1));
            var held := Run(layers, pressed, inputs);
            var released := Step(layers, held, KeyEvent(EvKey, code, 0));
            && pressed.fnDown && pressed.out == s.out
            && !released.fnDown && released.out == held.out
  {
    hide ResolveMapping, Run, Presses, Releases;
    var pressed := Step(layers, s, KeyEvent(EvKey, code, 1));
    PressPutsOut(layers, s, code, [FN_CODE]);
    MappingIsRemembered(layers, pressed, inputs, code);
    ReleasePutsOut(layers, Run(layers, pressed, inputs), code);
  }

  /** Any other key puts out a press for each of its codes, and leaves the Fn layer as it is. */
  lemma OtherKeysPress(layers: Layers, s: State, code: Code, mapped: seq<Code>)
    requires ResolveMapping(layers, s.fnDown, code) == Some(mapped) && mapped != [Named(KEY_FN)]
    ensures var pressed := Step(layers, s, KeyEvent(EvKey, code, 1));
            && pressed.fnDown == s.fnDown && |pressed.out| == |s.out| + |mapped| && s.out <= pressed.out
            && forall i :: 0 <= i < |mapped| ==> pressed.out[|s.out| + i] == KeyEvent(EvKey, mapped[i], 1)
  {
    hide ResolveMapping;
    PressPutsOut(layers, s, code, mapped);
    ReleasesMirrorPresses(mapped);
  }

  /** Repeats, other values and other kinds of events change nothing; nor does a key that gives nothing. */
  lemma OthersIgnored(layers: Layers, s: State, e: KeyEvent)
    requires !e.kind.EvKey? || (e.value != 0 && e.value != 1)
          || (e.value == 0 && e.code !in s.active)
          || (e.value == 1 && ResolveMapping(layers, s.fnDown, e.code) == None)
    ensures Step(layers, s, e) == s
  {
  }
}
