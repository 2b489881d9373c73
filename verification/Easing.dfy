/** Easing channels: a value that travels from `init` to `target` along a shaping function, and can be redirected. */
module Easing {
  import opened Options
  import opened Shaping
  import opened Bisection

  const INV_EPS := 0.00001

  datatype Channel = Channel(
    init: real, target: real,
    duration: Option<real>, easeFn: Option<real -> real>, invEps: real,
    startTime: real, lastTime: real, lastValue: real)

  /** The optional arguments of a call. */
  datatype Settings = Settings(
    target: Option<real>, init: Option<real>,
    duration: Option<real>, easeFn: Option<real -> real>, invEps: Option<real>)

  /** Two numbers, two nils, or a Lua error. */
  datatype Outcome = Answer(value: real, dt: real) | Nothing | Failed

  predicate Binary(x: real) {
    x == 0.0 || x == 1.0
  }

  /** No zero duration and a positive threshold. */
  predicate Usable(s: Settings) {
    && (s.duration.Some? ==> s.duration.value != 0.0)
    && (s.invEps.Some? ==> s.invEps.value > 0.0)
  }

  predicate Sound(st: Channel) {
    && Binary(st.target)
    && (st.duration.Some? ==> st.duration.value != 0.0)
    && st.invEps > 0.0
  }

  predicate Runs(st: Channel) {
    st.duration.Some? && st.easeFn.Some?
  }

  /** A target other than 0 and 1 only tells the direction. */
  function Direction(target: real, from: real, otherwise: real): real {
    if Binary(target) then target
    else if target > from then 1.0
    else if target < from then 0.0
    else otherwise
  }

  function ComputeNormalized(init: real, target: real, value: real): real {
    var span := target - init;
    if span == 0.0 then 1.0 else (value - init) / span
  }

  function Norm(st: Channel, newTarget: real): real {
    var norm := ComputeNormalized(st.init, st.target, st.lastValue);
    if newTarget != st.target then 1.0 - norm else norm
  }

  /** A channel without duration has no phase at its very start, where the source divides zero by zero. */
  predicate HasPhase(st: Channel, tnow: real) {
    Runs(st) && (st.duration.value != 0.0 || tnow != st.startTime)
  }

  /** Dividing anything else by a duration of zero is infinite, and clamped like any other number. */
  function Phase(st: Channel, tnow: real): real
    requires HasPhase(st, tnow)
  {
    var elapsed := tnow - st.startTime;
    if st.duration.value == 0.0 then
      if elapsed < 0.0 then 0.0 else 1.0
    else
      var tnorm := elapsed / st.duration.value;
      if tnorm < 0.0 then 0.0 else if tnorm > 1.0 then 1.0 else tnorm
  }

  function Along(init: real, target: real, y: real): real {
    init + (target - init) * y
  }

  function Position(st: Channel, tnow: real): real
    requires HasPhase(st, tnow)
  {
    Along(st.init, st.target, st.easeFn.value(Phase(st, tnow)))
  }

  // ---------------------------------------------------------------------------
  // What a call does
  // ---------------------------------------------------------------------------

  ghost predicate Queried(before: map<string, Channel>, after: map<string, Channel>, id: string, tnow: real, r: Outcome)
    requires id in before && Runs(before[id]) ==> HasPhase(before[id], tnow)
  {
    if id !in before || !Runs(before[id]) then
      r == Nothing && after == before
    else
      var st := before[id];
      && r == Answer(Position(st, tnow), tnow - st.lastTime)
      && after == before[id := st.(lastTime := tnow, lastValue := Position(st, tnow))]
  }

  function Started(before: map<string, Channel>, id: string, s: Settings, tnow: real): Channel
    requires s.init.Some? && (s.target.Some? || id in before)
  {
    var init := s.init.value;
    var known := id in before;
    var target := if s.target.Some? then s.target.value else before[id].target;
    Channel(init, Direction(target, init, 1.0),
            if known then OrElse(s.duration, before[id].duration) else s.duration,
            if known then OrElse(s.easeFn, before[id].easeFn) else s.easeFn,
            if s.invEps.Some? then s.invEps.value else if known then before[id].invEps else INV_EPS,
            tnow, tnow, init)
  }

  ghost predicate Initialized(before: map<string, Channel>, after: map<string, Channel>, id: string, s: Settings,
                              tnow: real, r: Outcome)
    requires s.init.Some?
  {
    if s.target.None? && id !in before then
      r == Failed && after == before
    else
      r == Answer(s.init.value, 0.0) && after == before[id := Started(before, id, s, tnow)]
  }

  function NewTarget(st: Channel, s: Settings): real {
    Direction(if s.target.Some? then s.target.value else st.target, st.lastValue, st.target)
  }

  function NewInvEps(st: Channel, s: Settings): real {
    if s.invEps.Some? then s.invEps.value else st.invEps
  }

  /** The phase an update restarts from. Without a function to invert the search must not take a step. */
  ghost predicate RestartsAt(st: Channel, s: Settings, t0: real) {
    match OrElse(s.easeFn, st.easeFn)
    case None => t0 == 0.0 && NewInvEps(st, s) >= 1.0
    case Some(fn) => IsInverse(fn, Norm(st, NewTarget(st, s)), NewInvEps(st, s), t0)
  }

  function Restarted(st: Channel, s: Settings, t0: real, tnow: real): Channel
    requires OrElse(s.duration, st.duration).Some?
  {
    Channel(st.lastValue, NewTarget(st, s), OrElse(s.duration, st.duration), OrElse(s.easeFn, st.easeFn),
            NewInvEps(st, s), tnow - t0 * OrElse(s.duration, st.duration).value, tnow, st.lastValue)
  }

  ghost predicate Updated(before: map<string, Channel>, after: map<string, Channel>, id: string, s: Settings,
                          tnow: real, r: Outcome)
  {
    if id !in before then
      r == Nothing && after == before
    else
      var st := before[id];
      if OrElse(s.duration, st.duration).None? || (OrElse(s.easeFn, st.easeFn).None? && NewInvEps(st, s) < 1.0) then
        r == Failed && after == before
      else
        && r == Answer(st.lastValue, 0.0)
        && exists t0 :: RestartsAt(st, s, t0) && after == before[id := Restarted(st, s, t0, tnow)]
  }

  predicate IsQuery(s: Settings) {
    s.target.None? && s.init.None? && s.duration.None? && s.easeFn.None?
  }

  /** What the arithmetic of a call needs: a query a phase, and an inversion a positive threshold. */
  predicate CanCompute(state: map<string, Channel>, id: string, s: Settings, tnow: real) {
    if IsQuery(s) then CanQuery(state, id, tnow)
    else if s.init.Some? then true
    else CanUpdate(state, id, s)
  }

  predicate CanQuery(state: map<string, Channel>, id: string, tnow: real) {
    id in state && Runs(state[id]) ==> HasPhase(state[id], tnow)
  }

  /** Without a positive threshold the inversion never ends. */
  predicate CanUpdate(state: map<string, Channel>, id: string, s: Settings) {
    id in state && OrElse(s.easeFn, state[id].easeFn).Some? ==> NewInvEps(state[id], s) > 0.0
  }

  ghost predicate Called(before: map<string, Channel>, after: map<string, Channel>, id: string, s: Settings,
                         tnow: real, r: Outcome)
    requires CanCompute(before, id, s, tnow)
  {
    if IsQuery(s) then Queried(before, after, id, tnow, r)
    else if s.init.Some? then Initialized(before, after, id, s, tnow, r)
    else Updated(before, after, id, s, tnow, r)
  }

  class Channels {
    var easingState: map<string, Channel>

    /** Targets are 0 or 1, whatever the callers asked for. */
    ghost predicate Valid()
      reads this
    {
      forall id :: id in easingState ==> Binary(easingState[id].target)
    }

    constructor ()
      ensures Valid() && easingState == map[]
    {
      easingState := map[];
    }

    /** The one entry point: a query, an initialization or an update, told apart by the arguments present. */
    method Easing(id: string, s: Settings, tnow: real) returns (r: Outcome)
      requires Valid() && CanCompute(easingState, id, s, tnow)
      modifies this
      ensures Valid()
      ensures Called(old(easingState), easingState, id, s, tnow, r)
    {
      if s.target.None? && s.init.None? && s.duration.None? && s.easeFn.None? {
        r := Query(id, tnow);
      } else if s.init.Some? {
        r := Initialize(id, s, tnow);
      } else {
        r := Update(id, s, tnow);
      }
    }

    method Query(id: string, tnow: real) returns (r: Outcome)
      requires Valid() && CanQuery(easingState, id, tnow)
      modifies this
      ensures Valid()
      ensures Queried(old(easingState), easingState, id, tnow, r)
    {
      if id !in easingState {
        return Nothing;
      }
      var st := easingState[id];
      if st.duration.None? || st.easeFn.None? {
        return Nothing;
      }
      ghost var before := st;
      var dt := tnow - st.lastTime;
      st := st.(lastTime := tnow);
      var elapsed, tnorm := tnow - st.startTime, 0.0;
      if st.duration.value != 0.0 {
        tnorm := elapsed / st.duration.value;
        if tnorm < 0.0 {
          tnorm := 0.0;
        }
        if tnorm > 1.0 {
          tnorm := 1.0;
        }
      } else if elapsed > 0.0 {
        tnorm := 1.0;
      }
      assert tnorm == Phase(before, tnow);
      hide Phase;
      var y := st.easeFn.value(tnorm);
      var value := st.init + (st.target - st.init) * y;
      assert value == Position(before, tnow);
      hide Position;
      st := st.(lastValue := value);
      easingState := easingState[id := st];
      r := Answer(value, dt);
    }

    method Initialize(id: string, s: Settings, tnow: real) returns (r: Outcome)
      requires Valid() && s.init.Some?
      modifies this
      ensures Valid()
      ensures Initialized(old(easingState), easingState, id, s, tnow, r)
      ensures r.Answer? ==>
                && id in easingState && easingState[id].init == easingState[id].lastValue == s.init.value
                && easingState[id].startTime == easingState[id].lastTime == tnow
    {
      var init := s.init.value;
      var target, duration, easeFn, invEps := s.target, s.duration, s.easeFn, s.invEps;
      if id in easingState {
        var st := easingState[id];
        if easeFn.None? {
          easeFn := st.easeFn;
        }
        if duration.None? {
          duration := st.duration;
        }
        if target.None? {
          target := Some(st.target);
        }
        if invEps.None? {
          invEps := Some(st.invEps);
        }
      }
      if target.None? {
        return Failed;  // nil is compared with a number
      }
      var direction := Direction(target.value, init, 1.0);
      var threshold := if invEps.Some? then invEps.value else INV_EPS;
      easingState := easingState[id := Channel(init, direction, duration, easeFn, threshold, tnow, tnow, init)];
      r := Answer(init, 0.0);
    }

    method Update(id: string, s: Settings, tnow: real) returns (r: Outcome)
      requires Valid() && CanUpdate(easingState, id, s)
      modifies this
      ensures Valid()
      ensures Updated(old(easingState), easingState, id, s, tnow, r)
    {
      hide Needed, Crosses, LastProbe, Inverts;
      if id !in easingState {
        return Nothing;
      }
      var st := easingState[id];
      var newDuration, newFn := OrElse(s.duration, st.duration), OrElse(s.easeFn, st.easeFn);
      var newInvEps := if s.invEps.Some? then s.invEps.value else st.invEps;
      var wanted := if s.target.Some? then s.target.value else st.target;
      var newTarget := Direction(wanted, st.lastValue, st.target);
      var norm := ComputeNormalized(st.init, st.target, st.lastValue);
      if newTarget != st.target {
        norm := 1.0 - norm;
      }
      assert Binary(newTarget);
      assert newTarget == NewTarget(st, s) && newInvEps == NewInvEps(st, s) && norm == Norm(st, newTarget);
      hide Direction, ComputeNormalized, Norm, NewTarget, NewInvEps;
      var t0 := 0.0;
      if newFn.Some? {
        var iter;
        t0, iter := InvertEase(newFn.value, norm, newInvEps);
        assert IsInverse(newFn.value, norm, newInvEps, t0);
      } else if newInvEps < 1.0 {
        return Failed;  // nil is called
      }
      if newDuration.None? {
        return Failed;  // nil is multiplied
      }
      var newStart := tnow - t0 * newDuration.value;
      assert RestartsAt(st, s, t0);
      var restarted :=
        Channel(st.lastValue, newTarget, newDuration, newFn, newInvEps, newStart, tnow, st.lastValue);
      assert restarted.target == newTarget && restarted == Restarted(st, s, t0, tnow);
      easingState := easingState[id := restarted];
      r := Answer(st.lastValue, 0.0);
    }
  }
}
