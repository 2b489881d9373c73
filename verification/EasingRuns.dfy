/** What a caller of the easing channels can rely on, and what not. */
module EasingRuns {
  import opened Options
  import opened Shaping
  import opened Bisection
  import opened Easing

  predicate Between(x: real, a: real, b: real) {
    a <= x <= b || b <= x <= a
  }

  ghost predicate UnitToUnit(fn: real -> real) {
    forall t :: Unit(t) ==> Unit(fn(t))
  }

  /** The last value lies between the end points, and all three in [0,1]. */
  ghost predicate Ranged(st: Channel) {
    && Sound(st)
    && Unit(st.init)
    && Between(st.lastValue, st.init, st.target)
    && (st.easeFn.Some? ==> UnitToUnit(st.easeFn.value))
  }

  // ---------------------------------------------------------------------------
  // Range
  // ---------------------------------------------------------------------------

  lemma AlongStaysBetween(init: real, target: real, y: real)
    requires Unit(y)
    ensures Between(Along(init, target, y), init, target)
  {
    var span := target - init;
    if span >= 0.0 {
      NonNegative(span, y, span * y);
      Times(span, y, 1.0, span * y);
    } else {
      NonNegative(-span, y, (-span) * y);
      Times(-span, y, 1.0, (-span) * y);
    }
  }

  lemma PositionInRange(st: Channel, tnow: real)
    requires Ranged(st) && Runs(st)
    ensures Between(Position(st, tnow), st.init, st.target) && Unit(Position(st, tnow))
  {
    var t := Phase(st, tnow);
    assert Unit(t);
    AlongStaysBetween(st.init, st.target, st.easeFn.value(t));
  }

  /** What is handed to the inversion lies in [0,1], on a reversal too. */
  lemma NormInUnit(st: Channel, newTarget: real)
    requires Ranged(st)
    ensures Unit(Norm(st, newTarget))
  {
    var span, part := st.target - st.init, st.lastValue - st.init;
    if span > 0.0 {
      Quotient01(part, span);
    } else if span < 0.0 {
      Quotient01(-part, -span);
      assert part / span == (-part) / (-span);
    }
  }

  lemma Quotient01(part: real, span: real)
    requires span > 0.0 && 0.0 <= part <= span
    ensures 0.0 <= part / span <= 1.0
  {
  }

  // ---------------------------------------------------------------------------
  // One journey
  // ---------------------------------------------------------------------------

  lemma QuotientSign(part: real, span: real)
    requires span > 0.0
    ensures part <= 0.0 ==> part / span <= 0.0
  {
  }

  lemma QuotientAbove(part: real, span: real)
    requires 0.0 < span <= part
    ensures part / span >= 1.0
  {
    var x := part / span;
    assert x * span == part;
    if x < 1.0 {
      Positive(1.0 - x, span, (1.0 - x) * span);
    }
  }

  lemma Cancel(x: real, y: real, z: real)
    requires y != 0.0 && z == x * y
    ensures z / y == x
  {
  }

  /** A journey begins at `init`, ends at `target`, and stays there. */
  lemma JourneyEnds(st: Channel, slope: real, tnow: real)
    requires Sound(st) && Runs(st) && st.duration.value > 0.0 && IsShape(st.easeFn.value, slope)
    ensures tnow <= st.startTime ==> Position(st, tnow) == st.init
    ensures tnow >= st.startTime + st.duration.value ==> Position(st, tnow) == st.target
  {
    var d := st.duration.value;
    if tnow <= st.startTime {
      QuotientSign(tnow - st.startTime, d);
    } else if tnow >= st.startTime + d {
      QuotientAbove(tnow - st.startTime, d);
    }
  }

  /** Within a journey the value only ever comes closer to the target. */
  lemma JourneyApproaches(st: Channel, slope: real, early: real, late: real)
    requires Sound(st) && Runs(st) && st.duration.value > 0.0 && IsShape(st.easeFn.value, slope)
    requires early <= late
    ensures Between(Position(st, late), Position(st, early), st.target)
  {
    PhaseGrows(st, early, late);
    var s, t := Phase(st, early), Phase(st, late);
    ShapeRange(st.easeFn.value, slope, s);
    ShapeRange(st.easeFn.value, slope, t);
    AlongApproaches(st.init, st.target, st.easeFn.value(s), st.easeFn.value(t));
  }

  lemma PhaseGrows(st: Channel, early: real, late: real)
    requires Sound(st) && Runs(st) && st.duration.value > 0.0 && early <= late
    ensures 0.0 <= Phase(st, early) <= Phase(st, late) <= 1.0
  {
    var d := st.duration.value;
    var x, y := (early - st.startTime) / d, (late - st.startTime) / d;
    assert x * d == early - st.startTime && y * d == late - st.startTime;
    if x > y {
      Positive(x - y, d, (x - y) * d);
    }
  }

  lemma AlongApproaches(init: real, target: real, y: real, z: real)
    requires 0.0 <= y <= z <= 1.0
    ensures Between(Along(init, target, z), Along(init, target, y), target)
  {
    var span := target - init;
    if span >= 0.0 {
      NonNegative(span, z - y, span * (z - y));
      NonNegative(span, 1.0 - z, span * (1.0 - z));
    } else {
      NonNegative(-span, z - y, (-span) * (z - y));
      NonNegative(-span, 1.0 - z, (-span) * (1.0 - z));
    }
  }

  // ---------------------------------------------------------------------------
  // Redirection
  // ---------------------------------------------------------------------------

  /** An update resumes at the phase it found. */
  lemma ResumedPhase(st: Channel, s: Settings, t0: real, tnow: real)
    requires Sound(st) && Usable(s) && OrElse(s.duration, st.duration).Some? && OrElse(s.easeFn, st.easeFn).Some?
    requires Unit(t0)
    ensures Sound(Restarted(st, s, t0, tnow)) && Phase(Restarted(st, s, t0, tnow), tnow) == t0
  {
    var d := OrElse(s.duration, st.duration).value;
    var elapsed := t0 * d;
    hide NewTarget, NewInvEps;
    assert tnow - Restarted(st, s, t0, tnow).startTime == elapsed;
    Cancel(t0, d, elapsed);
  }

  /** Where the journey towards `newTarget` comes from, as the inversion sees it. */
  function FarEnd(st: Channel, newTarget: real): real {
    if newTarget == st.target then st.init else st.target
  }

  function NearEnd(st: Channel, newTarget: real): real {
    if newTarget == st.target then st.target else st.init
  }

  /** Normalizing is the inverse of travelling: it finds the fraction of the way that is behind the value. */
  lemma NormLocates(st: Channel, newTarget: real)
    requires Ranged(st)
    ensures Along(FarEnd(st, newTarget), NearEnd(st, newTarget), Norm(st, newTarget)) == st.lastValue
  {
    var span, part := st.target - st.init, st.lastValue - st.init;
    if span != 0.0 {
      var x := part / span;
      assert x * span == part;
    }
  }

  /** From the old end points the phase an update finds gives back the current value, up to `bound`. */
  lemma PhaseFitsOldEndpoints(st: Channel, s: Settings, fn: real -> real, slope: real, t0: real, bound: real)
    requires Ranged(st) && Usable(s) && OrElse(s.easeFn, st.easeFn) == Some(fn)
    requires IsShape(fn, slope) && slope >= 0.0
    requires RestartsAt(st, s, t0) && bound == slope * NewInvEps(st, s)
    ensures var newTarget := NewTarget(st, s);
            var there := Along(FarEnd(st, newTarget), NearEnd(st, newTarget), fn(t0));
            -bound <= there - st.lastValue <= bound
  {
    hide IsShape, IsInverse, Along, Norm, UnitToUnit;
    var newTarget := NewTarget(st, s);
    NormInUnit(st, newTarget);
    NormLocates(st, newTarget);
    FractionFits(fn, slope, FarEnd(st, newTarget), NearEnd(st, newTarget), Norm(st, newTarget), NewInvEps(st, s),
                 t0, bound);
  }

  lemma FractionFits(fn: real -> real, slope: real, from: real, to: real, norm: real, invEps: real, t0: real,
                     bound: real)
    requires IsShape(fn, slope) && slope >= 0.0 && Unit(from) && Unit(to) && Unit(norm)
    requires IsInverse(fn, norm, invEps, t0) && bound == slope * invEps
    ensures -bound <= Along(from, to, fn(t0)) - Along(from, to, norm) <= bound
  {
    hide IsShape, IsInverse, Along;
    ResidualIsSmall(fn, slope, norm, invEps, t0, bound);
    AlongDiffers(from, to, norm, fn(t0), bound);
  }

  lemma AlongDiffers(init: real, target: real, y: real, z: real, bound: real)
    requires Unit(init) && Unit(target) && -bound <= z - y <= bound
    ensures -bound <= Along(init, target, z) - Along(init, target, y) <= bound
  {
    var span := target - init;
    var gap := span * (z - y);
    assert Along(init, target, z) - Along(init, target, y) == gap;
    if span >= 0.0 {
      Times(span, z - y, bound, gap);
      Times(span, y - z, bound, -gap);
      Times(bound, span, 1.0, bound * span);
    } else {
      Times(-span, y - z, bound, gap);
      Times(-span, z - y, bound, -gap);
      Times(bound, -span, 1.0, bound * (-span));
    }
  }

  /**
    But the update replaces `init` by the current value, so a query at the same instant
    answers with that value if and only if the value is at the target already or the search made no step.
    */
  lemma UpdateKeepsValueIff(st: Channel, s: Settings, slope: real, t0: real, tnow: real)
    requires Sound(st) && Usable(s) && OrElse(s.duration, st.duration).Some? && OrElse(s.easeFn, st.easeFn).Some?
    requires IsShape(OrElse(s.easeFn, st.easeFn).value, slope)
    requires RestartsAt(st, s, t0)
    ensures Unit(t0) && Sound(Restarted(st, s, t0, tnow))
    ensures Position(Restarted(st, s, t0, tnow), tnow) == st.lastValue
       <==> st.lastValue == NewTarget(st, s) || NewInvEps(st, s) >= 1.0
  {
    var fn := OrElse(s.easeFn, st.easeFn).value;
    InverseIsInside(fn, Norm(st, NewTarget(st, s)), NewInvEps(st, s), t0);
    ResumedPhase(st, s, t0, tnow);
    if t0 > 0.0 {
      assert fn(0.0) < fn(t0);
      AlongMoves(st.lastValue, NewTarget(st, s), fn(t0));
    }
  }

  lemma AlongMoves(init: real, target: real, y: real)
    requires y > 0.0
    ensures Along(init, target, y) == init <==> init == target
  {
    var span := target - init;
    if span > 0.0 {
      Positive(span, y, span * y);
    } else if span < 0.0 {
      Positive(-span, y, (-span) * y);
    }
  }

  /** The jump is the fraction already travelled, taken once more of the rest of the way, up to `bound`. */
  lemma UpdateJumpSize(st: Channel, s: Settings, slope: real, t0: real, tnow: real, bound: real)
    requires Ranged(st) && Usable(s) && OrElse(s.duration, st.duration).Some? && OrElse(s.easeFn, st.easeFn).Some?
    requires IsShape(OrElse(s.easeFn, st.easeFn).value, slope) && slope >= 0.0
    requires RestartsAt(st, s, t0) && bound == slope * NewInvEps(st, s)
    ensures Sound(Restarted(st, s, t0, tnow))
    ensures var newTarget := NewTarget(st, s);
            var off := Position(Restarted(st, s, t0, tnow), tnow)
                       - Along(st.lastValue, newTarget, Norm(st, newTarget));
            -bound <= off <= bound
  {
    var fn, newTarget := OrElse(s.easeFn, st.easeFn).value, NewTarget(st, s);
    NormInUnit(st, newTarget);
    assert Unit(newTarget) && Unit(st.lastValue);
    hide NewTarget, NewInvEps, Norm, Along, IsInverse, IsShape, Phase;
    ResidualIsSmall(fn, slope, Norm(st, newTarget), NewInvEps(st, s), t0, bound);
    ResumedPhase(st, s, t0, tnow);
    hide UnitToUnit, Between;
    AlongDiffers(st.lastValue, newTarget, Norm(st, newTarget), fn(t0), bound);
  }

  // ---------------------------------------------------------------------------
  // Whole runs
  // ---------------------------------------------------------------------------

  datatype Call = Call(id: string, settings: Settings, tnow: real)

  /** Callers pass starting values in [0,1], functions from [0,1] to [0,1], and clocks that do not run backwards. */
  ghost predicate Proper(s: Settings) {
    && Usable(s)
    && (s.init.Some? ==> Unit(s.init.value))
    && (s.easeFn.Some? ==> UnitToUnit(s.easeFn.value))
  }

  ghost predicate AllRanged(state: map<string, Channel>) {
    forall id :: id in state ==> Ranged(state[id])
  }

  ghost predicate NotAfter(state: map<string, Channel>, tnow: real) {
    forall id :: id in state ==> state[id].lastTime <= tnow
  }

  ghost predicate Fair(r: Outcome) {
    r.Answer? ==> Unit(r.value) && r.dt >= 0.0
  }

  lemma QueryKeepsRange(before: map<string, Channel>, after: map<string, Channel>, id: string, tnow: real, r: Outcome)
    requires AllRanged(before) && NotAfter(before, tnow) && Queried(before, after, id, tnow, r)
    ensures AllRanged(after) && NotAfter(after, tnow) && Fair(r)
  {
    if id in before && Runs(before[id]) {
      PositionInRange(before[id], tnow);
    }
  }

  lemma StartKeepsRange(before: map<string, Channel>, after: map<string, Channel>, id: string, s: Settings,
                        tnow: real, r: Outcome)
    requires AllRanged(before) && NotAfter(before, tnow) && Proper(s) && s.init.Some?
    requires Initialized(before, after, id, s, tnow, r)
    ensures AllRanged(after) && NotAfter(after, tnow) && Fair(r)
  {
  }

  lemma UpdateKeepsRange(before: map<string, Channel>, after: map<string, Channel>, id: string, s: Settings,
                         tnow: real, r: Outcome)
    requires AllRanged(before) && NotAfter(before, tnow) && Proper(s)
    requires Updated(before, after, id, s, tnow, r)
    ensures AllRanged(after) && NotAfter(after, tnow) && Fair(r)
  {
    hide IsInverse;
  }

  lemma CallKeepsRange(before: map<string, Channel>, after: map<string, Channel>, id: string, s: Settings,
                       tnow: real, r: Outcome)
    requires AllRanged(before) && NotAfter(before, tnow) && Proper(s)
    requires CanCompute(before, id, s, tnow) && Called(before, after, id, s, tnow, r)
    ensures AllRanged(after) && NotAfter(after, tnow) && Fair(r)
  {
    hide Queried, Initialized, Updated, AllRanged, NotAfter, Fair;
    if IsQuery(s) {
      QueryKeepsRange(before, after, id, tnow, r);
    } else if s.init.Some? {
      StartKeepsRange(before, after, id, s, tnow, r);
    } else {
      UpdateKeepsRange(before, after, id, s, tnow, r);
    }
  }

  ghost predicate AllSound(state: map<string, Channel>) {
    forall id :: id in state ==> Sound(state[id])
  }

  /** With usable settings from the start, every call can compute what it has to. */
  lemma CallKeepsSound(before: map<string, Channel>, after: map<string, Channel>, id: string, s: Settings,
                       tnow: real, r: Outcome)
    requires AllSound(before) && Usable(s)
    ensures CanCompute(before, id, s, tnow)
    ensures Called(before, after, id, s, tnow, r) ==> AllSound(after)
  {
    hide RestartsAt, Position, Phase;
  }

  /** The first `n` calls are proper, and the clock does not run backwards meanwhile. */
  ghost predicate ProperUpTo(calls: seq<Call>, n: nat)
    requires n <= |calls|
  {
    && (forall i :: 0 <= i < n ==> Proper(calls[i].settings))
    && (forall i, j :: 0 <= i < j < n ==> calls[i].tnow <= calls[j].tnow)
  }

  /** One call, from one state of the channels to the next. */
  ghost predicate Step(before: map<string, Channel>, after: map<string, Channel>, call: Call, r: Outcome) {
    && CanCompute(before, call.id, call.settings, call.tnow)
    && Called(before, after, call.id, call.settings, call.tnow, r)
  }

  /** The states of all channels in a run, from nothing, one call after the other. */
  ghost predicate IsRun(states: seq<map<string, Channel>>, calls: seq<Call>, outcomes: seq<Outcome>) {
    && |states| == |calls| + 1 && |outcomes| == |calls| && states[0] == map[]
    && forall i :: 0 <= i < |calls| ==> Step(states[i], states[i + 1], calls[i], outcomes[i])
  }

  /**
   At every moment of every run up to which the calls are proper, each channel's last value lies
   between its end points and all of them in [0,1]; the answer there does too, and no time step is
   negative.
   */
  lemma {:induction false} RunKeepsRange(states: seq<map<string, Channel>>, calls: seq<Call>, outcomes: seq<Outcome>,
                                         n: nat)
    requires IsRun(states, calls, outcomes) && n <= |calls| && ProperUpTo(calls, n)
    ensures AllRanged(states[n])
    ensures n > 0 ==> NotAfter(states[n], calls[n - 1].tnow) && Fair(outcomes[n - 1])
    decreases n
  {
    hide AllRanged, NotAfter, Fair, Proper, Called, CanCompute;
    if n == 0 {
      NothingStarted();
    } else {
      RunKeepsRange(states, calls, outcomes, n - 1);
      var call := calls[n - 1];
      assert Step(states[n - 1], states[n - 1 + 1], call, outcomes[n - 1]);
      if n == 1 {
        NothingStarted();
      } else {
        StillNotAfter(states[n - 1], calls[n - 2].tnow);
      }
      CallKeepsRange(states[n - 1], states[n], call.id, call.settings, call.tnow, outcomes[n - 1]);
    }
  }

  /** Whatever the calls, as long as their durations and thresholds are usable, the channels make a run of them. */
  method RunCalls(channels: Channels, calls: seq<Call>)
    returns (outcomes: seq<Outcome>, ghost states: seq<map<string, Channel>>)
    requires channels.easingState == map[]
    requires forall i :: 0 <= i < |calls| ==> Usable(calls[i].settings)
    modifies channels
    ensures IsRun(states, calls, outcomes)
    ensures |outcomes| == |calls|
    ensures forall i :: 0 <= i < |calls| && ProperUpTo(calls, i + 1) ==> Fair(outcomes[i])
    ensures forall i :: 0 <= i <= |calls| && ProperUpTo(calls, i) ==> AllRanged(states[i])
  {
    hide AllRanged, Fair, ProperUpTo, AllSound, Usable, Called, CanCompute;
    outcomes, states := [], [map[]];
    NothingStarted();
    for i := 0 to |calls|
      invariant channels.Valid() && AllSound(channels.easingState)
      invariant |outcomes| == i && |states| == i + 1
      invariant states[0] == map[] && states[i] == channels.easingState
      invariant forall j :: 0 <= j < i ==> Step(states[j], states[j + 1], calls[j], outcomes[j])
    {
      var call := calls[i];
      ghost var before := channels.easingState;
      CallKeepsSound(before, before, call.id, call.settings, call.tnow, Nothing);
      var r := channels.Easing(call.id, call.settings, call.tnow);
      CallKeepsSound(before, channels.easingState, call.id, call.settings, call.tnow, r);
      outcomes := outcomes + [r];
      states := states + [channels.easingState];
    }
    forall i | 0 <= i <= |calls| && ProperUpTo(calls, i)
      ensures AllRanged(states[i]) && (i > 0 ==> Fair(outcomes[i - 1]))
    {
      RunKeepsRange(states, calls, outcomes, i);
    }
    forall i | 0 <= i < |calls| && ProperUpTo(calls, i + 1) ensures Fair(outcomes[i]) {
      RunKeepsRange(states, calls, outcomes, i + 1);
    }
  }

  lemma NothingStarted()
    ensures AllSound(map[]) && AllRanged(map[]) && forall tnow :: NotAfter(map[], tnow)
  {
  }

  lemma StillNotAfter(state: map<string, Channel>, tnow: real)
    requires NotAfter(state, tnow)
    ensures forall later :: tnow <= later ==> NotAfter(state, later)
  {
  }

  lemma ShapeStaysInUnit(fn: real -> real, slope: real)
    requires IsShape(fn, slope)
    ensures UnitToUnit(fn)
  {
    forall t | Unit(t) ensures Unit(fn(t)) {
      ShapeRange(fn, slope, t);
    }
  }

  /** From rest: an update at the very start makes the next query at the same instant jump ahead. */
  lemma UpdateJumps(states: seq<map<string, Channel>>, id: string, duration: real, invEps: real, tnow: real,
                    outcomes: seq<Outcome>)
    requires duration != 0.0 && 0.0 < invEps < 1.0
    requires var calls := [
               Call(id, Settings(Some(1.0), Some(0.0), Some(duration), Some(EaseSmoothstep), Some(invEps)), tnow),
               Call(id, Settings(Some(1.0), None, None, None, None), tnow),
               Call(id, Settings(None, None, None, None, None), tnow)];
             IsRun(states, calls, outcomes)
    ensures outcomes[0] == outcomes[1] == Answer(0.0, 0.0)
    ensures outcomes[2].Answer? && outcomes[2].value > 0.0
  {
    hide IsInverse, IsShape, Phase, EaseSmoothstep, Norm;
    var u := Settings(Some(1.0), None, None, None, None);
    var first := Settings(Some(1.0), Some(0.0), Some(duration), Some(EaseSmoothstep), Some(invEps));
    assert Step(states[0], states[0 + 1], Call(id, first, tnow), outcomes[0]);
    var st := states[1][id];
    assert Step(states[1], states[1 + 1], Call(id, u, tnow), outcomes[1]);
    var t0 :| RestartsAt(st, u, t0) && states[2][id] == Restarted(st, u, t0, tnow);
    assert Step(states[2], states[2 + 1], Call(id, Settings(None, None, None, None, None), tnow), outcomes[2]);
    SmoothstepIsShape();
    UpdateKeepsValueIff(st, u, 1.5, t0, tnow);
    ShapeStaysInUnit(EaseSmoothstep, 1.5);
    PositionInRange(states[2][id], tnow);
  }
}
