/** What callers see of a journey, from the arguments they pass to the answers they get. */
module EasingJourneys {
  import opened Options
  import opened Shaping
  import opened Bisection
  import opened Easing
  import opened EasingRuns

  function Clamp(x: real): real {
    if x < 0.0 then 0.0 else if x > 1.0 then 1.0 else x
  }

  /** The part of a journey that is over after some time. */
  function Portion(elapsed: real, d: real): real
    requires d != 0.0
  {
    Clamp(elapsed / d)
  }

  /** No call in between is for the channel. */
  predicate Quiet(calls: seq<Call>, n: nat, m: nat, id: string)
    requires m <= |calls|
  {
    forall k :: n < k < m ==> calls[k].id != id
  }

  lemma Taken(states: seq<map<string, Channel>>, calls: seq<Call>, outcomes: seq<Outcome>, n: nat)
    requires IsRun(states, calls, outcomes) && n < |calls|
    ensures CanCompute(states[n], calls[n].id, calls[n].settings, calls[n].tnow)
    ensures Called(states[n], states[n + 1], calls[n].id, calls[n].settings, calls[n].tnow, outcomes[n])
  {
    assert Step(states[n], states[n + 1], calls[n], outcomes[n]);
  }

  lemma OthersUntouched(before: map<string, Channel>, after: map<string, Channel>, call: Call, r: Outcome, id: string)
    requires CanCompute(before, call.id, call.settings, call.tnow)
    requires Called(before, after, call.id, call.settings, call.tnow, r) && call.id != id
    ensures id in before <==> id in after
    ensures id in before ==> after[id] == before[id]
  {
    hide RestartsAt, Restarted, Position;
  }

  /** Channels do not disturb each other. */
  lemma {:induction false} QuietKeeps(states: seq<map<string, Channel>>, calls: seq<Call>, outcomes: seq<Outcome>,
                                      n: nat, m: nat, id: string)
    requires IsRun(states, calls, outcomes) && n < m <= |calls| && Quiet(calls, n, m, id)
    ensures id in states[n + 1] <==> id in states[m]
    ensures id in states[m] ==> states[m][id] == states[n + 1][id]
    decreases m
  {
    hide CanCompute, Called, Step;
    if m > n + 1 {
      QuietKeeps(states, calls, outcomes, n, m - 1, id);
      Taken(states, calls, outcomes, m - 1);
      OthersUntouched(states[m - 1], states[m], calls[m - 1], outcomes[m - 1], id);
    }
  }

  // ---------------------------------------------------------------------------
  // What every answer leaves
  // ---------------------------------------------------------------------------

  lemma AnswerIsLast(before: map<string, Channel>, after: map<string, Channel>, call: Call, r: Outcome)
    requires CanCompute(before, call.id, call.settings, call.tnow)
    requires Called(before, after, call.id, call.settings, call.tnow, r) && r.Answer?
    ensures call.id in after && after[call.id].lastValue == r.value && after[call.id].lastTime == call.tnow
  {
    hide RestartsAt, Position;
  }

  lemma AnswerFollows(before: map<string, Channel>, after: map<string, Channel>, call: Call, r: Outcome)
    requires CanCompute(before, call.id, call.settings, call.tnow)
    requires Called(before, after, call.id, call.settings, call.tnow, r) && r.Answer?
    ensures IsQuery(call.settings) ==> call.id in before && r.dt == call.tnow - before[call.id].lastTime
    ensures !IsQuery(call.settings) ==> r.dt == 0.0
    ensures !IsQuery(call.settings) && call.settings.init.None? ==>
              call.id in before && r.value == before[call.id].lastValue
    ensures call.settings.init.Some? ==> r.value == call.settings.init.value
  {
    hide RestartsAt, Position;
  }

  /**
   In every run: a query answers the time since the channel's last answer; every other call answers
   zero for the time, and the value it is given or, where it is given none, the last answer's.
   */
  lemma AnswersAreLinked(states: seq<map<string, Channel>>, calls: seq<Call>, outcomes: seq<Outcome>, n: nat, m: nat)
    requires IsRun(states, calls, outcomes) && n < m < |calls|
    requires calls[n].id == calls[m].id && Quiet(calls, n, m, calls[m].id)
    requires outcomes[n].Answer? && outcomes[m].Answer?
    ensures var s := calls[m].settings;
            if s.target.None? && s.init.None? && s.duration.None? && s.easeFn.None? then
              outcomes[m].dt == calls[m].tnow - calls[n].tnow
            else
              && outcomes[m].dt == 0.0
              && outcomes[m].value == if s.init.Some? then s.init.value else outcomes[n].value
  {
    Taken(states, calls, outcomes, n);
    Taken(states, calls, outcomes, m);
    QuietKeeps(states, calls, outcomes, n, m, calls[m].id);
    hide CanCompute, Called, Step;
    AnswerIsLast(states[n], states[n + 1], calls[n], outcomes[n]);
    AnswerFollows(states[m], states[m + 1], calls[m], outcomes[m]);
  }

  // ---------------------------------------------------------------------------
  // First calls
  // ---------------------------------------------------------------------------

  lemma {:induction false} NotYet(states: seq<map<string, Channel>>, calls: seq<Call>, outcomes: seq<Outcome>, n: nat,
                                  id: string)
    requires IsRun(states, calls, outcomes) && n <= |calls| && forall k :: 0 <= k < n ==> calls[k].id != id
    ensures id !in states[n]
    decreases n
  {
    hide CanCompute, Called, Step;
    if n > 0 {
      NotYet(states, calls, outcomes, n - 1, id);
      Taken(states, calls, outcomes, n - 1);
      OthersUntouched(states[n - 1], states[n], calls[n - 1], outcomes[n - 1], id);
    }
  }

  /** A channel must be started before it is queried or updated, and its first start needs a target. */
  lemma FirstCall(states: seq<map<string, Channel>>, calls: seq<Call>, outcomes: seq<Outcome>, n: nat)
    requires IsRun(states, calls, outcomes) && n < |calls| && forall k :: 0 <= k < n ==> calls[k].id != calls[n].id
    ensures calls[n].settings.init.None? ==> outcomes[n] == Nothing
    ensures calls[n].settings.init.Some? ==>
              outcomes[n] == if calls[n].settings.target.None? then Failed
                             else Answer(calls[n].settings.init.value, 0.0)
  {
    NotYet(states, calls, outcomes, n, calls[n].id);
    Taken(states, calls, outcomes, n);
    hide Started, Position, Restarted;
  }

  /** A channel that was first started without a duration or a function answers no query, and fails an update. */
  lemma IncompleteAnswersNothing(states: seq<map<string, Channel>>, calls: seq<Call>, outcomes: seq<Outcome>, n: nat,
                                 m: nat)
    requires IsRun(states, calls, outcomes) && n < m < |calls| && Quiet(calls, n, m, calls[m].id)
    requires calls[n].id == calls[m].id && forall k :: 0 <= k < n ==> calls[k].id != calls[n].id
    requires calls[n].settings.init.Some? && calls[n].settings.target.Some?
    requires calls[n].settings.duration.None? || calls[n].settings.easeFn.None?
    ensures IsQuery(calls[m].settings) ==> outcomes[m] == Nothing
    ensures (calls[m].settings.init.None? && calls[m].settings.target.Some?
             && calls[n].settings.duration.None? && calls[m].settings.duration.None?) ==> outcomes[m] == Failed
  {
    NotYet(states, calls, outcomes, n, calls[n].id);
    Taken(states, calls, outcomes, n);
    Taken(states, calls, outcomes, m);
    QuietKeeps(states, calls, outcomes, n, m, calls[m].id);
    hide Position, Restarted, Direction, RestartsAt;
  }

  // ---------------------------------------------------------------------------
  // A journey, from its first call on
  // ---------------------------------------------------------------------------

  /** A channel that travels from `from` to `to` along `fn` and set out at `start`. */
  ghost predicate Travels(st: Channel, from: real, to: real, d: real, fn: real -> real, invEps: real, start: real) {
    && st.init == from && st.target == to && st.startTime == start && st.invEps == invEps
    && st.duration == Some(d) && st.easeFn == Some(fn)
  }

  lemma QueryTravels(before: map<string, Channel>, after: map<string, Channel>, call: Call, r: Outcome,
                     from: real, to: real, d: real, fn: real -> real, invEps: real, start: real)
    requires CanCompute(before, call.id, call.settings, call.tnow)
    requires Called(before, after, call.id, call.settings, call.tnow, r) && IsQuery(call.settings)
    requires call.id in before && Travels(before[call.id], from, to, d, fn, invEps, start) && d != 0.0
    ensures r.Answer? && r.value == Along(from, to, fn(Portion(call.tnow - start, d)))
    ensures call.id in after && Travels(after[call.id], from, to, d, fn, invEps, start)
  {
  }

  /** A call that starts a journey, with everything it takes. */
  ghost predicate Begins(call: Call, from: real, target: real, d: real, fn: real -> real) {
    && call.settings.init == Some(from) && call.settings.target == Some(target)
    && call.settings.duration == Some(d) && call.settings.easeFn == Some(fn)
  }

  lemma BeginTravels(before: map<string, Channel>, after: map<string, Channel>, call: Call, r: Outcome,
                     from: real, target: real, d: real, fn: real -> real)
    requires CanCompute(before, call.id, call.settings, call.tnow)
    requires Called(before, after, call.id, call.settings, call.tnow, r) && Begins(call, from, target, d, fn)
    ensures var to := if target == 0.0 || target == 1.0 then target else if target >= from then 1.0 else 0.0;
            && r == Answer(from, 0.0) && call.id in after
            && Travels(after[call.id], from, to, d, fn, after[call.id].invEps, call.tnow)
    ensures var given := call.settings.invEps;
            && (given.Some? ==> after[call.id].invEps == given.value)
            && (given.None? && call.id !in before ==> after[call.id].invEps == 0.00001)
  {
  }

  /** In between the channel is only queried. */
  predicate OnlyQueried(calls: seq<Call>, n: nat, m: nat, id: string)
    requires m <= |calls|
  {
    forall k :: n < k < m && calls[k].id == id ==> IsQuery(calls[k].settings)
  }

  lemma {:induction false} StillTravels(states: seq<map<string, Channel>>, calls: seq<Call>, outcomes: seq<Outcome>,
                                        n: nat, m: nat, id: string, from: real, to: real, d: real,
                                        fn: real -> real, invEps: real, start: real)
    requires IsRun(states, calls, outcomes) && n < m <= |calls| && OnlyQueried(calls, n, m, id) && d != 0.0
    requires id in states[n + 1] && Travels(states[n + 1][id], from, to, d, fn, invEps, start)
    ensures id in states[m] && Travels(states[m][id], from, to, d, fn, invEps, start)
    decreases m
  {
    hide CanCompute, Called, Travels, Step;
    if m > n + 1 {
      StillTravels(states, calls, outcomes, n, m - 1, id, from, to, d, fn, invEps, start);
      Taken(states, calls, outcomes, m - 1);
      if calls[m - 1].id == id {
        QueryTravels(states[m - 1], states[m], calls[m - 1], outcomes[m - 1], from, to, d, fn, invEps, start);
      } else {
        OthersUntouched(states[m - 1], states[m], calls[m - 1], outcomes[m - 1], id);
      }
    }
  }

  /** What the value of a journey is, by the time that has passed. */
  ghost predicate Placed(value: real, from: real, to: real, d: real, fn: real -> real, elapsed: real)
    requires d > 0.0
  {
    && (elapsed <= 0.0 ==> value == from)
    && (0.0 <= elapsed <= d ==> value == from + (to - from) * fn(elapsed / d))
    && (elapsed >= d ==> value == to)
    && (from <= value <= to || to <= value <= from)
  }

  lemma PortionAt(elapsed: real, d: real)
    requires d > 0.0
    ensures elapsed <= 0.0 ==> Portion(elapsed, d) == 0.0
    ensures 0.0 <= elapsed <= d ==> Portion(elapsed, d) == elapsed / d
    ensures elapsed >= d ==> Portion(elapsed, d) == 1.0
    ensures Unit(Portion(elapsed, d))
  {
    QuotientSign(elapsed, d);
    if 0.0 <= elapsed <= d {
      Quotient01(elapsed, d);
    } else if elapsed >= d {
      QuotientAbove(elapsed, d);
    }
  }

  lemma IsPlaced(from: real, to: real, d: real, fn: real -> real, slope: real, elapsed: real)
    requires d > 0.0 && IsShape(fn, slope)
    ensures Placed(Along(from, to, fn(Portion(elapsed, d))), from, to, d, fn, elapsed)
  {
    var y := fn(Portion(elapsed, d));
    assert fn(0.0) == 0.0 && fn(1.0) == 1.0;
    PortionAt(elapsed, d);
    ShapeRange(fn, slope, Portion(elapsed, d));
    hide IsShape, Portion;
    AlongStaysBetween(from, to, y);
  }

  lemma StartTravels(states: seq<map<string, Channel>>, calls: seq<Call>, outcomes: seq<Outcome>, n: nat, m: nat,
                     from: real, target: real, d: real, fn: real -> real)
    returns (invEps: real)
    requires IsRun(states, calls, outcomes) && n < m <= |calls| && OnlyQueried(calls, n, m, calls[n].id)
    requires Begins(calls[n], from, target, d, fn) && d != 0.0
    ensures outcomes[n] == Answer(from, 0.0) && calls[n].id in states[m]
    ensures var to := if target == 0.0 || target == 1.0 then target else if target >= from then 1.0 else 0.0;
            Travels(states[m][calls[n].id], from, to, d, fn, invEps, calls[n].tnow)
    ensures calls[n].settings.invEps.Some? ==> invEps == calls[n].settings.invEps.value
    ensures calls[n].settings.invEps.None? && calls[n].id !in states[n] ==> invEps == 0.00001
  {
    var id := calls[n].id;
    var to := if target == 0.0 || target == 1.0 then target else if target >= from then 1.0 else 0.0;
    Taken(states, calls, outcomes, n);
    hide CanCompute, Called, Travels, Step;
    BeginTravels(states[n], states[n + 1], calls[n], outcomes[n], from, target, d, fn);
    invEps := states[n + 1][id].invEps;
    StillTravels(states, calls, outcomes, n, m, id, from, to, d, fn, invEps, calls[n].tnow);
  }

  /**
   In every run, a call that starts a journey answers where it starts from; a later query, if the channel is
   only queried in between, answers that until the time of the call, the place that the function says from
   then on, and the end from the duration on.  The end is 0 or 1: the wanted one, or the one in the
   direction of the wanted value.
   */
  lemma StartThenQuery(states: seq<map<string, Channel>>, calls: seq<Call>, outcomes: seq<Outcome>, n: nat, m: nat,
                       from: real, target: real, d: real, fn: real -> real, slope: real)
    requires IsRun(states, calls, outcomes) && n < m < |calls|
    requires calls[m].id == calls[n].id && IsQuery(calls[m].settings) && OnlyQueried(calls, n, m, calls[n].id)
    requires Begins(calls[n], from, target, d, fn) && d > 0.0 && IsShape(fn, slope)
    ensures outcomes[n] == Answer(from, 0.0) && outcomes[m].Answer?
    ensures var to := if target == 0.0 || target == 1.0 then target else if target >= from then 1.0 else 0.0;
            Placed(outcomes[m].value, from, to, d, fn, calls[m].tnow - calls[n].tnow)
  {
    var to := if target == 0.0 || target == 1.0 then target else if target >= from then 1.0 else 0.0;
    Taken(states, calls, outcomes, m);
    hide CanCompute, Called, Travels, IsShape, Step, Placed, Along, Portion;
    var invEps := StartTravels(states, calls, outcomes, n, m, from, target, d, fn);
    QueryTravels(states[m], states[m + 1], calls[m], outcomes[m], from, to, d, fn, invEps, calls[n].tnow);
    IsPlaced(from, to, d, fn, slope, calls[m].tnow - calls[n].tnow);
  }

  // ---------------------------------------------------------------------------
  // A new start that leaves something out
  // ---------------------------------------------------------------------------

  lemma RestartTravels(before: map<string, Channel>, after: map<string, Channel>, call: Call, r: Outcome, from: real,
                       to: real, d: real, fn: real -> real, invEps: real, start: real, init: real)
    requires CanCompute(before, call.id, call.settings, call.tnow)
    requires Called(before, after, call.id, call.settings, call.tnow, r) && call.settings.init == Some(init)
    requires call.id in before && Travels(before[call.id], from, to, d, fn, invEps, start) && (to == 0.0 || to == 1.0)
    ensures r == Answer(init, 0.0) && call.id in after
    ensures var s, st := call.settings, after[call.id];
            && st.startTime == call.tnow && st.init == init
            && st.target == (if s.target.None? then to
                             else if s.target == Some(0.0) || s.target == Some(1.0) then s.target.value
                             else if s.target.value >= init then 1.0 else 0.0)
            && st.duration == (if s.duration.None? then Some(d) else s.duration)
            && st.easeFn == (if s.easeFn.None? then Some(fn) else s.easeFn)
            && st.invEps == (if s.invEps.None? then invEps else s.invEps.value)
  {
  }

  /**
   In every run: a second start of the same channel, from `init`, goes where the first one went, as long
   and along the same function, as far as it does not say otherwise itself.
   */
  lemma RestartThenQuery(states: seq<map<string, Channel>>, calls: seq<Call>, outcomes: seq<Outcome>, n: nat, q: nat,
                         m: nat, from: real, target: real, d: real, fn: real -> real, init: real, slope: real)
    requires IsRun(states, calls, outcomes) && n < q < m < |calls|
    requires calls[m].id == calls[q].id == calls[n].id && IsQuery(calls[m].settings)
    requires OnlyQueried(calls, n, q, calls[n].id) && OnlyQueried(calls, q, m, calls[n].id)
    requires Begins(calls[n], from, target, d, fn) && d != 0.0 && calls[q].settings.init == Some(init)
    requires calls[q].settings.duration.Some? ==> calls[q].settings.duration.value > 0.0
    requires calls[q].settings.duration.None? ==> d > 0.0
    requires IsShape(if calls[q].settings.easeFn.Some? then calls[q].settings.easeFn.value else fn, slope)
    ensures outcomes[q] == Answer(init, 0.0) && outcomes[m].Answer?
    ensures var s := calls[q].settings;
            var first := if target == 0.0 || target == 1.0 then target else if target >= from then 1.0 else 0.0;
            var to := if s.target.None? then first
                      else if s.target == Some(0.0) || s.target == Some(1.0) then s.target.value
                      else if s.target.value >= init then 1.0 else 0.0;
            var d2 := if s.duration.Some? then s.duration.value else d;
            var fn2 := if s.easeFn.Some? then s.easeFn.value else fn;
            Placed(outcomes[m].value, init, to, d2, fn2, calls[m].tnow - calls[q].tnow)
  {
    var id, s := calls[n].id, calls[q].settings;
    var first := if target == 0.0 || target == 1.0 then target else if target >= from then 1.0 else 0.0;
    var to := if s.target.None? then first
              else if s.target == Some(0.0) || s.target == Some(1.0) then s.target.value
              else if s.target.value >= init then 1.0 else 0.0;
    var d2 := if s.duration.Some? then s.duration.value else d;
    var fn2 := if s.easeFn.Some? then s.easeFn.value else fn;
    var invEps := StartTravels(states, calls, outcomes, n, q, from, target, d, fn);
    Taken(states, calls, outcomes, q);
    Taken(states, calls, outcomes, m);
    RestartTravels(states[q], states[q + 1], calls[q], outcomes[q], from, first, d, fn, invEps, calls[n].tnow, init);
    var invEps2 := states[q + 1][id].invEps;
    assert Travels(states[q + 1][id], init, to, d2, fn2, invEps2, calls[q].tnow);
    hide CanCompute, Called, Travels, IsShape, Step, Placed, Along, Portion;
    StillTravels(states, calls, outcomes, q, m, id, init, to, d2, fn2, invEps2, calls[q].tnow);
    QueryTravels(states[m], states[m + 1], calls[m], outcomes[m], init, to, d2, fn2, invEps2, calls[q].tnow);
    IsPlaced(init, to, d2, fn2, slope, calls[m].tnow - calls[q].tnow);
  }

  // ---------------------------------------------------------------------------
  // A redirection
  // ---------------------------------------------------------------------------

  lemma NormOnTheWay(from: real, to: real, y: real)
    ensures ComputeNormalized(from, to, Along(from, to, y)) == if from == to then 1.0 else y
  {
    var part := Along(from, to, y) - from;
    assert part == y * (to - from);
    if from != to {
      Cancel(y, to - from, part);
    }
  }

  lemma RedirectTravels(before: map<string, Channel>, after: map<string, Channel>, call: Call, r: Outcome, from: real,
                        to: real, d: real, fn: real -> real, invEps: real, start: real, y: real, target: real)
    returns (t0: real)
    requires CanCompute(before, call.id, call.settings, call.tnow)
    requires Called(before, after, call.id, call.settings, call.tnow, r)
    requires call.settings.target == Some(target) && call.settings.init.None?
    requires call.id in before && Travels(before[call.id], from, to, d, fn, invEps, start)
    requires before[call.id].lastValue == Along(from, to, y)
    ensures var value, s := Along(from, to, y), call.settings;
            var way := if from == to then 1.0 else y;
            var to2 := if target == 0.0 || target == 1.0 then target
                       else if target > value then 1.0 else if target < value then 0.0 else to;
            var d2 := if s.duration.Some? then s.duration.value else d;
            var fn2 := if s.easeFn.Some? then s.easeFn.value else fn;
            var invEps2 := if s.invEps.Some? then s.invEps.value else invEps;
            && r == Answer(value, 0.0) && call.id in after
            && IsInverse(fn2, if to2 == to then way else 1.0 - way, invEps2, t0)
            && SetsOut(after[call.id], value, to2, d2, fn2, invEps2, call.tnow, t0)
  {
    var st := before[call.id];
    NormOnTheWay(from, to, y);
    t0 := UpdateRestarts(before, after, call, r, target);
    hide *;
    RestartSetsOut(st, call.settings, t0, call.tnow, from, to, d, fn, invEps, start, target);
  }

  lemma UpdateRestarts(before: map<string, Channel>, after: map<string, Channel>, call: Call, r: Outcome, target: real)
    returns (t0: real)
    requires CanCompute(before, call.id, call.settings, call.tnow)
    requires Called(before, after, call.id, call.settings, call.tnow, r)
    requires call.settings.target == Some(target) && call.settings.init.None?
    requires call.id in before && before[call.id].duration.Some? && before[call.id].easeFn.Some?
    ensures var st, s := before[call.id], call.settings;
            && r == Answer(st.lastValue, 0.0) && call.id in after
            && RestartsAt(st, s, t0) && after[call.id] == Restarted(st, s, t0, call.tnow)
  {
    var st, s := before[call.id], call.settings;
    hide RestartsAt, Restarted;
    t0 :| RestartsAt(st, s, t0) && after == before[call.id := Restarted(st, s, t0, call.tnow)];
  }

  lemma RestartSetsOut(st: Channel, s: Settings, t0: real, now: real, from: real, to: real, d: real,
                       fn: real -> real, invEps: real, start: real, target: real)
    requires Travels(st, from, to, d, fn, invEps, start) && s.target == Some(target) && s.init.None?
    requires RestartsAt(st, s, t0)
    ensures var to2 := if target == 0.0 || target == 1.0 then target
                       else if target > st.lastValue then 1.0 else if target < st.lastValue then 0.0 else to;
            var way := ComputeNormalized(from, to, st.lastValue);
            var d2 := if s.duration.Some? then s.duration.value else d;
            var fn2 := if s.easeFn.Some? then s.easeFn.value else fn;
            var invEps2 := if s.invEps.Some? then s.invEps.value else invEps;
            && SetsOut(Restarted(st, s, t0, now), st.lastValue, to2, d2, fn2, invEps2, now, t0)
            && IsInverse(fn2, if to2 == to then way else 1.0 - way, invEps2, t0)
  {
    hide IsInverse, ComputeNormalized;
  }

  /** It travels as if it had set out so much earlier that by `now` the part `t0` of the journey were over. */
  ghost predicate SetsOut(st: Channel, from: real, to: real, d: real, fn: real -> real, invEps: real, now: real,
                          t0: real) {
    Travels(st, from, to, d, fn, invEps, now - t0 * d)
  }

  function Resumed(t0: real, elapsed: real, d: real): real
    requires d != 0.0
  {
    Clamp(t0 + elapsed / d)
  }

  /** The value on the way from `from` to `to` when the part `t` of the journey is over. */
  ghost predicate Passes(value: real, from: real, to: real, fn: real -> real, t: real) {
    value == from + (to - from) * fn(t)
  }

  lemma Resumes(t0: real, d: real, now: real, later: real)
    requires d != 0.0
    ensures Portion(later - (now - t0 * d), d) == Resumed(t0, later - now, d)
  {
    var elapsed := later - now;
    var x := elapsed / d;
    assert x * d == elapsed;
    Cancel(t0 + x, d, elapsed + t0 * d);
  }

  lemma ResumedQuery(states: seq<map<string, Channel>>, calls: seq<Call>, outcomes: seq<Outcome>, q: nat, m: nat,
                     id: string, from: real, to: real, d: real, fn: real -> real, invEps: real, t0: real)
    requires IsRun(states, calls, outcomes) && q < m < |calls| && calls[m].id == id && IsQuery(calls[m].settings)
    requires OnlyQueried(calls, q, m, id) && d != 0.0
    requires id in states[q + 1] && SetsOut(states[q + 1][id], from, to, d, fn, invEps, calls[q].tnow, t0)
    ensures outcomes[m].Answer?
    ensures Passes(outcomes[m].value, from, to, fn, Resumed(t0, calls[m].tnow - calls[q].tnow, d))
  {
    var start := calls[q].tnow - t0 * d;
    Taken(states, calls, outcomes, m);
    Resumes(t0, d, calls[q].tnow, calls[m].tnow);
    hide CanCompute, Called, Travels, Step, Along, Portion, Resumed;
    StillTravels(states, calls, outcomes, q, m, id, from, to, d, fn, invEps, start);
    QueryTravels(states[m], states[m + 1], calls[m], outcomes[m], from, to, d, fn, invEps, start);
  }

  /**
   In every run, a channel that is sent towards `target2` on its way: it answers the value it answered last,
   and later queries find it on the way from there to the new end, ahead by the phase that inverts the
   part of the way that it had behind it, or before it if it turns round.  Duration, function and threshold
   are those of the start where it is given no others; a threshold that nobody gave is 0.00001.
   */
  lemma RedirectThenQuery(states: seq<map<string, Channel>>, calls: seq<Call>, outcomes: seq<Outcome>, n: nat, p: nat,
                          q: nat, m: nat, from: real, target: real, d: real, fn: real -> real, target2: real)
    returns (t0: real)
    requires IsRun(states, calls, outcomes) && n <= p < q < m < |calls|
    requires calls[m].id == calls[q].id == calls[p].id == calls[n].id && IsQuery(calls[m].settings)
    requires OnlyQueried(calls, n, q, calls[n].id) && Quiet(calls, p, q, calls[n].id)
    requires OnlyQueried(calls, q, m, calls[n].id)
    requires Begins(calls[n], from, target, d, fn) && d > 0.0 && fn(0.0) == 0.0
    requires calls[q].settings.target == Some(target2) && calls[q].settings.init.None?
    requires calls[q].settings.duration.Some? ==> calls[q].settings.duration.value > 0.0
    requires calls[n].settings.invEps.None? ==> forall k :: 0 <= k < n ==> calls[k].id != calls[n].id
    ensures var to := if target == 0.0 || target == 1.0 then target else if target >= from then 1.0 else 0.0;
            var y := fn(Portion(calls[p].tnow - calls[n].tnow, d));
            var value := Along(from, to, y);
            var way := if from == to then 1.0 else y;
            var to2 := if target2 == 0.0 || target2 == 1.0 then target2
                       else if target2 > value then 1.0 else if target2 < value then 0.0 else to;
            var s := calls[q].settings;
            var d2 := if s.duration.Some? then s.duration.value else d;
            var fn2 := if s.easeFn.Some? then s.easeFn.value else fn;
            var invEps := if s.invEps.Some? then s.invEps.value
                          else if calls[n].settings.invEps.Some? then calls[n].settings.invEps.value else 0.00001;
            && outcomes[q] == Answer(value, 0.0) && outcomes[m].Answer?
            && IsInverse(fn2, if to2 == to then way else 1.0 - way, invEps, t0)
            && Passes(outcomes[m].value, value, to2, fn2, Resumed(t0, calls[m].tnow - calls[q].tnow, d2))
  {
    var id := calls[n].id;
    var to := if target == 0.0 || target == 1.0 then target else if target >= from then 1.0 else 0.0;
    var y := fn(Portion(calls[p].tnow - calls[n].tnow, d));
    hide CanCompute, Called, Travels, IsInverse, Step, Portion, Resumed, Along, SetsOut, Passes;
    var value := Along(from, to, y);
    var to2 := if target2 == 0.0 || target2 == 1.0 then target2
               else if target2 > value then 1.0 else if target2 < value then 0.0 else to;
    var invEps := OnTheWay(states, calls, outcomes, n, p, q, from, target, d, fn);
    Taken(states, calls, outcomes, q);
    t0 := RedirectTravels(states[q], states[q + 1], calls[q], outcomes[q], from, to, d, fn, invEps, calls[n].tnow, y,
                          target2);
    var s := calls[q].settings;
    var d2 := if s.duration.Some? then s.duration.value else d;
    var fn2 := if s.easeFn.Some? then s.easeFn.value else fn;
    var invEps2 := if s.invEps.Some? then s.invEps.value else invEps;
    ResumedQuery(states, calls, outcomes, q, m, id, value, to2, d2, fn2, invEps2, t0);
  }

  lemma OnTheWay(states: seq<map<string, Channel>>, calls: seq<Call>, outcomes: seq<Outcome>, n: nat, p: nat,
                 q: nat, from: real, target: real, d: real, fn: real -> real)
    returns (invEps: real)
    requires IsRun(states, calls, outcomes) && n <= p < q < |calls| && calls[p].id == calls[n].id
    requires OnlyQueried(calls, n, q, calls[n].id) && Quiet(calls, p, q, calls[n].id)
    requires Begins(calls[n], from, target, d, fn) && d > 0.0 && fn(0.0) == 0.0
    requires calls[n].settings.invEps.None? ==> forall k :: 0 <= k < n ==> calls[k].id != calls[n].id
    ensures var to := if target == 0.0 || target == 1.0 then target else if target >= from then 1.0 else 0.0;
            && calls[n].id in states[q]
            && Travels(states[q][calls[n].id], from, to, d, fn, invEps, calls[n].tnow)
            && states[q][calls[n].id].lastValue
               == Along(from, to, fn(Portion(calls[p].tnow - calls[n].tnow, d)))
    ensures invEps == if calls[n].settings.invEps.Some? then calls[n].settings.invEps.value else 0.00001
  {
    hide CanCompute, Called, Travels, Step, Along, Portion;
    invEps := StartTravels(states, calls, outcomes, n, q, from, target, d, fn);
    ValueOnTheWay(states, calls, outcomes, n, p, q, from, target, d, fn);
    if calls[n].settings.invEps.None? {
      NotYet(states, calls, outcomes, n, calls[n].id);
    }
  }

  lemma ValueOnTheWay(states: seq<map<string, Channel>>, calls: seq<Call>, outcomes: seq<Outcome>, n: nat, p: nat,
                      q: nat, from: real, target: real, d: real, fn: real -> real)
    requires IsRun(states, calls, outcomes) && n <= p < q < |calls| && calls[p].id == calls[n].id
    requires OnlyQueried(calls, n, q, calls[n].id) && Quiet(calls, p, q, calls[n].id)
    requires Begins(calls[n], from, target, d, fn) && d > 0.0 && fn(0.0) == 0.0
    ensures var to := if target == 0.0 || target == 1.0 then target else if target >= from then 1.0 else 0.0;
            && calls[n].id in states[q]
            && states[q][calls[n].id].lastValue
               == Along(from, to, fn(Portion(calls[p].tnow - calls[n].tnow, d)))
  {
    var id := calls[n].id;
    var to := if target == 0.0 || target == 1.0 then target else if target >= from then 1.0 else 0.0;
    Taken(states, calls, outcomes, p);
    assert Along(from, to, 0.0) == from;
    hide CanCompute, Called, Travels, Step, Along, Portion;
    if p > n {
      var invEps := StartTravels(states, calls, outcomes, n, p, from, target, d, fn);
      QueryTravels(states[p], states[p + 1], calls[p], outcomes[p], from, to, d, fn, invEps, calls[n].tnow);
    } else {
      var invEps := StartTravels(states, calls, outcomes, n, q, from, target, d, fn);
      PortionAt(0.0, d);
    }
    AnswerIsLast(states[p], states[p + 1], calls[p], outcomes[p]);
    QuietKeeps(states, calls, outcomes, p, q, id);
  }
}
