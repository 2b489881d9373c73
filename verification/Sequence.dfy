/** The multi-button sequence matcher. */
module Sequence {
  import opened Subsequences
  import opened SequenceLog

  /** How far `p` has come after one more input. */
  function Advanced(p: Pattern, k: nat, b: Button): nat {
    if k < |p| && p[k] == b then k + 1 else k
  }

  /** The input takes some pattern to its end. */
  ghost predicate Completes(patterns: seq<Pattern>, progress: seq<nat>, b: Button)
    requires |progress| == |patterns|
  {
    exists i :: 0 <= i < |patterns| && progress[i] < |patterns[i]| == Advanced(patterns[i], progress[i], b)
  }

  ghost predicate AllZero(progress: seq<nat>) {
    forall i :: 0 <= i < |progress| ==> progress[i] == 0
  }

  ghost predicate NoneEmpty(patterns: seq<Pattern>) {
    forall i :: 0 <= i < |patterns| ==> patterns[i] != []
  }

  /** Progress is what greedy matching of the inputs heard gives, and no pattern is complete. */
  ghost predicate Tracks(patterns: seq<Pattern>, progress: seq<nat>, heard: seq<seq<Button>>) {
    && |progress| == |patterns| == |heard|
    && forall i :: 0 <= i < |patterns| ==> progress[i] == Greedy(patterns[i], heard[i]) < |patterns[i]|
  }

  lemma ZeroTracks(patterns: seq<Pattern>, progress: seq<nat>)
    requires |progress| == |patterns| && AllZero(progress) && NoneEmpty(patterns)
    ensures Tracks(patterns, progress, Silence(|patterns|))
  {
  }

  lemma StepTracks(patterns: seq<Pattern>, progress: seq<nat>, progress': seq<nat>, heard: seq<seq<Button>>, b: Button)
    requires Tracks(patterns, progress, heard)
    requires |progress'| == |patterns|
    requires forall i :: 0 <= i < |patterns| ==> progress'[i] == Advanced(patterns[i], progress[i], b)
    ensures Completes(patterns, progress, b) <==> Finishes(patterns, HearAll(heard, b, false))
    ensures !Completes(patterns, progress, b) ==> Tracks(patterns, progress', HearAll(heard, b, false))
  {
    var more := HearAll(heard, b, false);
    forall i | 0 <= i < |patterns|
      ensures progress'[i] == Greedy(patterns[i], more[i])
    {
      HeardAt(heard, b, false, i);
      GreedyMore(patterns[i], heard[i], b);
    }
    if Finishes(patterns, more) {
      var i :| 0 <= i < |patterns| && Greedy(patterns[i], more[i]) == |patterns[i]|;
      assert progress[i] < |patterns[i]| == Advanced(patterns[i], progress[i], b);
    }
    if Completes(patterns, progress, b) {
      var i :| 0 <= i < |patterns| && progress[i] < |patterns[i]| == Advanced(patterns[i], progress[i], b);
      assert Greedy(patterns[i], more[i]) == |patterns[i]|;
    }
  }

  ghost function AdvancedAll(patterns: seq<Pattern>, progress: seq<nat>, b: Button): seq<nat>
    requires |progress| == |patterns|
  {
    seq(|patterns|, i requires 0 <= i < |patterns| => Advanced(patterns[i], progress[i], b))
  }

  lemma CompletesIffFinishes(patterns: seq<Pattern>, progress: seq<nat>, heard: seq<seq<Button>>, b: Button)
    requires Tracks(patterns, progress, heard)
    ensures Completes(patterns, progress, b) <==> Finishes(patterns, HearAll(heard, b, false))
  {
    StepTracks(patterns, progress, AdvancedAll(patterns, progress, b), heard, b);
  }

  /** Hearing an input twice is hearing it once and once more. */
  lemma HearAgain(heard: seq<seq<Button>>, b: Button)
    ensures HearAll(HearAll(heard, b, false), b, false) == HearAll(heard, b, true)
  {
    forall i | 0 <= i < |heard|
      ensures HearAll(HearAll(heard, b, false), b, false)[i] == HearAll(heard, b, true)[i]
    {
      HeardAt(heard, b, false, i);
      HeardAt(HearAll(heard, b, false), b, false, i);
      HeardAt(heard, b, true, i);
      assert heard[i] + [b] + [b] == heard[i] + [b, b];
    }
  }

  /** Completing with the first of two equal inputs is completing with either. */
  lemma FinishesEither(patterns: seq<Pattern>, heard: seq<seq<Button>>, b: Button)
    requires |heard| == |patterns|
    ensures Finishes(patterns, HearAll(heard, b, false)) ==> Finishes(patterns, HearAll(heard, b, true))
  {
    HearAgain(heard, b);
    var once := HearAll(heard, b, false);
    if Finishes(patterns, once) {
      var i :| 0 <= i < |patterns| && Greedy(patterns[i], once[i]) == |patterns[i]|;
      GreedyMore(patterns[i], once[i], b);
      HeardAt(once, b, false, i);
    }
  }

  lemma SingleCompletes(patterns: seq<Pattern>, progress: seq<nat>, b: Button)
    requires |progress| == |patterns| && AllZero(progress) && NoneEmpty(patterns)
    ensures Completes(patterns, progress, b) <==> [b] in patterns
  {
    if [b] in patterns {
      var i :| 0 <= i < |patterns| && patterns[i] == [b];
      assert progress[i] < |patterns[i]| == Advanced(patterns[i], progress[i], b);
    }
    if Completes(patterns, progress, b) {
      var i :| 0 <= i < |patterns| && progress[i] < |patterns[i]| == Advanced(patterns[i], progress[i], b);
      assert progress[i] == 0 && patterns[i] == [b];
    }
  }

  // ---------------------------------------------------------------------------
  // What holds between calls
  // ---------------------------------------------------------------------------

  ghost predicate SessionsAgree(stream: bool, log: Log, active: bool, calls: seq<Callback>, callbacks: bool) {
    && Orderly(stream, log)
    && active == Open(stream, log)
    && calls == Calls(log)
    && (active ==> callbacks)
  }

  ghost predicate ProgressAgrees(patterns: seq<Pattern>, progress: seq<nat>, heard: seq<seq<Button>>, exact: bool,
                                 active: bool)
  {
    && |progress| == |patterns| == |heard|
    && NoneEmpty(patterns)
    && (exact ==> Tracks(patterns, progress, heard) && (!active ==> AllZero(progress)))
  }

  /** The callbacks that are due when the input has begun a session or found one active. */
  ghost predicate SessionsMid(stream: bool, log: Log, calls: seq<Callback>, began: bool) {
    && Orderly(stream, log)
    && began == !Open(stream, log)
    && calls == Calls(log) + (if began then [Start] else [])
  }

  lemma SessionsMore(stream: bool, log: Log, calls: seq<Callback>, b: Button, began: bool, matched: bool,
                     callbacks: bool)
    requires SessionsMid(stream, log, calls, began)
    requires stream || !matched ==> callbacks
    ensures SessionsAgree(stream, log + [Detected(b, began, matched)], stream || !matched,
                          calls + (if matched then [Match] else []), callbacks)
  {
    LogMore(log, Detected(b, began, matched));
  }

  lemma SessionsMiss(stream: bool, log: Log, calls: seq<Callback>, callbacks: bool, b: Button)
    requires SessionsAgree(stream, log, false, calls, callbacks)
    ensures SessionsAgree(stream, log + [Detected(b, false, false)], false, calls, callbacks)
  {
    LogMore(log, Detected(b, false, false));
  }

  /** An idle matcher gets an input that starts nothing. */
  lemma ProgressMiss(patterns: seq<Pattern>, progress: seq<nat>, progress': seq<nat>, heard: seq<seq<Button>>,
                     exact: bool, b: Button)
    requires ProgressAgrees(patterns, progress, heard, exact, false)
    requires !StartsAny(patterns, b)
    requires |progress'| == |patterns|
    requires forall i :: 0 <= i < |patterns| ==> progress'[i] == if patterns[i][0] == b then 1 else 0
    ensures ProgressAgrees(patterns, progress', HearAll(heard, b, false), exact, false)
    ensures exact ==> !Finishes(patterns, HearAll(heard, b, false))
  {
    if exact {
      StepTracks(patterns, progress, progress', heard, b);
      forall i | 0 <= i < |patterns| ensures patterns[i][0] != b {
      }
    }
  }

  lemma ProgressMatch(patterns: seq<Pattern>, progress': seq<nat>, n: nat, exact: bool, active: bool)
    requires NoneEmpty(patterns)
    requires |progress'| == |patterns| == n && AllZero(progress')
    ensures ProgressAgrees(patterns, progress', Silence(n), exact, active)
  {
    ZeroTracks(patterns, progress');
  }

  /** Progress when the input has begun a session or found one active, and is about to advance the patterns. */
  ghost predicate ProgressMid(patterns: seq<Pattern>, progress: seq<nat>, heard: seq<seq<Button>>, exact: bool,
                              b: Button, began: bool)
  {
    && |progress| == |patterns| == |heard|
    && NoneEmpty(patterns)
    && (exact ==> Tracks(patterns, progress, if began then HearAll(heard, b, false) else heard))
  }

  lemma ProgressFound(patterns: seq<Pattern>, progress: seq<nat>, heard: seq<seq<Button>>, exact: bool, b: Button)
    requires ProgressAgrees(patterns, progress, heard, exact, true)
    ensures ProgressMid(patterns, progress, heard, exact, b, false)
  {
  }

  lemma ProgressOpened(patterns: seq<Pattern>, progress: seq<nat>, started: seq<nat>, heard: seq<seq<Button>>,
                       exact: bool, b: Button)
    requires ProgressAgrees(patterns, progress, heard, exact, false)
    requires |started| == |patterns|
    requires [b] !in patterns ==> forall i :: 0 <= i < |patterns| ==> started[i] == if patterns[i][0] == b then 1 else 0
    ensures ProgressMid(patterns, started, heard, exact && [b] !in patterns, b, true)
  {
    if exact && [b] !in patterns {
      SingleCompletes(patterns, progress, b);
      StepTracks(patterns, progress, started, heard, b);
    }
  }

  /** A pattern of one button is completed at once. */
  lemma ProgressSingle(patterns: seq<Pattern>, progress: seq<nat>, heard: seq<seq<Button>>, exact: bool, b: Button)
    requires ProgressAgrees(patterns, progress, heard, exact, false)
    requires [b] in patterns
    ensures exact ==> Finishes(patterns, HearAll(heard, b, true))
  {
    if exact {
      SingleCompletes(patterns, progress, b);
      CompletesIffFinishes(patterns, progress, heard, b);
      FinishesEither(patterns, heard, b);
    }
  }

  lemma ProgressAdvanced(patterns: seq<Pattern>, progress: seq<nat>, progress': seq<nat>, heard: seq<seq<Button>>,
                         exact: bool, b: Button, began: bool, completed: bool)
    requires ProgressMid(patterns, progress, heard, exact, b, began)
    requires |progress'| == |patterns|
    requires completed <==> Completes(patterns, progress, b)
    requires !completed ==> forall i :: 0 <= i < |patterns| ==> progress'[i] == Advanced(patterns[i], progress[i], b)
    ensures ProgressAgrees(patterns, progress', HearAll(heard, b, began), exact && !completed, true)
    ensures exact ==> (completed <==> Finishes(patterns, HearAll(heard, b, began)))
  {
    if exact {
      var mid := if began then HearAll(heard, b, false) else heard;
      HearAgain(heard, b);
      CompletesIffFinishes(patterns, progress, mid, b);
      if !completed {
        StepTracks(patterns, progress, progress', mid, b);
      }
    }
  }

  /** An entry that leaves the sessions alone. */
  lemma SessionsIgnore(stream: bool, log: Log, active: bool, calls: seq<Callback>, callbacks: bool, e: Entry)
    requires e.Ignored? || e.Added? || e.Cleared?
    ensures SessionsAgree(stream, log, active, calls, callbacks) ==>
              SessionsAgree(stream, log + [e], active, calls, callbacks)
    ensures TicksSince(log + [e]) == TicksSince(log)
  {
    LogMore(log, e);
    assert Calls(log) + [] == Calls(log);
  }

  lemma ProgressAdd(patterns: seq<Pattern>, progress: seq<nat>, heard: seq<seq<Button>>, exact: bool, active: bool,
                    p: Pattern)
    requires ProgressAgrees(patterns, progress, heard, exact, active) && p != []
    ensures ProgressAgrees(patterns + [p], progress + [0], heard + [[]], exact, active)
  {
  }

  lemma Sizes(patterns: seq<Pattern>, progress: seq<nat>, heard: seq<seq<Button>>, exact: bool, active: bool)
    requires ProgressAgrees(patterns, progress, heard, exact, active)
    ensures |progress| == |patterns| == |heard| && NoneEmpty(patterns)
  {
  }

  lemma MidSizes(patterns: seq<Pattern>, progress: seq<nat>, heard: seq<seq<Button>>, exact: bool, b: Button,
                 began: bool)
    requires ProgressMid(patterns, progress, heard, exact, b, began)
    ensures |progress| == |patterns| == |heard| && NoneEmpty(patterns)
  {
  }

  lemma SessionsBegin(stream: bool, log: Log, calls: seq<Callback>, callbacks: bool)
    requires SessionsAgree(stream, log, false, calls, callbacks)
    ensures SessionsMid(stream, log, calls + [Start], true)
  {
  }

  lemma SessionsFound(stream: bool, log: Log, calls: seq<Callback>, callbacks: bool)
    requires SessionsAgree(stream, log, true, calls, callbacks)
    ensures SessionsMid(stream, log, calls, false) && callbacks
  {
    assert calls + [] == calls;
  }

  lemma DetectedTicks(log: Log, b: Button, began: bool, matched: bool)
    ensures TicksSince(log + [Detected(b, began, matched)]) == 0
  {
  }

  lemma SessionsTick(stream: bool, log: Log, active: bool, calls: seq<Callback>, callbacks: bool)
    ensures SessionsAgree(stream, log, active, calls, callbacks) ==>
              && (active ==> callbacks)
              && SessionsAgree(stream, log + [Ticked(false)], active, calls, callbacks)
              && (active ==> SessionsAgree(stream, log + [Ticked(true)], false, calls + [Timeout], false))
    ensures TicksSince(log + [Ticked(false)]) == TicksSince(log) + 1
  {
    LogMore(log, Ticked(false));
    LogMore(log, Ticked(true));
  }

  lemma ProgressEnds(patterns: seq<Pattern>, progress': seq<nat>, heard: seq<seq<Button>>, exact: bool, timedOut: bool)
    requires |progress'| == |patterns| == |heard| && AllZero(progress') && NoneEmpty(patterns)
    requires exact ==> timedOut
    ensures ProgressAgrees(patterns, progress', if timedOut then Silence(|heard|) else heard, exact, false)
  {
    ZeroTracks(patterns, progress');
  }

  class Matcher {
    const stream: bool
    const threshold: int

    var tickCount: int
    var active: bool
    var patterns: seq<Pattern>
    var progress: seq<nat>
    var matchFn: bool                // whether the session has the callback
    var timeoutFn: bool
    var startFn: bool

    var calls: seq<Callback>         // the callbacks fired so far
    ghost var initial: seq<Pattern>  // the patterns that were added before anything else
    ghost var log: Log               // everything since
    ghost var heard: seq<seq<Button>>
    ghost var exact: bool            // no pattern was completed, and no session timed out, without the callback for it
    ghost var supplied: bool         // every session had all three callbacks

    ghost predicate Recorded()
      reads this`patterns, this`initial, this`log, this`heard
    {
      patterns == Patterns(initial, log) && heard == Heard(initial, log)
    }

    ghost predicate Valid()
      reads this
    {
      && (supplied ==> SessionsAgree(stream, log, active, calls, matchFn && timeoutFn && startFn))
      && (active ==> tickCount == TicksSince(log))
      && Recorded()
      && ProgressAgrees(patterns, progress, heard, exact, active)
    }

    constructor (stream: bool, threshold: int)
      ensures Valid() && this.stream == stream && this.threshold == threshold
      ensures initial == [] && log == [] && calls == [] && patterns == [] && exact && supplied && !active
    {
      this.stream, this.threshold := stream, threshold;
      tickCount, active, patterns, progress := 0, false, [], [];
      matchFn, timeoutFn, startFn := false, false, false;
      calls, initial, log, heard, exact, supplied := [], [], [], [], true, true;
    }

    ghost method Note(e: Entry)
      requires Recorded() && !e.Added? && !e.Cleared?
      modifies this`log, this`heard
      ensures Recorded() && log == old(log) + [e] && heard == HeardStep(old(heard), e)
    {
      hide Patterns, Heard;
      HeardMore(initial, log, e);
      log, heard := log + [e], HeardStep(heard, e);
    }

    /** An empty pattern is ignored.  Before anything else, the pattern may count as an `early` one. */
    method AddPattern(p: Pattern, ghost early: bool)
      requires Valid() && (early ==> log == [])
      modifies this`patterns, this`progress, this`initial, this`log, this`heard
      ensures Valid()
      ensures patterns == if p == [] then old(patterns) else old(patterns) + [p]
      ensures early ==> log == [] && initial == patterns
      ensures !early ==> log == old(log) + [Added(p)] && initial == old(initial)
    {
      hide SessionsAgree, ProgressAgrees, TicksSince, Patterns, Heard;
      if !early {
        SessionsIgnore(stream, log, active, calls, matchFn && timeoutFn && startFn, Added(p));
        HeardMore(initial, log, Added(p));
        log := log + [Added(p)];
      }
      NothingLogged(initial);
      if p == [] {
        return;
      }
      ProgressAdd(patterns, progress, heard, exact, active, p);
      patterns := patterns + [p];
      progress := progress + [0];
      heard := heard + [[]];
      if early {
        initial := patterns;
        NothingLogged(initial);
      }
    }

    /** A session goes on without patterns; its inputs are ignored until it times out. */
    method ClearPatterns()
      requires Valid()
      modifies this`patterns, this`progress, this`log, this`heard
      ensures Valid() && patterns == [] && progress == []
      ensures log == old(log) + [Cleared]
    {
      hide SessionsAgree, TicksSince, Patterns, Heard;
      SessionsIgnore(stream, log, active, calls, matchFn && timeoutFn && startFn, Cleared);
      HeardMore(initial, log, Cleared);
      log := log + [Cleared];
      patterns, progress, heard := [], [], [];
    }

    method ZeroProgress()
      modifies this`progress
      ensures |progress| == |old(progress)| && AllZero(progress)
    {
      var i := 0;
      while i < |progress|
        invariant 0 <= i <= |progress| == |old(progress)|
        invariant forall k :: 0 <= k < i ==> progress[k] == 0
      {
        progress := progress[i := 0];
        i := i + 1;
      }
    }

    /** Ends the session; in stream mode an active one gets its timeout callback. */
    method ResetSession() returns (ghost timedOut: bool)
      modifies this`calls, this`tickCount, this`active, this`progress, this`matchFn, this`timeoutFn, this`startFn
      ensures timedOut == (stream && old(active) && old(timeoutFn))
      ensures calls == old(calls) + if timedOut then [Timeout] else []
      ensures !active && tickCount == 0 && !matchFn && !timeoutFn && !startFn
      ensures |progress| == |old(progress)| && AllZero(progress)
    {
      timedOut := false;
      if stream && active && timeoutFn {
        timedOut := true;
        calls := calls + [Timeout];
      }
      tickCount := 0;
      active := false;
      ZeroProgress();
      matchFn, timeoutFn, startFn := false, false, false;
    }

    /** A caller's reset. */
    method Reset() returns (ghost e: Entry)
      requires Valid()
      modifies this`calls, this`tickCount, this`active, this`progress, this`matchFn, this`timeoutFn, this`startFn,
               this`log, this`heard
      ensures Valid()
      ensures !active && AllZero(progress)
      ensures log == old(log) + [e] && e.WasReset? && e.wasActive == old(active)
      ensures supplied ==> e.timedOut == (stream && old(active))
    {
      ghost var wasActive := active;
      ghost var timedOut := ResetSession();
      e := WasReset(wasActive, timedOut);
      Note(e);
      assert log[..|log| - 1] == old(log);
      ZeroTracks(patterns, progress);
    }

    /** A heartbeat: the session times out once more than `threshold` of them pass without input. */
    method Tick() returns (ghost timedOut: bool)
      requires Valid()
      modifies this`calls, this`tickCount, this`active, this`progress, this`matchFn, this`timeoutFn
      modifies this`startFn, this`log, this`heard, this`exact
      ensures Valid()
      ensures log == old(log) + [Ticked(timedOut)]
      ensures supplied ==> (timedOut <==> old(active) && TicksSince(old(log)) + 1 > threshold)
      ensures active <==> old(active) && TicksSince(old(log)) + 1 <= threshold
      ensures supplied ==> exact == old(exact)
    {
      hide SessionsAgree, ProgressAgrees, TicksSince, Patterns, Heard, Recorded;
      timedOut := false;
      SessionsTick(stream, log, active, calls, matchFn && timeoutFn && startFn);
      tickCount := tickCount + 1;
      if active && tickCount > threshold {
        timedOut := TimeOut();
      }
      Note(Ticked(timedOut));
    }

    /** Ends the session after its timeout callback, if it has one. */
    method TimeOut() returns (ghost timedOut: bool)
      requires ProgressAgrees(patterns, progress, heard, exact, active)
      modifies this`calls, this`tickCount, this`active, this`progress, this`matchFn, this`timeoutFn
      modifies this`startFn, this`exact
      ensures timedOut == old(timeoutFn) && exact == (old(exact) && timedOut)
      ensures calls == old(calls) + if timedOut then [Timeout] else []
      ensures !active && tickCount == 0 && !matchFn && !timeoutFn && !startFn
      ensures ProgressAgrees(patterns, progress, if timedOut then Silence(|heard|) else heard, exact, false)
    {
      hide ProgressAgrees;
      Sizes(patterns, progress, heard, exact, active);
      timedOut := false;
      if timeoutFn {
        timedOut := true;
        calls := calls + [Timeout];
        timeoutFn := false;
      }
      ghost var again := ResetSession();
      assert calls + [] == calls;
      exact := exact && timedOut;
      ProgressEnds(patterns, progress, heard, exact, timedOut);
    }

    // -------------------------------------------------------------------------
    // Inputs
    // -------------------------------------------------------------------------

    /** With no session active: marks the patterns that the input starts. */
    method StartPatterns(b: Button) returns (startsAny: bool, completed: bool)
      requires |progress| == |patterns| && NoneEmpty(patterns)
      modifies this`progress
      ensures |progress| == |patterns|
      ensures startsAny <==> StartsAny(patterns, b)
      ensures completed <==> [b] in patterns
      ensures completed ==> startsAny
      ensures !completed ==> forall i :: 0 <= i < |patterns| ==> progress[i] == if patterns[i][0] == b then 1 else 0
    {
      startsAny, completed := false, false;
      var i := 0;
      while i < |patterns|
        invariant 0 <= i <= |patterns| == |progress|
        invariant !completed
        invariant startsAny <==> exists k :: 0 <= k < i && patterns[k][0] == b
        invariant [b] !in patterns[..i]
        invariant forall k :: 0 <= k < i ==> progress[k] == if patterns[k][0] == b then 1 else 0
      {
        if patterns[i][0] == b {
          progress := progress[i := 1];
          startsAny := true;
          if |patterns[i]| == 1 {
            completed := true;
            assert patterns[i] == [b];
            break;
          }
        } else {
          progress := progress[i := 0];
        }
        i := i + 1;
      }
    }

    /** Advances the patterns that wait for the input, up to the first that it completes. */
    method AdvancePatterns(b: Button) returns (completed: bool)
      requires |progress| == |patterns| && NoneEmpty(patterns)
      modifies this`progress
      ensures |progress| == |patterns|
      ensures completed <==> Completes(patterns, old(progress), b)
      ensures !completed ==> forall i :: 0 <= i < |patterns| ==>
                progress[i] == Advanced(patterns[i], old(progress)[i], b)
    {
      completed := false;
      var i := 0;
      while i < |patterns|
        invariant 0 <= i <= |patterns| == |progress|
        invariant !completed
        invariant forall k :: 0 <= k < i ==>
                    && progress[k] == Advanced(patterns[k], old(progress)[k], b)
                    && !(old(progress)[k] < |patterns[k]| == progress[k])
        invariant forall k :: i <= k < |patterns| ==> progress[k] == old(progress)[k]
      {
        var k := progress[i];
        if k > 0 {
          if k < |patterns[i]| && patterns[i][k] == b {
            progress := progress[i := k + 1];
            if progress[i] == |patterns[i]| {
              completed := true;
              break;
            }
          }
        } else if patterns[i][0] == b {
          progress := progress[i := 1];
          if |patterns[i]| == 1 {
            completed := true;
            break;
          }
        }
        i := i + 1;
      }
    }

    /** Fires the match callback, restarts all patterns, and ends the session unless in stream mode. */
    method FireMatch()
      requires |progress| == |patterns|
      modifies this`calls, this`tickCount, this`active, this`progress, this`matchFn, this`timeoutFn, this`startFn
      ensures calls == old(calls) + [Match]
      ensures |progress| == |patterns| && AllZero(progress)
      ensures active == (old(active) && stream)
      ensures stream ==> matchFn == old(matchFn) && timeoutFn == old(timeoutFn) && startFn == old(startFn)
      ensures stream ==> tickCount == old(tickCount)
      ensures !stream ==> !matchFn && !timeoutFn && !startFn
    {
      calls := calls + [Match];
      ZeroProgress();
      if !stream {
        ghost var t := ResetSession();
      }
    }

    /** Opens a session, with the callbacks of the input that opens it. */
    method OpenSession(matchCb: bool, timeoutCb: bool, startCb: bool)
      modifies this`active, this`matchFn, this`timeoutFn, this`startFn, this`tickCount, this`calls
      ensures active && tickCount == 0
      ensures matchFn == matchCb && timeoutFn == timeoutCb && startFn == startCb
      ensures calls == old(calls) + if startCb then [Start] else []
    {
      active := true;
      matchFn, timeoutFn, startFn := matchCb, timeoutCb, startCb;
      tickCount := 0;
      if startFn {
        calls := calls + [Start];
      }
    }

    /**
     With no session active: the input opens one if it starts a pattern.  `done` if nothing is
     left to do, either because it starts none or because it completed a pattern and matched.
     */
    method Begin(b: Button, matchCb: bool, timeoutCb: bool, startCb: bool)
      returns (done: bool, ghost began: bool, ghost matched: bool)
      requires Valid() && !active
      modifies this
      ensures patterns == old(patterns) && initial == old(initial)
      ensures began == StartsAny(patterns, b) && (!began ==> done && !matched)
      ensures supplied <==> old(supplied) && (began ==> matchCb && timeoutCb && startCb)
      ensures exact ==> old(exact)
      ensures old(exact) && supplied ==> exact
      ensures done ==>
                && Valid() && log == old(log) + [Detected(b, began, matched)]
                && exact == old(exact)
                && (exact ==> (matched <==> Finishes(patterns, HearAll(old(heard), b, began))))
      ensures !done ==>
                && log == old(log) && heard == old(heard) && Recorded()
                && active && tickCount == 0 && began && !matched
                && ProgressMid(patterns, progress, heard, exact, b, true)
                && (supplied ==> SessionsMid(stream, log, calls, true) && matchFn && timeoutFn && startFn)
    {
      hide SessionsAgree, SessionsMid, ProgressAgrees, ProgressMid, Finishes, Completes, StartsAny, TicksSince,
        Recorded, Patterns, Heard;
      began, matched := false, false;
      ghost var before := progress;
      Sizes(patterns, progress, heard, exact, active);
      var startsAny, completed := StartPatterns(b);
      if !startsAny {
        ProgressMiss(patterns, before, progress, heard, exact, b);
        if supplied {
          SessionsMiss(stream, log, calls, matchFn && timeoutFn && startFn, b);
        }
        Note(Detected(b, false, false));
        return true, began, matched;
      }

      began := true;
      OpenSession(matchCb, timeoutCb, startCb);
      if supplied && startCb {
        SessionsBegin(stream, old(log), old(calls), old(matchFn && timeoutFn && startFn));
      }
      supplied := supplied && matchCb && timeoutCb && startCb;
      ProgressOpened(patterns, before, progress, heard, exact, b);
      if completed && matchFn {
        ProgressSingle(patterns, before, heard, exact, b);
        MatchAtOnce(b);
        matched := true;
        return true, began, matched;
      }
      exact := exact && !completed;
      done := false;
    }

    /** The opening input alone has completed a pattern. */
    method MatchAtOnce(b: Button)
      requires Recorded() && active && tickCount == 0 && |progress| == |patterns| == |heard| && NoneEmpty(patterns)
      requires supplied ==> SessionsMid(stream, log, calls, true) && matchFn && timeoutFn && startFn
      modifies this
      ensures Valid() && patterns == old(patterns) && initial == old(initial)
      ensures supplied == old(supplied) && exact == old(exact)
      ensures log == old(log) + [Detected(b, true, true)]
    {
      hide SessionsAgree, SessionsMid, ProgressAgrees, TicksSince, Recorded, Patterns, Heard;
      if supplied {
        SessionsMore(stream, log, calls, b, true, true, stream);
      }
      FireMatch();
      ProgressMatch(patterns, progress, |heard|, exact, active);
      DetectedTicks(log, b, true, true);
      Note(Detected(b, true, true));
    }

    /** The input advances the patterns; if it completes one, the session's match callback fires. */
    method Advance(b: Button, ghost began: bool) returns (ghost matched: bool)
      requires active && tickCount == 0
      requires Recorded() && ProgressMid(patterns, progress, heard, exact, b, began)
      requires supplied ==> SessionsMid(stream, log, calls, began) && matchFn && timeoutFn && startFn
      modifies this
      ensures Valid() && patterns == old(patterns) && initial == old(initial) && supplied == old(supplied)
      ensures log == old(log) + [Detected(b, began, matched)]
      ensures exact ==> old(exact)
      ensures exact ==> (matched <==> Finishes(patterns, HearAll(old(heard), b, began)))
      ensures old(exact) && supplied ==> exact
    {
      hide SessionsAgree, SessionsMid, ProgressAgrees, ProgressMid, Finishes, Completes, TicksSince, Recorded,
        Patterns, Heard;
      ghost var before := progress;
      MidSizes(patterns, progress, heard, exact, b, began);
      assert calls + [] == calls;
      var completed := AdvancePatterns(b);
      ProgressAdvanced(patterns, before, progress, heard, exact, b, began, completed);
      matched := false;
      if supplied {
        SessionsMore(stream, log, calls, b, began, completed, stream || !completed);
      }
      if completed && matchFn {
        FireMatch();
        matched := true;
        ProgressMatch(patterns, progress, |heard|, exact, active);
      } else {
        exact := exact && !completed;
      }
      DetectedTicks(log, b, began, matched);
      Note(Detected(b, began, matched));
    }

    method Detect(b: Button, matchCb: bool, timeoutCb: bool, startCb: bool)
      returns (ghost began: bool, ghost matched: bool)
      requires Valid()
      modifies this
      ensures Valid()
      ensures patterns == old(patterns) && initial == old(initial)
      ensures patterns == [] ==>
                && log == old(log) + [Ignored(b)]
                && active == old(active) && exact == old(exact) && supplied == old(supplied)
      ensures patterns != [] ==>
                && log == old(log) + [Detected(b, began, matched)]
                && (began <==> !old(active) && StartsAny(patterns, b))
                && (supplied <==> old(supplied) && (began ==> matchCb && timeoutCb && startCb))
                && (exact ==> old(exact))
                && (exact ==> (matched <==> Finishes(patterns, HearAll(old(heard), b, began))))
      ensures old(exact) && supplied ==> exact
    {
      hide SessionsAgree, SessionsMid, ProgressAgrees, ProgressMid, Finishes, Completes, StartsAny, TicksSince,
        Recorded, Patterns, Heard;
      began, matched := false, false;
      if |patterns| == 0 {
        SessionsIgnore(stream, log, active, calls, matchFn && timeoutFn && startFn, Ignored(b));
        Note(Ignored(b));
        return;
      }
      if !active {
        var done;
        done, began, matched := Begin(b, matchCb, timeoutCb, startCb);
        if done {
          return;
        }
      } else {
        ProgressFound(patterns, progress, heard, exact, b);
        if supplied {
          SessionsFound(stream, log, calls, matchFn && timeoutFn && startFn);
        }
        tickCount := 0;
      }
      matched := Advance(b, began);
    }
  }
}
