/** Whole runs of the sequence matcher, every callback being supplied. */
module SequenceRuns {
  import opened Subsequences
  import opened SequenceLog
  import opened SequenceMatches
  import opened Sequence

  method AddPatterns(m: Matcher, patterns: seq<Pattern>)
    requires m.Valid() && m.log == [] && m.exact && m.supplied && m.patterns == [] && m.initial == []
    requires [] !in patterns
    modifies m`patterns, m`progress, m`initial, m`log, m`heard
    ensures m.Valid() && m.log == [] && m.patterns == patterns && m.initial == patterns
  {
    for i := 0 to |patterns|
      invariant m.Valid() && m.exact && m.supplied && m.log == []
      invariant m.patterns == patterns[..i] && m.initial == patterns[..i]
    {
      m.AddPattern(patterns[i], true);
      assert patterns[..i + 1] == patterns[..i] + [patterns[i]];
    }
    assert patterns[..|patterns|] == patterns;
  }

  /** One operation; `e` is the entry it leaves. */
  method RunOp(m: Matcher, op: Op) returns (ghost e: Entry)
    requires m.Valid() && m.exact && m.supplied
    modifies m
    ensures m.Valid() && m.exact && m.supplied && m.initial == old(m.initial)
    ensures m.log == old(m.log) + [e] && Answers(e, op)
    ensures LegalStep(m.stream, m.threshold, m.initial, old(m.log), e)
  {
    hide TicksSince, Open, ProgressAgrees, Patterns, Heard, Finishes, StartsAny, Orderly, Calls;
    match op
    case Press(b) =>
      var began, matched := m.Detect(b, true, true, true);
      e := if |m.patterns| == 0 then Ignored(b) else Detected(b, began, matched);
    case Heartbeat =>
      var timedOut := m.Tick();
      e := Ticked(timedOut);
    case CallReset =>
      e := m.Reset();
    case AddPattern(p) =>
      m.AddPattern(p, false);
      e := Added(p);
    case ClearPatterns =>
      m.ClearPatterns();
      e := Cleared;
  }

  /**
   Every run of a matcher, with patterns that may change: it leaves a legal log of its operations,
   which is the only one; its callbacks and its progress are what that log says; and sessions are
   accounted for.
   */
  method RunOps(stream: bool, threshold: int, patterns: seq<Pattern>, ops: seq<Op>)
    returns (calls: seq<Callback>, progress: seq<nat>, ghost log: Log)
    requires [] !in patterns
    ensures Legal(stream, threshold, patterns, log) && AnswersAll(log, ops)
    ensures calls == Calls(log) && Orderly(stream, log)
    ensures progress == ProgressAfter(patterns, log)
    ensures Count(calls, Start) == Count(calls, Timeout) + (if stream then 0 else Count(calls, Match))
              + SilentResets(log) + (if Open(stream, log) then 1 else 0)
    ensures stream ==> Count(calls, Timeout) <= Count(calls, Start) <= Count(calls, Timeout) + 1
    ensures !stream ==> Count(calls, Timeout) + Count(calls, Match) <= Count(calls, Start)
    ensures Fixed(log) && MatchSafe(patterns) ==> Faithful(patterns, log)
    ensures Fixed(log) && ProgressSafe(patterns) ==> Longest(patterns, progress, log)
  {
    hide Calls, Orderly, Open, Count, SilentResets, Faithful, MatchSafe, ProgressSafe, Longest, Fixed, Answers;
    hide Legal, LegalStep, ProgressAfter, Patterns, Heard, TicksSince;
    var m := new Matcher(stream, threshold);
    AddPatterns(m, patterns);
    NothingPressed(stream, threshold, patterns);
    log := [];
    for n := 0 to |ops|
      invariant fresh(m) && m.Valid() && m.exact && m.supplied
      invariant m.stream == stream && m.threshold == threshold && m.initial == patterns
      invariant m.log == log && |log| == n
      invariant Legal(stream, threshold, patterns, log)
      invariant forall k :: 0 <= k < n ==> Answers(log[k], ops[k])
    {
      ghost var e := RunOp(m, ops[n]);
      LegalMore(stream, threshold, patterns, log, e);
      log := log + [e];
    }
    calls, progress := m.calls, m.progress;
    Accounting(stream, log);
    TrackedProgress(patterns, m.patterns, m.progress, m.heard, log, m.active);
    if Fixed(log) && MatchSafe(patterns) {
      SafeIsFaithful(stream, threshold, patterns, log);
    }
    if Fixed(log) && ProgressSafe(patterns) {
      SafeIsLongest(stream, threshold, patterns, log);
    }
  }

  lemma TrackedProgress(initial: seq<Pattern>, patterns: seq<Pattern>, progress: seq<nat>, heard: seq<seq<Button>>,
                        log: Log, active: bool)
    requires patterns == Patterns(initial, log) && heard == Heard(initial, log)
    requires ProgressAgrees(patterns, progress, heard, true, active)
    ensures progress == ProgressAfter(initial, log)
  {
    hide Patterns, Heard, Greedy;
  }
}
