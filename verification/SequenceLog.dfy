/** What happened to a sequence matcher, call by call, and what that says about sessions. */
module SequenceLog {
  import opened Subsequences

  type Button = int
  type Pattern = seq<Button>

  /**
   One entry a call.  `Detected`: an input, whether it began a session and whether the match
   callback fired.  `Ignored`: an input while there was no pattern.  `Ticked`: a heartbeat,
   and whether it timed the session out.  `WasReset`: a caller's reset, whether a session was
   active, and whether that fired the timeout callback.  `Added` and `Cleared`: changes of the
   patterns.
   */
  datatype Entry =
    | Detected(button: Button, began: bool, matched: bool)
    | Ignored(button: Button)
    | Ticked(timedOut: bool)
    | WasReset(wasActive: bool, timedOut: bool)
    | Added(pattern: Pattern)
    | Cleared

  datatype Callback = Start | Match | Timeout

  type Log = seq<Entry>

  /** The inputs since the last match, timeout or reset. */
  ghost function Since(log: Log): seq<Button> {
    if log == [] then []
    else
      var before := Since(log[..|log| - 1]);
      match log[|log| - 1]
      case Detected(b, _, matched) => if matched then [] else before + [b]
      case Ignored(_) => before
      case Ticked(timedOut) => if timedOut then [] else before
      case WasReset(_, _) => []
      case _ => before
  }

  /** The same, except that an input that opens a session appears twice. */
  ghost function Counted(log: Log): seq<Button> {
    if log == [] then []
    else
      var before := Counted(log[..|log| - 1]);
      match log[|log| - 1]
      case Detected(b, began, matched) => if matched then [] else before + Copies(b, began)
      case Ignored(_) => before
      case Ticked(timedOut) => if timedOut then [] else before
      case WasReset(_, _) => []
      case _ => before
  }

  function Copies(b: Button, twice: bool): seq<Button> {
    if twice then [b, b] else [b]
  }

  /** Heartbeats since the last input that was not ignored. */
  ghost function TicksSince(log: Log): nat {
    if log == [] then 0
    else
      match log[|log| - 1]
      case Detected(_, _, _) => 0
      case Ticked(_) => TicksSince(log[..|log| - 1]) + 1
      case WasReset(_, _) => 0
      case _ => TicksSince(log[..|log| - 1])
  }

  // ---------------------------------------------------------------------------
  // Sessions
  // ---------------------------------------------------------------------------

  /** A session is open at the end of the log: in stream mode a match leaves it open. */
  ghost predicate Open(stream: bool, log: Log) {
    log != [] &&
    var before := Open(stream, log[..|log| - 1]);
    match log[|log| - 1]
    case Detected(_, began, matched) => (before || began) && (stream || !matched)
    case Ticked(timedOut) => before && !timedOut
    case WasReset(_, _) => false
    case _ => before
  }

  /** What may happen when: sessions open when none is open, and match, time out or get reset only while open. */
  ghost predicate Orderly(stream: bool, log: Log) {
    log != [] ==>
      var before := log[..|log| - 1];
      && Orderly(stream, before)
      && match log[|log| - 1]
         case Detected(_, began, matched) =>
           && (began ==> !Open(stream, before))
           && (matched ==> began || Open(stream, before))
         case Ticked(timedOut) => timedOut ==> Open(stream, before)
         case WasReset(wasActive, timedOut) => wasActive == Open(stream, before) && timedOut == (stream && wasActive)
         case _ => true
  }

  /** The callbacks that an entry fires, in order. */
  ghost function CallsOf(e: Entry): seq<Callback> {
    match e
    case Detected(_, began, matched) => (if began then [Start] else []) + (if matched then [Match] else [])
    case Ticked(timedOut) => if timedOut then [Timeout] else []
    case WasReset(_, timedOut) => if timedOut then [Timeout] else []
    case _ => []
  }

  ghost function Calls(log: Log): seq<Callback> {
    if log == [] then [] else Calls(log[..|log| - 1]) + CallsOf(log[|log| - 1])
  }

  /** Sessions that a caller's reset ended without a callback. */
  ghost function SilentResets(log: Log): nat {
    if log == [] then 0
    else
      var e := log[|log| - 1];
      SilentResets(log[..|log| - 1]) + if e.WasReset? && e.wasActive && !e.timedOut then 1 else 0
  }

  function Count(calls: seq<Callback>, c: Callback): nat {
    multiset(calls)[c]
  }

  lemma CountOf(e: Entry)
    ensures Count(CallsOf(e), Start) == if e.Detected? && e.began then 1 else 0
    ensures Count(CallsOf(e), Match) == if e.Detected? && e.matched then 1 else 0
    ensures Count(CallsOf(e), Timeout) == if (e.Ticked? || e.WasReset?) && e.timedOut then 1 else 0
  {
  }

  lemma NoCalls()
    ensures forall c :: Count(Calls([]), c) == 0
  {
  }

  lemma CountMore(log: Log, c: Callback)
    requires log != []
    ensures Count(Calls(log), c) == Count(Calls(log[..|log| - 1]), c) + Count(CallsOf(log[|log| - 1]), c)
  {
  }

  /**
   Every session that started has ended exactly once: in stream mode by a timeout callback,
   otherwise by a match, a timeout or a caller's reset; one may still be open.
   */
  lemma {:induction false} Accounting(stream: bool, log: Log)
    requires Orderly(stream, log)
    ensures Count(Calls(log), Start)
         == Count(Calls(log), Timeout) + (if stream then 0 else Count(Calls(log), Match)) + SilentResets(log)
            + (if Open(stream, log) then 1 else 0)
    ensures stream ==> SilentResets(log) == 0
    decreases |log|
  {
    hide Calls, CallsOf, Count;
    if log == [] {
      NoCalls();
    } else {
      Accounting(stream, log[..|log| - 1]);
      CountOf(log[|log| - 1]);
      CountMore(log, Start);
      CountMore(log, Match);
      CountMore(log, Timeout);
    }
  }

  // ---------------------------------------------------------------------------
  // Patterns
  // ---------------------------------------------------------------------------

  /** The patterns after `log`, if those before it were `initial`. An empty pattern is never one. */
  ghost function Patterns(initial: seq<Pattern>, log: Log): seq<Pattern> {
    if log == [] then initial
    else PatternsStep(Patterns(initial, log[..|log| - 1]), log[|log| - 1])
  }

  function PatternsStep(patterns: seq<Pattern>, e: Entry): seq<Pattern> {
    match e
    case Added(p) => if p == [] then patterns else patterns + [p]
    case Cleared => []
    case _ => patterns
  }

  /** What each pattern has heard since the last match, timeout or reset, or since it was added. */
  ghost function Heard(initial: seq<Pattern>, log: Log): (heard: seq<seq<Button>>)
    ensures |heard| == |Patterns(initial, log)|
  {
    if log == [] then Silence(|initial|)
    else HeardStep(Heard(initial, log[..|log| - 1]), log[|log| - 1])
  }

  function Silence(n: nat): seq<seq<Button>> {
    seq(n, _ => [])
  }

  function HearAll(heard: seq<seq<Button>>, b: Button, twice: bool): seq<seq<Button>> {
    var copies := Copies(b, twice);
    seq(|heard|, i requires 0 <= i < |heard| => heard[i] + copies)
  }

  lemma HeardAt(heard: seq<seq<Button>>, b: Button, twice: bool, i: nat)
    requires i < |heard|
    ensures HearAll(heard, b, twice)[i] == heard[i] + if twice then [b, b] else [b]
  {
  }

  lemma NothingLogged(initial: seq<Pattern>)
    ensures Patterns(initial, []) == initial && Heard(initial, []) == Silence(|initial|)
    ensures Silence(|initial|) + [[]] == Silence(|initial| + 1)
  {
  }

  function HeardStep(heard: seq<seq<Button>>, e: Entry): seq<seq<Button>> {
    match e
    case Detected(b, began, matched) => if matched then Silence(|heard|) else HearAll(heard, b, began)
    case Ignored(_) => heard
    case Ticked(timedOut) => if timedOut then Silence(|heard|) else heard
    case WasReset(_, _) => Silence(|heard|)
    case Added(p) => if p == [] then heard else heard + [[]]
    case Cleared => []
  }

  lemma HeardMore(initial: seq<Pattern>, log: Log, e: Entry)
    ensures Patterns(initial, log + [e]) == PatternsStep(Patterns(initial, log), e)
    ensures Heard(initial, log + [e]) == HeardStep(Heard(initial, log), e)
  {
    LogMore(log, e);
  }

  lemma LogMore(log: Log, e: Entry)
    ensures (log + [e])[..|log + [e]| - 1] == log
  {
  }

  predicate StartsAny(patterns: seq<Pattern>, b: Button) {
    exists i :: 0 <= i < |patterns| && patterns[i] != [] && patterns[i][0] == b
  }

  /** Some pattern is complete, by greedy matching of what it has heard. */
  predicate Finishes(patterns: seq<Pattern>, heard: seq<seq<Button>>)
    requires |heard| == |patterns|
  {
    exists i :: 0 <= i < |patterns| && Greedy(patterns[i], heard[i]) == |patterns[i]|
  }

  // ---------------------------------------------------------------------------
  // The logs of the matcher
  // ---------------------------------------------------------------------------

  /**
   What the next entry says, if every callback is supplied: an input is ignored if there is no
   pattern; otherwise it begins a session if none is open and it starts a pattern, and it matches
   if it completes a pattern, where the opening input counts twice.  Sessions time out after more
   than `threshold` heartbeats without input, and callers may reset them.
   */
  ghost predicate LegalStep(stream: bool, threshold: int, initial: seq<Pattern>, before: Log, e: Entry) {
    var patterns, heard := Patterns(initial, before), Heard(initial, before);
    match e
    case Ignored(_) => patterns == []
    case Detected(b, began, matched) =>
      && patterns != []
      && (began <==> !Open(stream, before) && StartsAny(patterns, b))
      && (matched <==> Finishes(patterns, HearAll(heard, b, began)))
    case Ticked(timedOut) => timedOut <==> Open(stream, before) && TicksSince(before) + 1 > threshold
    case WasReset(wasActive, timedOut) => wasActive == Open(stream, before) && timedOut == (stream && wasActive)
    case _ => true
  }

  /** A log that the matcher can leave. */
  ghost predicate Legal(stream: bool, threshold: int, initial: seq<Pattern>, log: Log) {
    log != [] ==>
      && Legal(stream, threshold, initial, log[..|log| - 1])
      && LegalStep(stream, threshold, initial, log[..|log| - 1], log[|log| - 1])
  }

  lemma LegalMore(stream: bool, threshold: int, initial: seq<Pattern>, log: Log, e: Entry)
    requires Legal(stream, threshold, initial, log)
    ensures Legal(stream, threshold, initial, log + [e]) <==> LegalStep(stream, threshold, initial, log, e)
  {
    hide LegalStep;
    LogMore(log, e);
  }

  lemma {:induction false} LegalPrefix(stream: bool, threshold: int, initial: seq<Pattern>, log: Log, n: nat)
    requires Legal(stream, threshold, initial, log) && n <= |log|
    ensures Legal(stream, threshold, initial, log[..n])
    decreases |log|
  {
    hide LegalStep;
    if n < |log| {
      LegalPrefix(stream, threshold, initial, log[..|log| - 1], n);
      assert log[..|log| - 1][..n] == log[..n];
    } else {
      assert log[..n] == log;
    }
  }

  /** What is done to a matcher, every callback being supplied. */
  datatype Op = Press(button: Button) | Heartbeat | CallReset | AddPattern(pattern: Pattern) | ClearPatterns

  /** The entry belongs to the operation. */
  predicate Answers(e: Entry, op: Op) {
    match op
    case Press(b) => (e.Detected? || e.Ignored?) && e.button == b
    case Heartbeat => e.Ticked?
    case CallReset => e.WasReset?
    case AddPattern(p) => e == Added(p)
    case ClearPatterns => e == Cleared
  }

  predicate AnswersAll(log: Log, ops: seq<Op>) {
    |log| == |ops| && forall k :: 0 <= k < |log| ==> Answers(log[k], ops[k])
  }

  lemma AnswersBefore(log: Log, ops: seq<Op>, n: nat)
    requires AnswersAll(log, ops) && n == |ops| - 1
    ensures |log| == |ops| && AnswersAll(log[..n], ops[..n]) && Answers(log[n], ops[n])
  {
    hide Answers;
  }

  lemma StepIsUnique(stream: bool, threshold: int, initial: seq<Pattern>, before: Log, e: Entry, f: Entry, op: Op)
    requires LegalStep(stream, threshold, initial, before, e) && Answers(e, op)
    requires LegalStep(stream, threshold, initial, before, f) && Answers(f, op)
    ensures e == f
  {
    hide Patterns, Heard, Open, TicksSince, StartsAny, Finishes;
  }

  /** The operations leave no choice. */
  lemma {:induction false} LegalIsUnique(stream: bool, threshold: int, initial: seq<Pattern>, a: Log, b: Log,
                                         ops: seq<Op>)
    requires Legal(stream, threshold, initial, a) && AnswersAll(a, ops)
    requires Legal(stream, threshold, initial, b) && AnswersAll(b, ops)
    ensures a == b
    decreases |ops|
  {
    if ops != [] {
      var n := |ops| - 1;
      AnswersBefore(a, ops, n);
      AnswersBefore(b, ops, n);
      LegalIsUnique(stream, threshold, initial, a[..n], b[..n], ops[..n]);
      hide LegalStep, Answers, AnswersAll;
      StepIsUnique(stream, threshold, initial, a[..n], a[n], b[n], ops[n]);
      assert a == a[..n] + [a[n]] && b == b[..n] + [b[n]];
    }
  }

  /** No pattern is complete, and none has begun while no session is open. */
  ghost predicate Rests(patterns: seq<Pattern>, heard: seq<seq<Button>>, open: bool) {
    && |heard| == |patterns|
    && forall i :: 0 <= i < |patterns| ==>
         && Greedy(patterns[i], heard[i]) < |patterns[i]|
         && (!open ==> Greedy(patterns[i], heard[i]) == 0)
  }

  lemma SilenceRests(patterns: seq<Pattern>, open: bool)
    requires [] !in patterns
    ensures Rests(patterns, Silence(|patterns|), open)
  {
    forall i | 0 <= i < |patterns| ensures |patterns[i]| > 0 {
      assert patterns[i] in patterns;
    }
  }

  lemma HearingRests(patterns: seq<Pattern>, heard: seq<seq<Button>>, open: bool, b: Button, began: bool)
    requires Rests(patterns, heard, open) && [] !in patterns
    requires !Finishes(patterns, HearAll(heard, b, began))
    requires !open && !began ==> !StartsAny(patterns, b)
    ensures Rests(patterns, HearAll(heard, b, began), open || began)
  {
    var more := HearAll(heard, b, began);
    forall i | 0 <= i < |patterns|
      ensures Greedy(patterns[i], more[i]) < |patterns[i]|
      ensures !open && !began ==> Greedy(patterns[i], more[i]) == 0
    {
      GreedyMore(patterns[i], heard[i], b);
      HeardAt(heard, b, began, i);
      if !open && !began {
        assert patterns[i] in patterns;
        assert patterns[i][0] != b;
      }
    }
  }

  lemma {:induction false} LegalRests(stream: bool, threshold: int, initial: seq<Pattern>, log: Log)
    requires Legal(stream, threshold, initial, log) && [] !in initial
    ensures [] !in Patterns(initial, log)
    ensures Rests(Patterns(initial, log), Heard(initial, log), Open(stream, log))
    decreases |log|
  {
    if log == [] {
      SilenceRests(initial, false);
    } else {
      var before, e := log[..|log| - 1], log[|log| - 1];
      LegalRests(stream, threshold, initial, before);
      var patterns, heard := Patterns(initial, before), Heard(initial, before);
      SilenceRests(patterns, false);
      SilenceRests(patterns, true);
      if e.Detected? && !e.matched {
        HearingRests(patterns, heard, Open(stream, before), e.button, e.began);
      }
      hide Finishes, StartsAny, Greedy;
      assert e.Added? ==> Greedy(e.pattern, []) == 0 by {
        NothingGreedy(if e.Added? then e.pattern else []);
      }
    }
  }

  lemma NothingGreedy(p: Pattern)
    ensures Greedy(p, []) == 0
  {
  }

  lemma {:induction false} LegalIsOrderly(stream: bool, threshold: int, initial: seq<Pattern>, log: Log)
    requires Legal(stream, threshold, initial, log) && [] !in initial
    ensures Orderly(stream, log)
    decreases |log|
  {
    if log != [] {
      var before, e := log[..|log| - 1], log[|log| - 1];
      LegalIsOrderly(stream, threshold, initial, before);
      LegalRests(stream, threshold, initial, before);
      hide Patterns, Heard, Finishes, StartsAny;
      if e.Detected? && !e.began && !Open(stream, before) {
        UnstartedDoesNotFinish(Patterns(initial, before), Heard(initial, before), e.button);
      }
    }
  }

  lemma UnstartedDoesNotFinish(patterns: seq<Pattern>, heard: seq<seq<Button>>, b: Button)
    requires Rests(patterns, heard, false) && [] !in patterns && !StartsAny(patterns, b)
    ensures !Finishes(patterns, HearAll(heard, b, false))
  {
    var more := HearAll(heard, b, false);
    forall i | 0 <= i < |patterns| ensures Greedy(patterns[i], more[i]) == 0 && |patterns[i]| > 0 {
      assert patterns[i] in patterns;
      HeardAt(heard, b, false, i);
      GreedyMore(patterns[i], heard[i], b);
      assert patterns[i][0] != b;
    }
  }

  // ---------------------------------------------------------------------------
  // When a session times out
  // ---------------------------------------------------------------------------

  function Ticks(log: Log): nat {
    if log == [] then 0 else Ticks(log[..|log| - 1]) + if log[|log| - 1].Ticked? then 1 else 0
  }

  /** The entry leaves an open session open. */
  predicate LeavesOpen(stream: bool, e: Entry) {
    && !e.WasReset?
    && (e.Ticked? ==> !e.timedOut)
    && (e.Detected? && e.matched ==> stream)
  }

  lemma {:induction false} StaysOpen(stream: bool, log: Log, n: nat, m: nat)
    requires n < m <= |log| && log[n].Detected? && log[n].began
    requires forall k :: n <= k < m ==> LeavesOpen(stream, log[k])
    ensures Open(stream, log[..m])
    decreases m
  {
    assert log[..m][..m - 1] == log[..m - 1] && log[..m][m - 1] == log[m - 1];
    if m > n + 1 {
      StaysOpen(stream, log, n, m - 1);
    }
    assert LeavesOpen(stream, log[m - 1]);
  }

  lemma {:induction false} TicksCount(log: Log, p: nat, m: nat)
    requires p < m <= |log| && log[p].Detected?
    requires forall k :: p < k < m ==> !log[k].Detected? && !log[k].WasReset?
    ensures TicksSince(log[..m]) == Ticks(log[p + 1..m])
    decreases m
  {
    assert log[..m][..m - 1] == log[..m - 1] && log[..m][m - 1] == log[m - 1];
    if m > p + 1 {
      TicksCount(log, p, m - 1);
      assert log[p + 1..m][..m - 1 - (p + 1)] == log[p + 1..m - 1];
      assert log[p + 1..m][m - 1 - (p + 1)] == log[m - 1];
    }
  }

  /**
   A session that began at entry `n` and has not ended before the heartbeat at entry `m` times out there
   exactly if more than `threshold` heartbeats have come since the last input, the one at entry `p`.
   Inputs that are ignored, and changes of the patterns, do not put it off.
   */
  lemma SessionTimesOut(stream: bool, threshold: int, initial: seq<Pattern>, log: Log, n: nat, p: nat, m: nat)
    requires Legal(stream, threshold, initial, log) && n <= p < m < |log|
    requires log[n].Detected? && log[n].began && log[p].Detected? && log[m].Ticked?
    requires forall k :: n <= k < m ==> LeavesOpen(stream, log[k])
    requires forall k :: p < k < m ==> !log[k].Detected?
    ensures log[m].timedOut <==> Ticks(log[p + 1..m + 1]) > threshold
  {
    StaysOpen(stream, log, n, m);
    assert LeavesOpen(stream, log[p]);
    assert forall k :: p < k < m ==> LeavesOpen(stream, log[k]);
    TicksCount(log, p, m);
    OneMoreTick(log, p, m);
    TickIsLegal(stream, threshold, initial, log, m);
    hide *;
  }

  lemma OneMoreTick(log: Log, p: nat, m: nat)
    requires p < m < |log| && log[m].Ticked?
    ensures Ticks(log[p + 1..m + 1]) == Ticks(log[p + 1..m]) + 1
  {
    var ticks := log[p + 1..m + 1];
    assert ticks[..|ticks| - 1] == log[p + 1..m] && ticks[|ticks| - 1] == log[m];
  }

  lemma TickIsLegal(stream: bool, threshold: int, initial: seq<Pattern>, log: Log, m: nat)
    requires Legal(stream, threshold, initial, log) && m < |log| && log[m].Ticked?
    ensures log[m].timedOut <==> Open(stream, log[..m]) && TicksSince(log[..m]) + 1 > threshold
  {
    LegalPrefix(stream, threshold, initial, log, m + 1);
    assert log[..m + 1][..m] == log[..m] && log[..m + 1][m] == log[m];
    hide Patterns, Heard, Open, TicksSince, Finishes, StartsAny;
  }

  /** Without an open session there is nothing to time out. */
  lemma NothingTimesOut(stream: bool, threshold: int, initial: seq<Pattern>, log: Log, m: nat)
    requires Legal(stream, threshold, initial, log) && m < |log|
    requires log[m].Ticked? && forall k :: 0 <= k < m && log[k].Detected? ==> !log[k].began
    ensures !log[m].timedOut
  {
    NeverOpen(stream, log, m);
    TickIsLegal(stream, threshold, initial, log, m);
  }

  lemma {:induction false} NeverOpen(stream: bool, log: Log, m: nat)
    requires m <= |log| && forall k :: 0 <= k < m && log[k].Detected? ==> !log[k].began
    ensures !Open(stream, log[..m])
    decreases m
  {
    if m > 0 {
      assert log[..m][..m - 1] == log[..m - 1] && log[..m][m - 1] == log[m - 1];
      NeverOpen(stream, log, m - 1);
    }
  }
}
