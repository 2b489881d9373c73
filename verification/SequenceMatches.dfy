/** When the matcher's matches, and when its progress, are those of plain subsequence matching. */
module SequenceMatches {
  import opened Subsequences
  import opened SequenceLog

  /** The patterns stay what they are. */
  ghost predicate Fixed(log: Log) {
    forall k :: 0 <= k < |log| ==> !log[k].Added? && !log[k].Cleared?
  }

  /** Some pattern is a subsequence of the inputs. */
  ghost predicate SomeEmbeds(patterns: seq<Pattern>, inputs: seq<Button>) {
    exists i :: 0 <= i < |patterns| && Embeds(patterns[i], inputs)
  }

  /** Matches fire on exactly those inputs that make some pattern a subsequence of the inputs. */
  ghost predicate Faithful(patterns: seq<Pattern>, log: Log) {
    forall k :: 0 <= k < |log| && log[k].Detected? ==>
      (log[k].matched <==> SomeEmbeds(patterns, Since(log[..k]) + [log[k].button]))
  }

  /** Progress in each pattern is its longest prefix that is a subsequence of the inputs. */
  ghost predicate Longest(patterns: seq<Pattern>, progress: seq<nat>, log: Log) {
    && |progress| == |patterns|
    && forall i, k :: 0 <= i < |patterns| && 0 <= k <= |patterns[i]| ==>
         (Embeds(patterns[i][..k], Since(log)) <==> k <= progress[i])
  }

  /** The matcher's progress after `log`. */
  ghost function ProgressAfter(initial: seq<Pattern>, log: Log): seq<nat> {
    var patterns, heard := Patterns(initial, log), Heard(initial, log);
    seq(|patterns|, i requires 0 <= i < |patterns| => Greedy(patterns[i], heard[i]))
  }

  /** The pattern begins with the same button twice. */
  predicate Doubles(p: Pattern) {
    |p| >= 2 && p[0] == p[1]
  }

  /** What is left of such a pattern after its first button contains a pattern. */
  predicate MatchSafe(patterns: seq<Pattern>) {
    forall i :: 0 <= i < |patterns| && Doubles(patterns[i]) ==> Contained(patterns, patterns[i][1..])
  }

  predicate Contained(patterns: seq<Pattern>, inputs: seq<Button>) {
    exists j :: 0 <= j < |patterns| && Greedy(patterns[j], inputs) == |patterns[j]|
  }

  /** The button of such a pattern is a pattern alone or twice. */
  predicate ProgressSafe(patterns: seq<Pattern>) {
    forall i :: 0 <= i < |patterns| && Doubles(patterns[i]) ==>
      [patterns[i][0]] in patterns || [patterns[i][0], patterns[i][0]] in patterns
  }

  // ---------------------------------------------------------------------------
  // Fixed patterns have all heard the same
  // ---------------------------------------------------------------------------

  lemma {:induction false} FixedHears(initial: seq<Pattern>, log: Log)
    requires Fixed(log)
    ensures Patterns(initial, log) == initial
    ensures Heard(initial, log) == seq(|initial|, _ => Counted(log))
    decreases |log|
  {
    hide Counted;
    if log == [] {
      NothingLogged(initial);
      NothingCounted();
    } else {
      var before, e := log[..|log| - 1], log[|log| - 1];
      FixedHears(initial, before);
      CountedMore(log);
      hide Patterns, Heard;
      HeardMore(initial, before, e);
      assert before + [e] == log;
      if e.Detected? {
        forall i | 0 <= i < |initial|
          ensures HearAll(Heard(initial, before), e.button, e.began)[i] == Counted(before) + Copies(e.button, e.began)
        {
          HeardAt(Heard(initial, before), e.button, e.began, i);
        }
      }
    }
  }

  lemma NothingCounted()
    ensures Counted([]) == [] && Since([]) == []
  {
  }

  lemma CountedMore(log: Log)
    requires log != []
    ensures var before, e := Counted(log[..|log| - 1]), log[|log| - 1];
            Counted(log)
            == if e.Detected? then (if e.matched then [] else before + Copies(e.button, e.began))
               else if e.WasReset? || (e.Ticked? && e.timedOut) then []
               else before
    ensures var before, e := Since(log[..|log| - 1]), log[|log| - 1];
            Since(log)
            == if e.Detected? then (if e.matched then [] else before + [e.button])
               else if e.WasReset? || (e.Ticked? && e.timedOut) then []
               else before
  {
  }

  lemma SomeEmbedsIff(patterns: seq<Pattern>, inputs: seq<Button>)
    ensures Contained(patterns, inputs) <==> SomeEmbeds(patterns, inputs)
  {
    hide Embeds, Greedy;
    forall i | 0 <= i < |patterns|
      ensures Greedy(patterns[i], inputs) == |patterns[i]| <==> Embeds(patterns[i], inputs)
    {
      CompleteIffEmbeds(patterns[i], inputs);
    }
  }

  lemma FinishesIffContained(patterns: seq<Pattern>, counted: seq<Button>, b: Button, began: bool)
    ensures var heard := seq(|patterns|, _ => counted);
            Finishes(patterns, HearAll(heard, b, began)) <==> Contained(patterns, counted + Copies(b, began))
  {
    hide Greedy;
    var heard := seq(|patterns|, _ => counted);
    forall i | 0 <= i < |patterns| ensures HearAll(heard, b, began)[i] == counted + Copies(b, began) {
      HeardAt(heard, b, began, i);
    }
  }

  /** While the patterns stay, an input is ignored if there is none, and only a first button begins a session. */
  lemma FixedBegins(stream: bool, threshold: int, patterns: seq<Pattern>, log: Log, k: nat)
    requires Fixed(log) && Legal(stream, threshold, patterns, log) && [] !in patterns && k < |log|
    ensures log[k].Ignored? ==> patterns == []
    ensures log[k].Detected? ==> patterns != []
    ensures log[k].Detected? ==>
              (log[k].began <==> !Open(stream, log[..k]) && exists p :: p in patterns && p[0] == log[k].button)
  {
    var before, e := log[..k], log[k];
    LegalPrefix(stream, threshold, patterns, log, k + 1);
    assert log[..k + 1][..k] == before && log[..k + 1][k] == e;
    assert LegalStep(stream, threshold, patterns, before, e);
    FixedHears(patterns, before);
    hide Legal, Patterns, Heard, Open, Finishes, TicksSince, Fixed;
    if e.Detected? && StartsAny(patterns, e.button) {
      var i :| 0 <= i < |patterns| && patterns[i] != [] && patterns[i][0] == e.button;
      assert patterns[i] in patterns;
    }
  }

  // ---------------------------------------------------------------------------
  // How far counting twice leads
  // ---------------------------------------------------------------------------

  /**
   Counting the opening input twice makes no difference to a pattern, or puts it one ahead of
   what is left of it after its first button.
   */
  ghost predicate Near(p: Pattern, since: seq<Button>, counted: seq<Button>) {
    || Greedy(p, counted) == Greedy(p, since)
    || (Doubles(p) && Greedy(p, counted) >= 2 && Greedy(p, counted) == Greedy(p[1..], since) + 1)
  }

  lemma NearMore(p: Pattern, since: seq<Button>, counted: seq<Button>, b: Button)
    requires Near(p, since, counted)
    ensures Near(p, since + [b], counted + [b])
  {
    GreedyMore(p, since, b);
    GreedyMore(p, counted, b);
    if Doubles(p) {
      GreedyMore(p[1..], since, b);
    }
  }

  lemma NearOpening(p: Pattern, since: seq<Button>, counted: seq<Button>, b: Button)
    requires p != [] && Greedy(p, counted) == 0 && Greedy(p, since) == 0
    ensures Near(p, since + [b], counted + [b, b])
  {
    hide Greedy;
    assert counted + [b, b] == (counted + [b]) + [b];
    GreedyMore(p, since, b);
    GreedyMore(p, counted, b);
    GreedyMore(p, counted + [b], b);
    if Doubles(p) {
      GreedyBegins(p, since);
      GreedyBegins(p[1..], since);
      GreedyMore(p[1..], since, b);
    }
  }

  lemma NearStep(p: Pattern, since: seq<Button>, counted: seq<Button>, b: Button, began: bool)
    requires p != [] && Near(p, since, counted)
    requires began ==> Greedy(p, counted) == 0
    ensures Near(p, since + [b], counted + Copies(b, began))
  {
    if began {
      NearOpening(p, since, counted, b);
    } else {
      NearMore(p, since, counted, b);
    }
  }

  ghost predicate AllNear(patterns: seq<Pattern>, since: seq<Button>, counted: seq<Button>) {
    forall i :: 0 <= i < |patterns| ==> Near(patterns[i], since, counted)
  }

  lemma AllNearStep(patterns: seq<Pattern>, since: seq<Button>, counted: seq<Button>, b: Button, began: bool)
    requires [] !in patterns && AllNear(patterns, since, counted)
    requires began ==> forall i :: 0 <= i < |patterns| ==> Greedy(patterns[i], counted) == 0
    ensures AllNear(patterns, since + [b], counted + Copies(b, began))
  {
    hide Near, Greedy;
    forall i | 0 <= i < |patterns| ensures Near(patterns[i], since + [b], counted + Copies(b, began)) {
      assert patterns[i] in patterns;
      NearStep(patterns[i], since, counted, b, began);
    }
  }

  /** In terms of what is counted: no pattern is complete, and none has begun while no session is open. */
  lemma FixedRests(stream: bool, threshold: int, patterns: seq<Pattern>, log: Log)
    requires Fixed(log) && Legal(stream, threshold, patterns, log) && [] !in patterns
    ensures forall i :: 0 <= i < |patterns| ==>
              && Greedy(patterns[i], Counted(log)) < |patterns[i]|
              && (!Open(stream, log) ==> Greedy(patterns[i], Counted(log)) == 0)
  {
    LegalRests(stream, threshold, patterns, log);
    FixedHears(patterns, log);
    hide Legal, Patterns, Heard, Counted, Open, Greedy;
    forall i | 0 <= i < |patterns| ensures Heard(patterns, log)[i] == Counted(log) {
    }
  }

  lemma {:induction false} LegalIsNear(stream: bool, threshold: int, patterns: seq<Pattern>, log: Log)
    requires Fixed(log) && Legal(stream, threshold, patterns, log) && [] !in patterns
    ensures AllNear(patterns, Since(log), Counted(log))
    decreases |log|
  {
    if log == [] {
      NothingCounted();
    } else {
      var before, e := log[..|log| - 1], log[|log| - 1];
      LegalIsNear(stream, threshold, patterns, before);
      FixedRests(stream, threshold, patterns, before);
      FixedHears(patterns, before);
      CountedMore(log);
      assert LegalStep(stream, threshold, patterns, before, e);
      hide Legal, Patterns, Heard, Counted, Since, Greedy, Finishes, StartsAny;
      if e.Detected? {
        hide AllNear;
        AllNearStep(patterns, Since(before), Counted(before), e.button, e.began);
      }
      hide Near;
      assert AllNear(patterns, [], []) by {
        NearAtFirst(patterns);
      }
    }
  }

  lemma NearAtFirst(patterns: seq<Pattern>)
    ensures AllNear(patterns, [], [])
  {
  }

  // ---------------------------------------------------------------------------
  // Matches
  // ---------------------------------------------------------------------------

  lemma {:induction false} Transitive<T>(p: seq<T>, q: seq<T>, s: seq<T>, f: seq<nat>, g: seq<nat>)
    requires Places(f, p, q) && Places(g, q, s)
    ensures Embeds(p, s)
  {
    var h := seq(|f|, i requires 0 <= i < |f| => g[f[i]]);
    assert Places(h, p, s);
  }

  lemma EmbedsInWhole<T>(p: seq<T>, q: seq<T>, s: seq<T>)
    requires Embeds(p, q) && Embeds(q, s)
    ensures Embeds(p, s)
  {
    var f :| Places(f, p, q);
    var g :| Places(g, q, s);
    Transitive(p, q, s, f, g);
  }

  lemma RestEmbeds(p: Pattern, s: seq<Button>)
    requires p != [] && Embeds(p, s)
    ensures Embeds(p[1..], s)
  {
    var f :| Places(f, p, s);
    assert Places(f[1..], p[1..], s);
  }

  /** Where what is left of a doubled pattern contains a pattern, being one ahead completes nothing too early. */
  lemma NearMatches(patterns: seq<Pattern>, since: seq<Button>, counted: seq<Button>)
    requires MatchSafe(patterns) && [] !in patterns && AllNear(patterns, since, counted)
    ensures Contained(patterns, counted) <==> SomeEmbeds(patterns, since)
  {
    if Contained(patterns, counted) {
      var i :| 0 <= i < |patterns| && Greedy(patterns[i], counted) == |patterns[i]|;
      AheadEmbeds(patterns, since, counted, i);
    }
    if SomeEmbeds(patterns, since) {
      var i :| 0 <= i < |patterns| && Embeds(patterns[i], since);
      assert patterns[i] in patterns;
      CompleteIffEmbeds(patterns[i], since);
      if Greedy(patterns[i], counted) != Greedy(patterns[i], since) {
        RestEmbeds(patterns[i], since);
        CompleteIffEmbeds(patterns[i][1..], since);
      }
      assert Greedy(patterns[i], counted) == |patterns[i]|;
    }
  }

  lemma AheadEmbeds(patterns: seq<Pattern>, since: seq<Button>, counted: seq<Button>, i: nat)
    requires MatchSafe(patterns) && i < |patterns| && Near(patterns[i], since, counted)
    requires Greedy(patterns[i], counted) == |patterns[i]|
    ensures SomeEmbeds(patterns, since)
  {
    var p := patterns[i];
    CompleteIffEmbeds(p, since);
    if Greedy(p, counted) != Greedy(p, since) {
      CompleteIffEmbeds(p[1..], since);
      SomeEmbedsIff(patterns, p[1..]);
      var j :| 0 <= j < |patterns| && Embeds(patterns[j], p[1..]);
      EmbedsInWhole(patterns[j], p[1..], since);
    }
  }

  lemma SafeIsFaithful(stream: bool, threshold: int, patterns: seq<Pattern>, log: Log)
    requires Fixed(log) && Legal(stream, threshold, patterns, log) && [] !in patterns && MatchSafe(patterns)
    ensures Faithful(patterns, log)
  {
    hide Fixed, Legal, MatchSafe, SomeEmbeds, Since;
    forall k | 0 <= k < |log| && log[k].Detected?
      ensures log[k].matched <==> SomeEmbeds(patterns, Since(log[..k]) + [log[k].button])
    {
      SafeMatch(stream, threshold, patterns, log, k);
    }
  }

  lemma SafeMatch(stream: bool, threshold: int, patterns: seq<Pattern>, log: Log, k: nat)
    requires Fixed(log) && Legal(stream, threshold, patterns, log) && [] !in patterns && MatchSafe(patterns)
    requires k < |log| && log[k].Detected?
    ensures log[k].matched <==> SomeEmbeds(patterns, Since(log[..k]) + [log[k].button])
  {
    var before, e := log[..k], log[k];
    LegalPrefix(stream, threshold, patterns, log, k + 1);
    assert log[..k + 1][..k] == before && log[..k + 1][k] == e;
    assert Legal(stream, threshold, patterns, before) && LegalStep(stream, threshold, patterns, before, e);
    FixedHears(patterns, before);
    FixedRests(stream, threshold, patterns, before);
    LegalIsNear(stream, threshold, patterns, before);
    hide Legal, MatchSafe, SomeEmbeds, Since, Counted, Patterns, Heard, Greedy, AllNear, Contained, Finishes;
    FinishesIffContained(patterns, Counted(before), e.button, e.began);
    AllNearStep(patterns, Since(before), Counted(before), e.button, e.began);
    NearMatches(patterns, Since(before) + [e.button], Counted(before) + Copies(e.button, e.began));
  }

  // ---------------------------------------------------------------------------
  // A run that goes wrong otherwise
  // ---------------------------------------------------------------------------

  /** What the matcher says to an input. */
  ghost function PressEntry(stream: bool, patterns: seq<Pattern>, before: Log, b: Button): Entry {
    var began := !Open(stream, before) && StartsAny(patterns, b);
    Detected(b, began, Contained(patterns, Counted(before) + Copies(b, began)))
  }

  /** What it does when inputs arrive one after the other. */
  ghost function Pressed(stream: bool, patterns: seq<Pattern>, inputs: seq<Button>): Log {
    if inputs == [] then []
    else
      var before := Pressed(stream, patterns, inputs[..|inputs| - 1]);
      before + [PressEntry(stream, patterns, before, inputs[|inputs| - 1])]
  }

  lemma PressedLast(stream: bool, patterns: seq<Pattern>, inputs: seq<Button>)
    requires inputs != []
    ensures var n := |inputs| - 1;
            var before := Pressed(stream, patterns, inputs[..n]);
            var e := PressEntry(stream, patterns, before, inputs[n]);
            Pressed(stream, patterns, inputs) == before + [e] && e.Detected? && e.button == inputs[n]
  {
    hide Open, Counted, Contained, StartsAny;
  }

  lemma PressIsLegal(stream: bool, threshold: int, patterns: seq<Pattern>, before: Log, b: Button)
    requires Fixed(before) && patterns != []
    ensures LegalStep(stream, threshold, patterns, before, PressEntry(stream, patterns, before, b))
  {
    FixedHears(patterns, before);
    var e := PressEntry(stream, patterns, before, b);
    FinishesIffContained(patterns, Counted(before), b, e.began);
    hide Patterns, Heard, Counted, Open, StartsAny, Contained, Finishes;
  }

  ghost predicate AllDetected(log: Log, inputs: seq<Button>) {
    |log| == |inputs| && forall k :: 0 <= k < |log| ==> log[k].Detected? && log[k].button == inputs[k]
  }

  lemma {:induction false} PressedIsLegal(stream: bool, threshold: int, patterns: seq<Pattern>, inputs: seq<Button>)
    requires patterns != []
    ensures var log := Pressed(stream, patterns, inputs);
            Legal(stream, threshold, patterns, log) && AllDetected(log, inputs) && Fixed(log)
    decreases |inputs|
  {
    if inputs == [] {
      NothingPressed(stream, threshold, patterns);
    } else {
      hide Pressed, PressEntry, Legal, LegalStep;
      var n := |inputs| - 1;
      var before := Pressed(stream, patterns, inputs[..n]);
      PressedIsLegal(stream, threshold, patterns, inputs[..n]);
      PressedLast(stream, patterns, inputs);
      var e := PressEntry(stream, patterns, before, inputs[n]);
      PressIsLegal(stream, threshold, patterns, before, inputs[n]);
      LegalMore(stream, threshold, patterns, before, e);
      DetectedMore(before, inputs, e);
    }
  }

  lemma NothingPressed(stream: bool, threshold: int, patterns: seq<Pattern>)
    ensures Pressed(stream, patterns, []) == []
    ensures Legal(stream, threshold, patterns, []) && AllDetected([], []) && Fixed([])
  {
  }

  lemma DetectedMore(before: Log, inputs: seq<Button>, e: Entry)
    requires inputs != [] && AllDetected(before, inputs[..|inputs| - 1])
    requires e.Detected? && e.button == inputs[|inputs| - 1]
    ensures AllDetected(before + [e], inputs) && Fixed(before + [e])
  {
    var log := before + [e];
    forall k | 0 <= k < |log| ensures log[k].Detected? && log[k].button == inputs[k] {
      if k < |before| {
        assert log[k] == before[k] && inputs[..|inputs| - 1][k] == inputs[k];
      }
    }
  }

  ghost predicate NoMatch(log: Log) {
    forall k :: 0 <= k < |log| ==> log[k].Detected? && !log[k].matched
  }

  /** As long as no match fires, only the opening input is counted twice. */
  lemma {:induction false} PressedCounts(stream: bool, patterns: seq<Pattern>, inputs: seq<Button>)
    requires inputs != [] && StartsAny(patterns, inputs[0]) && NoMatch(Pressed(stream, patterns, inputs))
    ensures var log := Pressed(stream, patterns, inputs);
            Since(log) == inputs && Counted(log) == [inputs[0]] + inputs && Open(stream, log)
    decreases |inputs|
  {
    hide StartsAny, Contained, Pressed, NoMatch, Since, Counted, Open;
    var n := |inputs| - 1;
    var before := Pressed(stream, patterns, inputs[..n]);
    PressedLast(stream, patterns, inputs);
    var e := PressEntry(stream, patterns, before, inputs[n]);
    NoMatchBefore(before, e);
    OneCount(stream, before, e);
    if n == 0 {
      NothingPressed(stream, 0, patterns);
      NothingCounted();
      NothingOpen(stream);
      assert inputs[..n] == [];
      assert inputs == [inputs[0]] && [inputs[0], inputs[0]] == [inputs[0]] + inputs;
    } else {
      PressedCounts(stream, patterns, inputs[..n]);
      assert inputs == inputs[..n] + [inputs[n]];
      assert [inputs[0]] + inputs == ([inputs[0]] + inputs[..n]) + [inputs[n]];
    }
  }

  lemma NothingOpen(stream: bool)
    ensures !Open(stream, [])
  {
  }

  lemma NoMatchBefore(before: Log, e: Entry)
    requires NoMatch(before + [e])
    ensures NoMatch(before) && e.Detected? && !e.matched
  {
    var log := before + [e];
    assert log[|before|] == e;
    forall k | 0 <= k < |before| ensures before[k].Detected? && !before[k].matched {
      assert log[k] == before[k];
    }
  }

  lemma OneCount(stream: bool, before: Log, e: Entry)
    requires e.Detected? && !e.matched
    ensures Since(before + [e]) == Since(before) + [e.button]
    ensures Counted(before + [e]) == Counted(before) + Copies(e.button, e.began)
    ensures Open(stream, before + [e]) <==> Open(stream, before) || e.began
  {
    LogMore(before, e);
  }

  lemma PrefixEmbeds<T>(p: seq<T>, s: seq<T>, n: nat)
    requires n <= |s| && Embeds(p, s[..n])
    ensures Embeds(p, s)
  {
    var f :| Places(f, p, s[..n]);
    assert Places(f, p, s);
  }

  lemma FaithfulPrefix(patterns: seq<Pattern>, before: Log, e: Entry)
    requires Faithful(patterns, before + [e])
    ensures Faithful(patterns, before)
    ensures e.Detected? ==> (e.matched <==> SomeEmbeds(patterns, Since(before) + [e.button]))
  {
    hide SomeEmbeds, Since;
    var log := before + [e];
    assert log[..|before|] == before && log[|before|] == e;
    forall k | 0 <= k < |before| && before[k].Detected?
      ensures before[k].matched <==> SomeEmbeds(patterns, Since(before[..k]) + [before[k].button])
    {
      assert log[..k] == before[..k] && log[k] == before[k];
    }
  }

  /** If matches were right, inputs that contain no pattern would not match. */
  lemma {:induction false} FaithfulIsSilent(stream: bool, patterns: seq<Pattern>, inputs: seq<Button>)
    requires inputs != [] ==> StartsAny(patterns, inputs[0])
    requires !SomeEmbeds(patterns, inputs) && Faithful(patterns, Pressed(stream, patterns, inputs))
    ensures NoMatch(Pressed(stream, patterns, inputs))
    decreases |inputs|
  {
    hide StartsAny, Contained, Faithful, Since, Pressed, PressEntry, NoMatch, SomeEmbeds;
    if inputs == [] {
      NothingPressed(stream, 0, patterns);
      NothingMatched();
    } else {
      var n := |inputs| - 1;
      var before := Pressed(stream, patterns, inputs[..n]);
      PressedLast(stream, patterns, inputs);
      var e := PressEntry(stream, patterns, before, inputs[n]);
      FaithfulPrefix(patterns, before, e);
      SomeEmbedsLess(patterns, inputs, n);
      FaithfulIsSilent(stream, patterns, inputs[..n]);
      if n > 0 {
        PressedCounts(stream, patterns, inputs[..n]);
      } else {
        NothingPressed(stream, 0, patterns);
        NothingCounted();
        assert inputs[..n] == [];
      }
      assert inputs == inputs[..n] + [inputs[n]];
      NoMatchMore(before, e);
    }
  }

  lemma NothingMatched()
    ensures NoMatch([])
  {
  }

  lemma NoMatchMore(before: Log, e: Entry)
    requires NoMatch(before) && e.Detected? && !e.matched
    ensures NoMatch(before + [e])
  {
  }

  lemma SomeEmbedsLess(patterns: seq<Pattern>, inputs: seq<Button>, n: nat)
    requires n <= |inputs|
    ensures SomeEmbeds(patterns, inputs[..n]) ==> SomeEmbeds(patterns, inputs)
  {
    if SomeEmbeds(patterns, inputs[..n]) {
      var i :| 0 <= i < |patterns| && Embeds(patterns[i], inputs[..n]);
      PrefixEmbeds(patterns[i], inputs, n);
    }
  }

  lemma EmbedsInItself<T>(p: seq<T>)
    ensures Embeds(p, p)
  {
    assert Places(seq(|p|, i requires 0 <= i < |p| => i), p, p);
  }

  /** Pressing what is left of a doubled pattern, where it contains no pattern, makes a wrong match. */
  lemma UnsafeMatch(stream: bool, threshold: int, patterns: seq<Pattern>, i: nat)
    requires [] !in patterns && i < |patterns| && Doubles(patterns[i]) && !Contained(patterns, patterns[i][1..])
    ensures !Faithful(patterns, Pressed(stream, patterns, patterns[i][1..]))
  {
    hide *;
    var inputs := patterns[i][1..];
    if Faithful(patterns, Pressed(stream, patterns, inputs)) {
      RestStarts(patterns, i);
      SomeEmbedsIff(patterns, inputs);
      FaithfulIsSilent(stream, patterns, inputs);
      SilentIsWrong(stream, threshold, patterns, i);
      assert false;
    }
  }

  lemma RestStarts(patterns: seq<Pattern>, i: nat)
    requires i < |patterns| && Doubles(patterns[i])
    ensures |patterns[i]| >= 2 && StartsAny(patterns, patterns[i][1..][0])
    ensures [patterns[i][1..][0]] + patterns[i][1..] == patterns[i]
  {
  }

  /** By then the doubled pattern itself is counted. */
  lemma SilentIsWrong(stream: bool, threshold: int, patterns: seq<Pattern>, i: nat)
    requires [] !in patterns && i < |patterns| && Doubles(patterns[i])
    ensures !NoMatch(Pressed(stream, patterns, patterns[i][1..]))
  {
    hide *;
    var p := patterns[i];
    var inputs := p[1..];
    RestStarts(patterns, i);
    if NoMatch(Pressed(stream, patterns, inputs)) {
      PressedCounts(stream, patterns, inputs);
      PressedIsLegal(stream, threshold, patterns, inputs);
      FixedRests(stream, threshold, patterns, Pressed(stream, patterns, inputs));
      EmbedsInItself(p);
      CompleteIffEmbeds(p, p);
      assert false;
    }
  }

  /** Matches are right in every run exactly if what is left of each doubled pattern contains a pattern. */
  lemma MatchesRightIff(stream: bool, threshold: int, patterns: seq<Pattern>)
    requires [] !in patterns
    ensures (forall log :: Fixed(log) && Legal(stream, threshold, patterns, log) ==> Faithful(patterns, log))
       <==> MatchSafe(patterns)
  {
    hide Fixed, Legal, Faithful, Contained, Pressed;
    if MatchSafe(patterns) {
      forall log | Fixed(log) && Legal(stream, threshold, patterns, log) ensures Faithful(patterns, log) {
        SafeIsFaithful(stream, threshold, patterns, log);
      }
    } else {
      var i :| 0 <= i < |patterns| && Doubles(patterns[i]) && !Contained(patterns, patterns[i][1..]);
      UnsafeMatch(stream, threshold, patterns, i);
      PressedIsLegal(stream, threshold, patterns, patterns[i][1..]);
    }
  }

  // ---------------------------------------------------------------------------
  // Progress
  // ---------------------------------------------------------------------------

  lemma ProgressCounts(patterns: seq<Pattern>, log: Log, i: nat)
    requires Fixed(log) && i < |patterns|
    ensures |ProgressAfter(patterns, log)| == |patterns|
    ensures ProgressAfter(patterns, log)[i] == Greedy(patterns[i], Counted(log))
  {
    FixedHears(patterns, log);
    hide Patterns, Heard, Greedy, Counted, Fixed;
  }

  /** A pattern that is one ahead has its button twice in what is counted. */
  lemma AheadIsDoubled(p: Pattern, since: seq<Button>, counted: seq<Button>)
    requires Near(p, since, counted) && Greedy(p, counted) != Greedy(p, since)
    ensures Doubles(p) && Greedy([p[0]], counted) == 1 && Greedy([p[0], p[0]], counted) == 2
  {
    var b := p[0];
    GreedyIsLongest(p, counted, 1);
    GreedyIsLongest(p, counted, 2);
    assert p[..1] == [b] && p[..2] == [b, b];
    CompleteIffEmbeds([b], counted);
    CompleteIffEmbeds([b, b], counted);
  }

  lemma SafeIsLongest(stream: bool, threshold: int, patterns: seq<Pattern>, log: Log)
    requires Fixed(log) && Legal(stream, threshold, patterns, log) && [] !in patterns && ProgressSafe(patterns)
    ensures Longest(patterns, ProgressAfter(patterns, log), log)
  {
    FixedRests(stream, threshold, patterns, log);
    LegalIsNear(stream, threshold, patterns, log);
    hide Fixed, Legal, Counted, Since, Embeds, ProgressAfter, Near, Open;
    if patterns == [] {
      NoProgress(log);
    }
    forall i, k | 0 <= i < |patterns| && 0 <= k <= |patterns[i]|
      ensures |ProgressAfter(patterns, log)| == |patterns|
      ensures Embeds(patterns[i][..k], Since(log)) <==> k <= ProgressAfter(patterns, log)[i]
    {
      ProgressCounts(patterns, log, i);
      SafeIsEqual(patterns, Since(log), Counted(log), i);
      GreedyIsLongest(patterns[i], Since(log), k);
    }
    if patterns != [] {
      ProgressCounts(patterns, log, 0);
    }
  }

  lemma NoProgress(log: Log)
    requires Fixed(log)
    ensures |ProgressAfter([], log)| == 0
  {
    FixedHears([], log);
  }

  lemma SafeIsEqual(patterns: seq<Pattern>, since: seq<Button>, counted: seq<Button>, i: nat)
    requires ProgressSafe(patterns) && i < |patterns| && Near(patterns[i], since, counted)
    requires forall j :: 0 <= j < |patterns| ==> Greedy(patterns[j], counted) < |patterns[j]|
    ensures Greedy(patterns[i], counted) == Greedy(patterns[i], since)
  {
    hide Greedy, Near;
    var p := patterns[i];
    if Doubles(p) {
      var j :| 0 <= j < |patterns| && (patterns[j] == [p[0]] || patterns[j] == [p[0], p[0]]);
      assert Greedy(patterns[j], counted) < |patterns[j]|;
    }
    if Greedy(p, counted) != Greedy(p, since) {
      AheadIsDoubled(p, since, counted);
      assert false;
    }
  }

  /** Pressing a doubled button once, where it is no pattern alone or twice, makes too much progress. */
  lemma UnsafeProgress(stream: bool, threshold: int, patterns: seq<Pattern>, i: nat)
    requires [] !in patterns && i < |patterns| && Doubles(patterns[i])
    requires var b := patterns[i][0]; [b] !in patterns && [b, b] !in patterns
    ensures var log := Pressed(stream, patterns, [patterns[i][0]]);
            !Longest(patterns, ProgressAfter(patterns, log), log)
  {
    var p := patterns[i];
    var b := p[0];
    var log := Pressed(stream, patterns, [b]);
    OnePress(stream, patterns, i);
    PressedIsLegal(stream, threshold, patterns, [b]);
    PressedCounts(stream, patterns, [b]);
    ProgressCounts(patterns, log, i);
    TwoAhead(p, b);
    assert [b] + [b] == [b, b];
    assert !(Embeds(patterns[i][..2], Since(log)) <==> 2 <= ProgressAfter(patterns, log)[i]);
    hide *;
  }

  lemma TwoAhead(p: Pattern, b: Button)
    requires Doubles(p) && p[0] == b
    ensures Greedy(p, [b, b]) == 2 && !Embeds(p[..2], [b])
  {
    GreedyMore(p, [], b);
    GreedyMore(p, [b], b);
    assert [] + [b] == [b] && [b] + [b] == [b, b];
    GreedyIsLongest(p, [b], 2);
  }

  lemma OnePress(stream: bool, patterns: seq<Pattern>, i: nat)
    requires [] !in patterns && i < |patterns| && Doubles(patterns[i])
    requires var b := patterns[i][0]; [b] !in patterns && [b, b] !in patterns
    ensures StartsAny(patterns, patterns[i][0]) && NoMatch(Pressed(stream, patterns, [patterns[i][0]]))
  {
    var b := patterns[i][0];
    var e := PressEntry(stream, patterns, [], b);
    assert patterns[i] != [] && patterns[i][0] == b;
    assert [b][..0] == [] && Pressed(stream, patterns, []) == [];
    assert Pressed(stream, patterns, [b]) == [] + [e];
    NothingCounted();
    assert e.began && Counted([]) + Copies(b, e.began) == [b, b];
    forall j | 0 <= j < |patterns| ensures Greedy(patterns[j], [b, b]) != |patterns[j]| {
      assert patterns[j] in patterns;
      if Greedy(patterns[j], [b, b]) == |patterns[j]| {
        AtMostTwo(patterns[j], b);
        assert false;
      }
    }
  }

  /** Only a button alone or twice is a subsequence of two presses of it. */
  lemma AtMostTwo(p: Pattern, b: Button)
    requires p != [] && Greedy(p, [b, b]) == |p|
    ensures p == [b] || p == [b, b]
  {
    hide Greedy;
    NothingGreedy(p);
    GreedyMore(p, [], b);
    GreedyMore(p, [b], b);
    assert [] + [b] == [b] && [b] + [b] == [b, b];
    assert |p| <= 2;
  }

  /** Progress is right in every run exactly if the button of each doubled pattern is a pattern alone or twice. */
  lemma ProgressRightIff(stream: bool, threshold: int, patterns: seq<Pattern>)
    requires [] !in patterns
    ensures (forall log :: Fixed(log) && Legal(stream, threshold, patterns, log) ==>
               Longest(patterns, ProgressAfter(patterns, log), log))
       <==> ProgressSafe(patterns)
  {
    hide Fixed, Legal, Longest, ProgressAfter, Pressed;
    if ProgressSafe(patterns) {
      forall log | Fixed(log) && Legal(stream, threshold, patterns, log)
        ensures Longest(patterns, ProgressAfter(patterns, log), log)
      {
        SafeIsLongest(stream, threshold, patterns, log);
      }
    } else {
      var i :| 0 <= i < |patterns| && Doubles(patterns[i])
               && [patterns[i][0]] !in patterns && [patterns[i][0], patterns[i][0]] !in patterns;
      UnsafeProgress(stream, threshold, patterns, i);
      PressedIsLegal(stream, threshold, patterns, [patterns[i][0]]);
    }
  }

  /** What a log of one press says. */
  lemma OnePressLog(stream: bool, threshold: int, patterns: seq<Pattern>, b: Button, log: Log)
    requires Legal(stream, threshold, patterns, log) && AnswersAll(log, [Press(b)]) && StartsAny(patterns, b)
    ensures log == [Detected(b, true, Contained(patterns, [b, b]))]
  {
    hide Legal, Contained, Finishes, Patterns, Heard, Open;
    var e := log[0];
    assert Answers(log[0], [Press(b)][0]);
    assert log == [] + [e];
    NothingPressed(stream, threshold, patterns);
    NothingCounted();
    NothingOpen(stream);
    FixedHears(patterns, []);
    LegalMore(stream, threshold, patterns, [], e);
    assert [] + Copies(b, true) == [b, b];
    if e.Detected? {
      FinishesIffContained(patterns, [], b, e.began);
    }
  }

  lemma CallsOfOne(e: Entry)
    ensures Calls([e]) == CallsOf(e)
  {
    assert [e][..0] == [];
  }

  /** For example, one press matches the pattern of its button twice, in every run that consists of it. */
  lemma RepeatedButtonMatchesAtOnce(stream: bool, threshold: int, b: Button, log: Log)
    requires Legal(stream, threshold, [[b, b]], log) && AnswersAll(log, [Press(b)])
    ensures Calls(log) == [Start, Match] && !SomeEmbeds([[b, b]], [b])
  {
    hide Legal, Calls, AnswersAll, Embeds, Greedy;
    var patterns: seq<Pattern> := [[b, b]];
    assert patterns[0] == [b, b] && patterns[0][0] == b;
    OnePressLog(stream, threshold, patterns, b, log);
    TwoAhead([b, b], b);
    assert [b, b][..2] == [b, b];
    CallsOfOne(log[0]);
  }
}
