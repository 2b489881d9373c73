/** Whole runs of the touchpad tracker, as its users drive it: begin, feed, end, emit. */
module TouchpadRuns {
  import opened Options
  import opened TouchProtocol
  import opened TouchSurface
  import opened TouchTables
  import opened Touchpad

  method FeedFrame(tracker: Tracker, frame: seq<ContactInput>)
    requires tracker.Valid() && tracker.mode == Multitouch
    requires tracker.inStep <==> !tracker.surface.clash
    modifies tracker`contacts, tracker`slots, tracker`changed, tracker`nextTrackingId, tracker`basicTid, tracker`events
    modifies tracker`handedOut, tracker`receiver, tracker`surface, tracker`inStep
    ensures tracker.Valid()
    ensures tracker.surface == FeedAll(old(tracker.surface), frame, tracker.maxSlots)
    ensures tracker.inStep <==> !tracker.surface.clash
  {
    var j := 0;
    while j < |frame|
      invariant 0 <= j <= |frame|
      invariant tracker.Valid()
      invariant tracker.surface == FeedAll(old(tracker.surface), frame[..j], tracker.maxSlots)
      invariant tracker.inStep <==> !tracker.surface.clash
    {
      hide *;
      FeedAllMore(old(tracker.surface), frame, j, tracker.maxSlots);
      ClashIsSticky(tracker.surface, frame[j], tracker.maxSlots);
      tracker.FeedContact(frame[j]);
      j := j + 1;
    }
    assert frame[..j] == frame;
  }

  lemma FeedAllMore(s: Surface, frame: seq<ContactInput>, j: nat, maxSlots: int)
    requires j < |frame|
    ensures FeedAll(s, frame[..j + 1], maxSlots) == FeedInput(FeedAll(s, frame[..j], maxSlots), frame[j], maxSlots)
  {
    assert frame[..j + 1][..j] == frame[..j];
  }

  lemma ClashIsSticky(s: Surface, c: ContactInput, maxSlots: int)
    ensures s.clash ==> FeedInput(s, c, maxSlots).clash
  {
  }

  /** One frame, emitted at its end. */
  method RunFrame(tracker: Tracker, frame: seq<ContactInput>) returns (emitted: seq<Event>)
    requires tracker.Valid() && tracker.mode == Multitouch && tracker.events == []
    requires tracker.inStep <==> !tracker.surface.clash
    modifies tracker
    ensures tracker.Valid() && tracker.events == []
    ensures tracker.past == old(tracker.past) + emitted
    ensures tracker.surface == AfterFrame(old(tracker.surface), frame, tracker.maxSlots)
    ensures tracker.inStep <==> !tracker.surface.clash
    ensures KeysFollowCount(tracker.receiver, tracker.fingerCount)
    ensures tracker.inStep ==>
              Summarizes(tracker.maxSlots, tracker.fingerCount, tracker.primary, tracker.receiver, tracker.surface)
  {
    hide FeedAll, Summarizes, Kept, Replay, ToolFor;
    tracker.BeginFrame();
    FeedFrame(tracker, frame);
    tracker.EndFrame();
    ToolAnnounces(tracker.fingerCount);
    emitted := tracker.EmitEvents();
  }

  /** What a tool key says about the number of fingers. */
  predicate Announces(tool: Option<Code>, fingers: nat) {
    match tool
    case None => fingers == 0
    case Some(BtnToolFinger) => fingers == 1
    case Some(BtnToolDoubletap) => fingers == 2
    case Some(BtnToolTripletap) => fingers == 3
    case Some(BtnToolQuadtap) => fingers >= 4
    case _ => false
  }

  /** BTN_TOUCH and the tool key are right for the finger count. */
  predicate KeysFollowCount(r: Receiver, fingerCount: nat) {
    r.touch == (fingerCount > 0) && Announces(r.tool, fingerCount)
  }

  lemma ToolAnnounces(fingers: nat)
    ensures Announces(ToolFor(fingers), fingers)
  {
  }

  /** The surface after more frames. */
  ghost function AfterMore(s: Surface, frames: seq<seq<ContactInput>>, maxSlots: int): Surface {
    if frames == [] then s
    else AfterFrame(AfterMore(s, frames[..|frames| - 1], maxSlots), frames[|frames| - 1], maxSlots)
  }

  lemma {:induction false} AfterAll(before: seq<seq<ContactInput>>, frames: seq<seq<ContactInput>>, maxSlots: int)
    ensures AfterMore(AfterFrames(before, maxSlots), frames, maxSlots) == AfterFrames(before + frames, maxSlots)
    decreases |frames|
  {
    hide AfterFrame;
    if frames == [] {
      assert before + frames == before;
    } else {
      var n := |frames| - 1;
      assert (before + frames)[..|before + frames| - 1] == before + frames[..n];
      AfterAll(before, frames[..n], maxSlots);
    }
  }

  lemma MoreOneMore(s: Surface, frames: seq<seq<ContactInput>>, i: nat, maxSlots: int)
    requires i < |frames|
    ensures AfterMore(s, frames[..i + 1], maxSlots) == AfterFrame(AfterMore(s, frames[..i], maxSlots), frames[i],
                                                                  maxSlots)
  {
    hide AfterFrame;
    assert frames[..i + 1][..i] == frames[..i];
  }

  /** A run of frames that are all emitted. */
  method RunMore(tracker: Tracker, frames: seq<seq<ContactInput>>) returns (stream: seq<Event>)
    requires tracker.Valid() && tracker.mode == Multitouch && tracker.events == []
    requires tracker.inStep <==> !tracker.surface.clash
    modifies tracker
    ensures tracker.Valid() && tracker.events == [] && tracker.past == old(tracker.past) + stream
    ensures tracker.surface == AfterMore(old(tracker.surface), frames, tracker.maxSlots)
    ensures tracker.inStep <==> !tracker.surface.clash
    ensures frames != [] ==> KeysFollowCount(tracker.receiver, tracker.fingerCount)
    ensures frames == [] ==>
              tracker.receiver == old(tracker.receiver) && tracker.fingerCount == old(tracker.fingerCount)
    ensures frames != [] && tracker.inStep ==>
              Summarizes(tracker.maxSlots, tracker.fingerCount, tracker.primary, tracker.receiver, tracker.surface)
  {
    hide Summarizes, Replay, AfterFrame, KeysFollowCount, Kept;
    stream := [];
    var i := 0;
    while i < |frames|
      invariant 0 <= i <= |frames|
      invariant tracker.Valid() && tracker.events == [] && tracker.past == old(tracker.past) + stream
      invariant tracker.surface == AfterMore(old(tracker.surface), frames[..i], tracker.maxSlots)
      invariant tracker.inStep <==> !tracker.surface.clash
      invariant i > 0 ==> KeysFollowCount(tracker.receiver, tracker.fingerCount)
      invariant i == 0 ==>
                  tracker.receiver == old(tracker.receiver) && tracker.fingerCount == old(tracker.fingerCount)
      invariant i > 0 && tracker.inStep ==>
                  Summarizes(tracker.maxSlots, tracker.fingerCount, tracker.primary, tracker.receiver, tracker.surface)
    {
      MoreOneMore(old(tracker.surface), frames, i, tracker.maxSlots);
      var emitted := RunFrame(tracker, frames[i]);
      stream := stream + emitted;
      i := i + 1;
    }
    assert frames[..i] == frames;
  }

  /** A new tracker, after a run of frames that were all emitted. */
  method RunTracker(maxSlots: int, frames: seq<seq<ContactInput>>, ghost start: Receiver)
    returns (tracker: Tracker, stream: seq<Event>)
    requires Idle(start)
    ensures fresh(tracker) && tracker.Valid()
    ensures tracker.mode == Multitouch && tracker.maxSlots == maxSlots && tracker.start == start
    ensures tracker.events == [] && tracker.past == stream
    ensures tracker.surface == AfterFrames(frames, maxSlots)
    ensures tracker.inStep <==> !tracker.surface.clash
    ensures frames != [] ==> KeysFollowCount(tracker.receiver, tracker.fingerCount)
    ensures frames != [] && tracker.inStep ==>
              Summarizes(maxSlots, tracker.fingerCount, tracker.primary, tracker.receiver, tracker.surface)
  {
    hide *;
    NoFrames(maxSlots);
    tracker := new Tracker(Multitouch, maxSlots, start);
    AfterAll([], frames, maxSlots);
    assert [] + frames == frames;
    stream := RunMore(tracker, frames);
  }

  lemma NoFrames(maxSlots: int)
    ensures AfterFrames([], maxSlots) == EMPTY && !EMPTY.clash
  {
  }

  /**
   Whatever receiver listens to the emitted stream, and in whatever order the tracker visits
   its tables: no tool key is ever pressed while one is down or released while it is up, and
   BTN_TOUCH and the tool key are those of the finger count.  Unless ids clash, after the last
   frame that receiver has exactly the fingers that have touched, each with its id and last
   touching position, and the keys, axes and counts belong to the fingers that are touching.
   */
  method RunFrames(maxSlots: int, frames: seq<seq<ContactInput>>, ghost start: Receiver)
    returns (stream: seq<Event>, fingerCount: nat, primary: Option<int>)
    requires Idle(start)
    ensures !Replay(start, stream).fault
    ensures !AfterFrames(frames, maxSlots).clash && frames != [] ==>
              var r, s := Replay(start, stream), AfterFrames(frames, maxSlots);
              && fingerCount == |TouchingSlots(s)| && r.touch == (fingerCount > 0)
              && (primary.None? ==> fingerCount == 0)
              && (primary.Some? ==>
                    && primary.value in TouchingSlots(s)
                    && (forall slot :: slot in TouchingSlots(s) ==> primary.value <= slot)
                    && r.x == s.fingers[primary.value].x && r.y == s.fingers[primary.value].y)
    ensures frames != [] ==> KeysFollowCount(Replay(start, stream), fingerCount)
    ensures !AfterFrames(frames, maxSlots).clash ==>
              Replay(start, stream).slots == OnReceiver(AfterFrames(frames, maxSlots).fingers)
    ensures !AfterFrames(frames, maxSlots).clash && frames != [] ==>
              Summarizes(maxSlots, fingerCount, primary, Replay(start, stream), AfterFrames(frames, maxSlots))
  {
    hide Summarizes, Replay, AfterFrames, KeysFollowCount;
    var tracker;
    tracker, stream := RunTracker(maxSlots, frames, start);
    assert tracker.past + tracker.events == stream;
    fingerCount, primary := tracker.fingerCount, tracker.primary;
    if !tracker.surface.clash && frames != [] {
      SummaryTells(maxSlots, fingerCount, primary, tracker.receiver, tracker.surface);
    }
  }

  lemma SummaryTells(maxSlots: int, fingerCount: nat, primary: Option<int>, r: Receiver, s: Surface)
    requires Summarizes(maxSlots, fingerCount, primary, r, s)
    ensures fingerCount == |TouchingSlots(s)| && r.touch == (fingerCount > 0)
    ensures primary.None? ==> fingerCount == 0
    ensures primary.Some? ==>
              && primary.value in TouchingSlots(s)
              && (forall slot :: slot in TouchingSlots(s) ==> primary.value <= slot)
              && r.x == s.fingers[primary.value].x && r.y == s.fingers[primary.value].y
  {
  }

  // ---------------------------------------------------------------------------
  // After a clash
  // ---------------------------------------------------------------------------

  /** A frame in which nothing is fed leaves nothing behind, whatever was there before. */
  method Pause(tracker: Tracker) returns (emitted: seq<Event>)
    requires tracker.Valid() && tracker.mode == Multitouch && tracker.events == []
    modifies tracker
    ensures tracker.Valid() && tracker.events == [] && tracker.past == old(tracker.past) + emitted
    ensures tracker.contacts == map[] && tracker.slots == map[] && tracker.receiver.slots == map[]
    ensures tracker.inStep && tracker.surface == Surface(map[], tracker.handedOut, false)
    ensures old(tracker.inStep) ==> tracker.surface == AfterFrame(old(tracker.surface), [], tracker.maxSlots)
  {
    hide Kept, Replay, Summarizes, KeepContacts, Marked, Unseen, ToolFor;
    AllEnded(tracker.contacts);
    NothingFed(tracker.surface, tracker.maxSlots);
    tracker.BeginFrame();
    tracker.EndFrame();
    NothingKept(tracker.mode, tracker.maxSlots, tracker.slots, tracker.basicTid, tracker.receiver.slots,
                tracker.handedOut, tracker.surface, tracker.inStep);
    tracker.Renumber();
    emitted := tracker.EmitEvents();
  }

  lemma NothingFed(s: Surface, maxSlots: int)
    ensures AfterFrame(s, [], maxSlots) == EndFrame(BeginFrame(s))
  {
  }

  lemma {:induction false} ClashStays(s: Surface, frames: seq<seq<ContactInput>>, maxSlots: int)
    requires s.clash
    ensures AfterMore(s, frames, maxSlots).clash
    decreases |frames|
  {
    if frames != [] {
      var n := |frames| - 1;
      ClashStays(s, frames[..n], maxSlots);
      ClashStaysInFrame(BeginFrame(AfterMore(s, frames[..n], maxSlots)), frames[n], maxSlots);
    }
  }

  lemma {:induction false} ClashStaysInFrame(s: Surface, frame: seq<ContactInput>, maxSlots: int)
    requires s.clash
    ensures FeedAll(s, frame, maxSlots).clash
    decreases |frame|
  {
    if frame != [] {
      var n := |frame| - 1;
      ClashStaysInFrame(s, frame[..n], maxSlots);
      ClashIsSticky(FeedAll(s, frame[..n], maxSlots), frame[n], maxSlots);
    }
  }

  /**
   A run with a frame in which nothing is fed: whatever clashed before it, from there on the
   receiver is in step with the reference again, which goes on counting fingers from some number;
   and where nothing clashed, that is the number it had.
   */
  method RunAfterPause(maxSlots: int, before: seq<seq<ContactInput>>, after: seq<seq<ContactInput>>,
                       ghost start: Receiver)
    returns (stream: seq<Event>, fingerCount: nat, primary: Option<int>, ghost begun: nat)
    requires Idle(start)
    ensures !Replay(start, stream).fault
    ensures after != [] ==> KeysFollowCount(Replay(start, stream), fingerCount)
    ensures var s := AfterMore(Surface(map[], begun, false), after, maxSlots);
            !s.clash ==>
              && Replay(start, stream).slots == OnReceiver(s.fingers)
              && (after != [] ==> Summarizes(maxSlots, fingerCount, primary, Replay(start, stream), s))
    ensures var s := AfterFrames(before + [[]] + after, maxSlots);
            !s.clash ==> s == AfterMore(Surface(map[], begun, false), after, maxSlots)
  {
    hide Summarizes, Replay, AfterFrames, AfterFrame, AfterMore, KeysFollowCount;
    var tracker;
    tracker, stream := RunTracker(maxSlots, before, start);
    ghost var s := tracker.surface;
    var emitted := Pause(tracker);
    begun := tracker.handedOut;
    PauseInRun(before, after, maxSlots, s, tracker.surface);
    var rest := RunMore(tracker, after);
    stream := (stream + emitted) + rest;
    assert tracker.past + tracker.events == stream;
    fingerCount, primary := tracker.fingerCount, tracker.primary;
  }

  lemma PauseInRun(before: seq<seq<ContactInput>>, after: seq<seq<ContactInput>>, maxSlots: int, s: Surface, t: Surface)
    requires s == AfterFrames(before, maxSlots) && (!s.clash ==> t == AfterFrame(s, [], maxSlots))
    ensures var whole := AfterFrames(before + [[]] + after, maxSlots);
            !whole.clash ==> whole == AfterMore(t, after, maxSlots)
  {
    var pause: seq<seq<ContactInput>> := [[]];
    AfterAll(before + pause, after, maxSlots);
    AfterAppending(before, pause[0], maxSlots);
    hide AfterFrames, AfterFrame;
    if s.clash {
      AfterAll(before, pause, maxSlots);
      ClashStays(s, pause, maxSlots);
      ClashStays(AfterFrames(before + pause, maxSlots), after, maxSlots);
    }
  }

  // ---------------------------------------------------------------------------
  // Basic mode
  // ---------------------------------------------------------------------------

  /** A frame with one contact in basic mode: one finger if it touches, and none otherwise. */
  method BasicFrame(tracker: Tracker, contact: ContactInput) returns (emitted: seq<Event>)
    requires tracker.Valid() && tracker.mode == Basic && tracker.events == []
    requires contact.x.Some? && contact.y.Some?
    modifies tracker
    ensures tracker.Valid() && tracker.events == [] && tracker.past == old(tracker.past) + emitted
    ensures tracker.fingerCount == if contact.touching == Some(true)
                                      || (contact.touching == None && (contact.x != Some(0) || contact.y != Some(0)))
                                   then 1 else 0
    ensures KeysFollowCount(tracker.receiver, tracker.fingerCount)
    ensures tracker.fingerCount == 1 ==>
              tracker.receiver.x == contact.x.value && tracker.receiver.y == contact.y.value
  {
    hide Kept, Replay, ToolFor, BasicSummary;
    tracker.BeginFrame();
    tracker.FeedContact(contact);
    ghost var before := tracker.contacts;
    tracker.EndFrame();
    OneContact(before, tracker.contacts, tracker.basicTid, contact, tracker.fingerCount, tracker.receiver);
    ToolAnnounces(tracker.fingerCount);
    emitted := tracker.EmitEvents();
  }

  lemma OneContact(before: Contacts, after: Contacts, tid: Option<int>, contact: ContactInput, fingerCount: nat,
                   r: Receiver)
    requires contact.x.Some? && contact.y.Some? && tid.Some?
    requires before == map[tid.value := Contact(tid.value, contact.x.value, contact.y.value, Touching(contact),
                             contact.pressure, contact.palm, true, false)]
    requires BasicSummary(fingerCount, before, after, tid, r)
    ensures fingerCount == if contact.touching == Some(true)
                              || (contact.touching == None && (contact.x != Some(0) || contact.y != Some(0)))
                           then 1 else 0
    ensures fingerCount == 1 ==> r.x == contact.x.value && r.y == contact.y.value
  {
    BasicCount(after, tid);
  }

  // ---------------------------------------------------------------------------
  // What the reference says about single slots
  // ---------------------------------------------------------------------------

  /** The last sample of the frame for a slot, if there is one. */
  function LastSample(frame: seq<ContactInput>, maxSlots: int, slot: int): Option<Sample>
    decreases |frame|
  {
    if frame == [] then None
    else
      var n := |frame| - 1;
      var d := Decode(frame[n], maxSlots);
      if d.Some? && d.value.slot == slot then d else LastSample(frame[..n], maxSlots, slot)
  }

  lemma {:induction false} FeedAllSlot(s: Surface, frame: seq<ContactInput>, maxSlots: int, slot: int)
    ensures var f, d := FeedAll(s, frame, maxSlots).fingers, LastSample(frame, maxSlots, slot);
            if d.None? then
              (slot in f <==> slot in s.fingers) && (slot in f ==> f[slot] == s.fingers[slot])
            else
              && slot in f && f[slot].fed
              && f[slot].x == d.value.x && f[slot].y == d.value.y && f[slot].touching == d.value.touching
              && (d.value.touching ==> f[slot].shown == Some(Position(d.value.x, d.value.y)))
              && (slot in s.fingers ==> f[slot].birth == s.fingers[slot].birth)
    decreases |frame|
  {
    if frame != [] {
      FeedAllSlot(s, frame[..|frame| - 1], maxSlots, slot);
    }
  }

  /**
   After a frame a finger is in a slot exactly if the frame had a sample for it; it stands
   where the last of them says, and is the finger that was there before, if one was.
   */
  lemma FrameTellsSlot(s: Surface, frame: seq<ContactInput>, maxSlots: int, slot: int)
    ensures var f, d := AfterFrame(s, frame, maxSlots).fingers, LastSample(frame, maxSlots, slot);
            && (slot in f <==> d.Some?)
            && (slot in f ==>
                  && f[slot].x == d.value.x && f[slot].y == d.value.y && f[slot].touching == d.value.touching
                  && (d.value.touching ==> f[slot].shown == Some(Position(d.value.x, d.value.y)))
                  && (slot in s.fingers ==> f[slot].birth == s.fingers[slot].birth))
  {
    FeedAllSlot(BeginFrame(s), frame, maxSlots, slot);
  }

  /** A contact fed last as touching is on the receiver, with its id and position. */
  lemma TouchingIsShown(frames: seq<seq<ContactInput>>, maxSlots: int, slot: int)
    requires frames != []
    requires var d := LastSample(frames[|frames| - 1], maxSlots, slot); d.Some? && d.value.touching
    ensures var d, s := LastSample(frames[|frames| - 1], maxSlots, slot).value, AfterFrames(frames, maxSlots);
            && slot in s.fingers
            && slot in OnReceiver(s.fingers)
            && OnReceiver(s.fingers)[slot] == Touch(TrackingId(s.fingers[slot].birth), d.x, d.y)
  {
    var n := |frames| - 1;
    FrameTellsSlot(AfterFrames(frames[..n], maxSlots), frames[n], maxSlots, slot);
  }

  /** The contact is for `slot`; one without a slot is for slot 0. */
  predicate IsFor(c: ContactInput, slot: int) {
    if c.slot.Some? then slot as real <= c.slot.value < slot as real + 1.0 else slot == 0
  }

  /** The contact at `j` is the last one of the frame for `slot` that has both coordinates. */
  predicate LastFor(frame: seq<ContactInput>, j: nat, slot: int) {
    && j < |frame| && frame[j].x.Some? && frame[j].y.Some? && IsFor(frame[j], slot)
    && forall k :: j < k < |frame| && IsFor(frame[k], slot) ==> frame[k].x.None? || frame[k].y.None?
  }

  lemma {:induction false} LastForIsSample(frame: seq<ContactInput>, maxSlots: int, j: nat, slot: int)
    requires LastFor(frame, j, slot) && 0 <= slot < maxSlots
    ensures LastSample(frame, maxSlots, slot) == Decode(frame[j], maxSlots)
    ensures Decode(frame[j], maxSlots).Some? && Decode(frame[j], maxSlots).value.slot == slot
    decreases |frame|
  {
    var n := |frame| - 1;
    SlotIs(frame[j], slot);
    if j < n {
      SlotIs(frame[n], slot);
      assert frame[..n][j] == frame[j];
      LastForIsSample(frame[..n], maxSlots, j, slot);
    }
  }

  lemma SlotIs(c: ContactInput, slot: int)
    ensures IsFor(c, slot) <==> SlotOf(c) == slot
  {
  }

  /**
   What a frame's last contact for a slot says, in terms of what the caller passes: the finger is
   there, and touches if the caller says so or, where the caller does not say, unless it is at (0, 0).
   A finger that touches counts, and is on the receiver with its coordinates.
   */
  lemma LastContactTells(frames: seq<seq<ContactInput>>, maxSlots: int, j: nat, slot: int)
    requires frames != [] && LastFor(frames[|frames| - 1], j, slot) && 0 <= slot < maxSlots
    ensures var c, s := frames[|frames| - 1][j], AfterFrames(frames, maxSlots);
            && slot in s.fingers && s.fingers[slot].x == c.x.value && s.fingers[slot].y == c.y.value
            && (slot in TouchingSlots(s) <==>
                  c.touching == Some(true) || (c.touching == None && (c.x != Some(0) || c.y != Some(0))))
            && (slot in TouchingSlots(s) ==>
                  && slot in OnReceiver(s.fingers)
                  && OnReceiver(s.fingers)[slot] == Touch(TrackingId(s.fingers[slot].birth), c.x.value, c.y.value))
  {
    var n := |frames| - 1;
    LastForIsSample(frames[n], maxSlots, j, slot);
    FrameTellsSlot(AfterFrames(frames[..n], maxSlots), frames[n], maxSlots, slot);
    hide AfterFrame, LastSample, LastFor;
  }

  // ---------------------------------------------------------------------------
  // When ids do not clash
  // ---------------------------------------------------------------------------

  ghost predicate Ordered(s: Surface) {
    forall slot :: slot in s.fingers ==> s.fingers[slot].birth < s.begun
  }

  /** Fewer than 65535 ids were handed out since the oldest finger that is down began. */
  ghost predicate Recent(s: Surface) {
    forall slot :: slot in s.fingers ==> s.begun - s.fingers[slot].birth < ID_COUNT
  }

  lemma RecentDoesNotClash(s: Surface, c: ContactInput, maxSlots: int)
    requires Ordered(s) && Recent(s)
    ensures !Clashes(s)
    ensures FeedInput(s, c, maxSlots).clash == s.clash && Ordered(FeedInput(s, c, maxSlots))
  {
    forall slot | slot in s.fingers ensures (s.begun - s.fingers[slot].birth) % ID_COUNT != 0 {
      assert 0 < s.begun - s.fingers[slot].birth < ID_COUNT;
    }
  }

  /** `Recent` holds before each contact of the frame is fed. */
  ghost predicate RecentInFrame(s: Surface, frame: seq<ContactInput>, maxSlots: int) {
    forall j :: 0 <= j < |frame| ==> Recent(FeedAll(s, frame[..j], maxSlots))
  }

  ghost predicate RecentThroughout(frames: seq<seq<ContactInput>>, maxSlots: int) {
    forall i :: 0 <= i < |frames| ==> RecentInFrame(BeginFrame(AfterFrames(frames[..i], maxSlots)), frames[i], maxSlots)
  }

  lemma {:induction false} RecentFrame(s: Surface, frame: seq<ContactInput>, maxSlots: int)
    requires Ordered(s) && RecentInFrame(s, frame, maxSlots)
    ensures FeedAll(s, frame, maxSlots).clash == s.clash && Ordered(FeedAll(s, frame, maxSlots))
    decreases |frame|
  {
    if frame != [] {
      var n := |frame| - 1;
      forall j | 0 <= j < n ensures Recent(FeedAll(s, frame[..n][..j], maxSlots)) {
        assert frame[..n][..j] == frame[..j];
      }
      RecentFrame(s, frame[..n], maxSlots);
      RecentDoesNotClash(FeedAll(s, frame[..n], maxSlots), frame[n], maxSlots);
    }
  }

  /** If that holds throughout a run, no two fingers that are down ever share an id. */
  lemma {:induction false} RecentRun(frames: seq<seq<ContactInput>>, maxSlots: int)
    requires RecentThroughout(frames, maxSlots)
    ensures !AfterFrames(frames, maxSlots).clash && Ordered(AfterFrames(frames, maxSlots))
    decreases |frames|
  {
    if frames != [] {
      var n := |frames| - 1;
      forall i | 0 <= i < n
        ensures RecentInFrame(BeginFrame(AfterFrames(frames[..n][..i], maxSlots)), frames[..n][i], maxSlots)
      {
        assert frames[..n][..i] == frames[..i];
      }
      RecentRun(frames[..n], maxSlots);
      RecentFrame(BeginFrame(AfterFrames(frames[..n], maxSlots)), frames[n], maxSlots);
    }
  }

  // ---------------------------------------------------------------------------
  // A run in which ids do clash
  // ---------------------------------------------------------------------------

  const HELD := ContactInput(Some(0.0), Some(1), Some(1), Some(true), None, None)
  const TAP := ContactInput(Some(1.0), Some(2), Some(2), Some(true), None, None)

  /** One finger rests in slot 0 while another taps `n` times in slot 1. */
  function Taps(n: nat): seq<seq<ContactInput>> {
    if n == 0 then [[HELD]] else Taps(n - 1) + [[HELD, TAP]] + [[HELD]]
  }

  lemma FeedHeld(s: Surface)
    ensures FeedAll(s, [HELD], 2) == Feed(s, Sample(0, 1, 1, true))
    ensures FeedAll(s, [HELD, TAP], 2) == Feed(Feed(s, Sample(0, 1, 1, true)), Sample(1, 2, 2, true))
  {
    hide Feed;
    assert [HELD, TAP][..1] == [HELD] && [HELD][..0] == [];
    assert Decode(HELD, 2) == Some(Sample(0, 1, 1, true)) && Decode(TAP, 2) == Some(Sample(1, 2, 2, true));
    assert FeedAll(s, [], 2) == s;
    assert FeedAll(s, [HELD], 2) == FeedInput(s, HELD, 2);
    assert FeedAll(s, [HELD, TAP], 2) == FeedInput(FeedAll(s, [HELD], 2), TAP, 2);
  }

  lemma HeldFrame(s: Surface)
    requires 0 in s.fingers
    ensures var t := AfterFrame(s, [HELD], 2);
            && t.fingers.Keys == {0} && t.fingers[0].birth == s.fingers[0].birth
            && t.begun == s.begun && t.clash == s.clash
  {
    hide FeedAll;
    FeedHeld(BeginFrame(s));
  }

  lemma TapFrame(s: Surface)
    requires s.fingers.Keys == {0}
    ensures var t := AfterFrame(s, [HELD, TAP], 2);
            && 0 in t.fingers && t.fingers[0].birth == s.fingers[0].birth
            && t.begun == s.begun + 1
            && (t.clash <==> s.clash || (s.begun - s.fingers[0].birth) % ID_COUNT == 0)
  {
    hide FeedAll;
    var u := BeginFrame(s);
    FeedHeld(u);
    var v := Feed(u, Sample(0, 1, 1, true));
    assert v.fingers.Keys == {0} && v.fingers[0].birth == s.fingers[0].birth && v.begun == s.begun;
    assert Clashes(v) <==> (v.begun - v.fingers[0].birth) % ID_COUNT == 0 by {
      if (v.begun - v.fingers[0].birth) % ID_COUNT == 0 {
        assert 0 in v.fingers;
      }
    }
  }

  lemma AfterAppending(frames: seq<seq<ContactInput>>, f: seq<ContactInput>, maxSlots: int)
    ensures AfterFrames(frames + [f], maxSlots) == AfterFrame(AfterFrames(frames, maxSlots), f, maxSlots)
  {
    assert (frames + [f])[..|frames|] == frames;
  }

  /** What the surface is after `n` taps. */
  ghost predicate Tapped(s: Surface, n: nat) {
    && s.fingers.Keys == {0} && s.fingers[0].birth == 0 && s.begun == n + 1
    && (s.clash <==> n >= 65535)
  }

  lemma OneTap(s: Surface, n: nat)
    requires Tapped(s, n)
    ensures Tapped(AfterFrame(AfterFrame(s, [HELD, TAP], 2), [HELD], 2), n + 1)
  {
    hide AfterFrame;
    TapFrame(s);
    HeldFrame(AfterFrame(s, [HELD, TAP], 2));
  }

  /** Each tap is a new finger; the run clashes from the 65535th tap on. */
  lemma {:induction false} AfterTaps(n: nat)
    ensures Tapped(AfterFrames(Taps(n), 2), n)
  {
    hide AfterFrame, AfterFrames, Tapped;
    if n == 0 {
      FirstFrame();
    } else {
      var earlier := Taps(n - 1);
      AfterTaps(n - 1);
      OneTap(AfterFrames(earlier, 2), n - 1);
      AfterAppending(earlier, [HELD, TAP], 2);
      AfterAppending(earlier + [[HELD, TAP]], [HELD], 2);
    }
  }

  lemma FirstFrame()
    ensures Tapped(AfterFrames([[HELD]], 2), 0)
  {
    hide FeedAll;
    assert [[HELD]][..0] == [];
    assert AfterFrames([], 2) == EMPTY;
    FeedHeld(BeginFrame(EMPTY));
    assert !Clashes(BeginFrame(EMPTY));
  }

  /** With the 65535th tap two slots have the same id. */
  method ClashHappens() returns (tracker: Tracker)
    ensures fresh(tracker) && tracker.Valid() && tracker.mode == Multitouch && tracker.maxSlots == 2
    ensures tracker.surface
         == FeedInput(FeedInput(BeginFrame(AfterFrames(Taps(ID_COUNT - 1), 2)), HELD, 2), TAP, 2)
    ensures SharedId(tracker.slots)
  {
    hide AfterFrames, FeedInput, FeedAll, Summarizes, KeysFollowCount, Kept, Taps, Tapped, SharedId, Replay;
    ghost var start := Receiver(0, map[], false, None, 0, 0, false);
    var stream;
    tracker, stream := RunTracker(2, Taps(ID_COUNT - 1), start);
    AfterTaps(ID_COUNT - 1);
    ghost var s := tracker.surface;
    tracker.BeginFrame();
    ghost var u := tracker.surface;
    LastTap(s);
    tracker.FeedContact(HELD);
    tracker.FeedContact(TAP);
  }

  lemma LastTap(s: Surface)
    requires Tapped(s, ID_COUNT - 1)
    ensures var t := FeedInput(BeginFrame(s), HELD, 2); !s.clash && !t.clash && FeedInput(t, TAP, 2).clash
  {
    assert Decode(HELD, 2) == Some(Sample(0, 1, 1, true)) && Decode(TAP, 2) == Some(Sample(1, 2, 2, true));
    var t := Feed(BeginFrame(s), Sample(0, 1, 1, true));
    assert 0 in t.fingers && (t.begun - t.fingers[0].birth) % ID_COUNT == 0;
  }
}
