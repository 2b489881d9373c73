/**
 The reference for the touchpad tracker: which fingers are on the surface, frame by
 frame, straight from the contacts that are fed.  It knows nothing of tracking ids,
 of deferred cleanup or of events.
 */
module TouchSurface {
  import opened Options

  const ID_COUNT: nat := 65535

  /** What a caller passes for one contact; an absent field is `None`. */
  datatype ContactInput = ContactInput(
    slot: Option<real>,
    x: Option<int>,
    y: Option<int>,
    touching: Option<bool>,
    pressure: Option<int>,
    palm: Option<bool>)

  /** A contact that passed the tracker's checks. */
  datatype Sample = Sample(slot: int, x: int, y: int, touching: bool)

  function Touching(c: ContactInput): bool
    requires c.x.Some? && c.y.Some?
  {
    if c.touching.Some? then c.touching.value else !(c.x.value == 0 && c.y.value == 0)
  }

  function SlotOf(c: ContactInput): int {
    if c.slot.Some? then c.slot.value.Floor else 0
  }

  /** The sample a multitouch tracker takes from a contact, if any. */
  function Decode(c: ContactInput, maxSlots: int): Option<Sample> {
    if c.x.None? || c.y.None? then None
    else if SlotOf(c) < 0 || SlotOf(c) >= maxSlots then None
    else Some(Sample(SlotOf(c), c.x.value, c.y.value, Touching(c)))
  }

  datatype Position = Position(x: int, y: int)

  /**
   A finger in a slot: the how-manieth finger of the run it is, its last sample, where it
   last touched (if it ever did), and whether it was fed in the current frame.
   */
  datatype Finger = Finger(birth: nat, x: int, y: int, touching: bool, shown: Option<Position>, fed: bool)

  /**
   `clash` records that at some point a finger arrived while another one was down that was
   begun a multiple of 65535 fingers earlier.
   */
  datatype Surface = Surface(fingers: map<int, Finger>, begun: nat, clash: bool)

  const EMPTY := Surface(map[], 0, false)

  ghost predicate Clashes(s: Surface) {
    exists slot :: slot in s.fingers && (s.begun - s.fingers[slot].birth) % ID_COUNT == 0
  }

  ghost function BeginFrame(s: Surface): Surface {
    s.(fingers := map slot | slot in s.fingers :: s.fingers[slot].(fed := false))
  }

  ghost function Feed(s: Surface, a: Sample): Surface {
    if a.slot in s.fingers then
      var f := s.fingers[a.slot];
      s.(fingers := s.fingers[a.slot :=
        Finger(f.birth, a.x, a.y, a.touching, if a.touching then Some(Position(a.x, a.y)) else f.shown, true)])
    else
      Surface(
        s.fingers[a.slot :=
          Finger(s.begun, a.x, a.y, a.touching, if a.touching then Some(Position(a.x, a.y)) else None, true)],
        s.begun + 1,
        s.clash || Clashes(s))
  }

  ghost function FeedInput(s: Surface, c: ContactInput, maxSlots: int): Surface {
    match Decode(c, maxSlots)
    case None => s
    case Some(a) => Feed(s, a)
  }

  /** Fingers that were not fed in the frame are gone. */
  ghost function EndFrame(s: Surface): Surface {
    s.(fingers := map slot | slot in s.fingers && s.fingers[slot].fed :: s.fingers[slot])
  }

  ghost function FeedAll(s: Surface, frame: seq<ContactInput>, maxSlots: int): Surface {
    if frame == [] then s
    else FeedInput(FeedAll(s, frame[..|frame| - 1], maxSlots), frame[|frame| - 1], maxSlots)
  }

  ghost function AfterFrame(s: Surface, frame: seq<ContactInput>, maxSlots: int): Surface {
    EndFrame(FeedAll(BeginFrame(s), frame, maxSlots))
  }

  /** The surface after a whole run of frames. */
  ghost function AfterFrames(frames: seq<seq<ContactInput>>, maxSlots: int): Surface {
    if frames == [] then EMPTY
    else AfterFrame(AfterFrames(frames[..|frames| - 1], maxSlots), frames[|frames| - 1], maxSlots)
  }

  /** The tracking id of the `k`-th finger of a run, counting from zero. */
  function TrackingId(k: nat): (id: int)
    ensures 1 <= id <= ID_COUNT
  {
    k % ID_COUNT + 1
  }

  /** The ids follow each other, from the last one back to the first. */
  lemma NextTrackingId(k: nat)
    ensures TrackingId(k + 1) == TrackingId(k) % ID_COUNT + 1
  {
    NextRemainder(k);
  }

  /** They go from 1 to 65535 and start again. */
  lemma IdsInOrder(k: nat)
    ensures TrackingId(k) == if k < 65535 then k + 1 else TrackingId(k - 65535)
  {
  }

  lemma NextRemainder(k: nat)
    ensures (k + 1) % ID_COUNT == (k % ID_COUNT + 1) % ID_COUNT
  {
    var r := k % ID_COUNT;
    assert k == ID_COUNT * (k / ID_COUNT) + r;
  }

  /** The slots whose finger is touching. */
  ghost function TouchingSlots(s: Surface): set<int> {
    set slot | slot in s.fingers && s.fingers[slot].touching
  }
}
