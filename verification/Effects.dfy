/** Force-feedback effects, as the kernel's `ff_effect` describes them. */
module Effects {

  datatype Envelope = Envelope(attackLength: nat, attackLevel: nat, fadeLength: nat, fadeLevel: nat)

  datatype Force =
    | Rumble(strong: nat, weak: nat)
    | Periodic(waveform: nat, period: nat, magnitude: int, offset: int, phase: nat, envelope: Envelope)
    | Constant(level: int, envelope: Envelope)
    | Other(code: nat)  // a type of effect this program does not know

  datatype Kind = RumbleKind | PeriodicKind | ConstantKind | OtherKind(code: nat)

  datatype FfEffect = FfEffect(id: int, direction: nat, length: nat, delay: nat, button: nat, interval: nat,
                               force: Force)

  const DEFAULT_MAGNITUDE := 0x4000
  const DEFAULT_LENGTH := 250

  function KindOf(eff: FfEffect): Kind {
    match eff.force
    case Rumble(_, _) => RumbleKind
    case Periodic(_, _, _, _, _, _) => PeriodicKind
    case Constant(_, _) => ConstantKind
    case Other(code) => OtherKind(code)
  }

  /** Two effects that feel the same: they differ in their ids at most. */
  predicate Same(a: FfEffect, b: FfEffect) {
    a.(id := -1) == b.(id := -1)
  }

  /** The source's own copy of an uploaded effect; a type it does not know becomes a default rumble. */
  function RebuildEffect(src: FfEffect): FfEffect {
    match src.force
    case Other(_) =>
      src.(id := -1,
           force := Rumble(DEFAULT_MAGNITUDE, DEFAULT_MAGNITUDE),
           length := if src.length != 0 then src.length else DEFAULT_LENGTH)
    case _ => src.(id := -1)
  }

  /** Rebuilding makes every effect one of the three known types, leaves those alone, and need not be repeated. */
  lemma RebuiltIsKnown(src: FfEffect)
    ensures KindOf(RebuildEffect(src)) in {RumbleKind, PeriodicKind, ConstantKind}
    ensures Same(RebuildEffect(src), src) <==> KindOf(src) in {RumbleKind, PeriodicKind, ConstantKind}
    ensures KindOf(src).OtherKind? ==>
              var rebuilt := RebuildEffect(src);
              && Same(rebuilt, src.(force := Rumble(0x4000, 0x4000), length := rebuilt.length))
              && (src.length == 0 ==> rebuilt.length == 250) && (src.length != 0 ==> rebuilt.length == src.length)
    ensures RebuildEffect(RebuildEffect(src)) == RebuildEffect(src)
  {
  }
}
