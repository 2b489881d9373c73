/**
 The CRC-32 register as 32 bits over GF(2), and what follows from its transition
 alone: it is linear, it loses nothing, and up to 32 message bits enter it as one
 word.  This is the bit-serial form of section 8 of RFC 1952: one message bit at a
 time, least significant bit of each byte first.
 */
module CrcRegister {

  /** Position 0 is the least significant bit. */
  type Register = r: seq<bool> | |r| == 32 witness seq(32, _ => false)

  const ZERO: Register := seq(32, _ => false)

  /** The reflected polynomial 0xEDB88320. */
  const POLY: Register := [
    false, false, false, false, false, true, false, false,
    true, true, false, false, false, false, false, true,
    false, false, false, true, true, true, false, true,
    true, false, true, true, false, true, true, true
  ]

  function Xor(a: Register, b: Register): Register {
    seq(32, k requires 0 <= k < 32 => a[k] != b[k])
  }

  function Not(a: Register): Register {
    seq(32, k requires 0 <= k < 32 => !a[k])
  }

  /** The register that holds `bits` in its lowest positions. */
  function Word(bits: seq<bool>): Register
    requires |bits| <= 32
  {
    seq(32, k requires 0 <= k < 32 => k < |bits| && bits[k])
  }

  /** One clock with no message bit. */
  function Shift(r: Register): Register {
    seq(32, k requires 0 <= k < 32 => (k < 31 && r[k + 1]) != (r[0] && POLY[k]))
  }

  /** One clock that consumes message bit `bit`. */
  function Clock(r: Register, bit: bool): Register {
    Shift(r[0 := r[0] != bit])
  }

  function Shifts(r: Register, n: nat): Register
    decreases n
  {
    if n == 0 then r else Shifts(Shift(r), n - 1)
  }

  /** Consumes `bits` in order. */
  function Feed(r: Register, bits: seq<bool>): Register
    decreases bits
  {
    if bits == [] then r else Feed(Clock(r, bits[0]), bits[1..])
  }

  // ---------------------------------------------------------------------------
  // Linearity
  // ---------------------------------------------------------------------------

  lemma ShiftLinear(a: Register, b: Register)
    ensures Shift(Xor(a, b)) == Xor(Shift(a), Shift(b))
  {
  }

  lemma {:induction false} ShiftsLinear(a: Register, b: Register, n: nat)
    ensures Shifts(Xor(a, b), n) == Xor(Shifts(a, n), Shifts(b, n))
    decreases n
  {
    if n > 0 {
      ShiftLinear(a, b);
      ShiftsLinear(Shift(a), Shift(b), n - 1);
    }
  }

  lemma {:induction false} FeedConcat(r: Register, a: seq<bool>, b: seq<bool>)
    ensures Feed(r, a + b) == Feed(Feed(r, a), b)
    decreases a
  {
    if a == [] {
      assert a + b == b;
    } else {
      assert (a + b)[1..] == a[1..] + b;
      FeedConcat(Clock(r, a[0]), a[1..], b);
    }
  }

  /** The bits in which two equally long streams differ. */
  function Difference(a: seq<bool>, b: seq<bool>): (d: seq<bool>)
    requires |a| == |b|
    ensures |d| == |a|
  {
    seq(|a|, k requires 0 <= k < |a| => a[k] != b[k])
  }

  lemma ClockLinear(r: Register, s: Register, a: bool, b: bool)
    ensures Clock(Xor(r, s), a != b) == Xor(Clock(r, a), Clock(s, b))
  {
    ShiftLinear(r[0 := r[0] != a], s[0 := s[0] != b]);
    assert Xor(r, s)[0 := Xor(r, s)[0] != (a != b)] == Xor(r[0 := r[0] != a], s[0 := s[0] != b]);
  }

  /** Two runs of the register differ by the run over the differences. */
  lemma {:induction false} FeedLinear(r: Register, s: Register, a: seq<bool>, b: seq<bool>)
    requires |a| == |b|
    ensures Feed(Xor(r, s), Difference(a, b)) == Xor(Feed(r, a), Feed(s, b))
    decreases a
  {
    if a == [] {
    } else {
      var d := Difference(a, b);
      assert d[0] == (a[0] != b[0]);
      ClockLinear(r, s, a[0], b[0]);
      assert d[1..] == Difference(a[1..], b[1..]);
      FeedLinear(Clock(r, a[0]), Clock(s, b[0]), a[1..], b[1..]);
    }
  }

  // ---------------------------------------------------------------------------
  // Nothing is lost
  // ---------------------------------------------------------------------------

  lemma ShiftInjective(a: Register, b: Register)
    requires Shift(a) == Shift(b)
    ensures a == b
  {
    assert Shift(a)[31] == a[0] && Shift(b)[31] == b[0];
    forall k | 1 <= k < 32 ensures a[k] == b[k] {
      assert Shift(a)[k - 1] == Shift(b)[k - 1];
    }
  }

  lemma {:induction false} ShiftsInjective(a: Register, b: Register, n: nat)
    requires Shifts(a, n) == Shifts(b, n)
    ensures a == b
    decreases n
  {
    if n > 0 {
      ShiftsInjective(Shift(a), Shift(b), n - 1);
      ShiftInjective(a, b);
    }
  }

  lemma ClockInjective(a: Register, b: Register, bit: bool)
    requires Clock(a, bit) == Clock(b, bit)
    ensures a == b
  {
    var a', b' := a[0 := a[0] != bit], b[0 := b[0] != bit];
    ShiftInjective(a', b');
    assert a == a'[0 := a'[0] != bit] && b == b'[0 := b'[0] != bit];
  }

  lemma {:induction false} FeedInjective(a: Register, b: Register, bits: seq<bool>)
    requires Feed(a, bits) == Feed(b, bits)
    ensures a == b
    decreases bits
  {
    if bits != [] {
      FeedInjective(Clock(a, bits[0]), Clock(b, bits[0]), bits[1..]);
      ClockInjective(a, b, bits[0]);
    }
  }

  // ---------------------------------------------------------------------------
  // Up to 32 bits enter as one word
  // ---------------------------------------------------------------------------

  lemma {:induction false} FeedIsShifts(r: Register, bits: seq<bool>)
    requires |bits| <= 32
    ensures Feed(r, bits) == Shifts(Xor(r, Word(bits)), |bits|)
    decreases bits
  {
    if bits == [] {
      assert Xor(r, Word(bits)) == r;
    } else {
      FeedIsShifts(Clock(r, bits[0]), bits[1..]);
      assert Xor(Clock(r, bits[0]), Word(bits[1..])) == Shift(Xor(r, Word(bits)));
    }
  }

  /** Shifting out low positions that hold nothing just moves the others down. */
  lemma {:induction false} ShiftsOfHigh(r: Register, n: nat)
    requires n <= 32
    requires forall k :: 0 <= k < n ==> !r[k]
    ensures Shifts(r, n) == Word(r[n..])
    decreases n
  {
    if n == 0 {
      assert Word(r[0..]) == r;
    } else {
      var s := Shift(r);
      forall k | 0 <= k < n - 1 ensures !s[k] {
        assert !r[k + 1];
      }
      ShiftsOfHigh(s, n - 1);
      assert Word(s[n - 1..]) == Word(r[n..]);
    }
  }

  /** Different words of up to 32 bits leave different registers behind. */
  lemma WordsSeparate(r: Register, a: seq<bool>, b: seq<bool>)
    requires |a| == |b| <= 32
    requires Feed(r, a) == Feed(r, b)
    ensures a == b
  {
    FeedIsShifts(r, a);
    FeedIsShifts(r, b);
    ShiftsInjective(Xor(r, Word(a)), Xor(r, Word(b)), |a|);
    forall k | 0 <= k < |a| ensures a[k] == b[k] {
      assert Xor(r, Word(a))[k] == Xor(r, Word(b))[k];
    }
  }
}
