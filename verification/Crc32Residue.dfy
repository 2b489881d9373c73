/** What the two complements of the checksum are for: leading zeros count, and a checksum may follow its message. */
module Crc32Residue {
  import opened CrcRegister
  import opened Words
  import opened Crc32
  import opened Crc32Properties

  // ---------------------------------------------------------------------------
  // Registers as bit vectors, to compute with
  // ---------------------------------------------------------------------------

  function IsOdd(v: bv32): bool {
    v & 1 == 1
  }

  function Half(v: bv32): bv32 {
    v >> 1
  }

  function Mix(v: bv32, w: bv32): bv32 {
    v ^ w
  }

  function BitsOfVector(v: bv32, width: nat): (bits: seq<bool>)
    ensures |bits| == width
    decreases width
  {
    if width == 0 then [] else [IsOdd(v)] + BitsOfVector(Half(v), width - 1)
  }

  function RegisterOf(v: bv32): Register {
    BitsOfVector(v, 32)
  }

  function ShiftVector(v: bv32): bv32 {
    if IsOdd(v) then Mix(Half(v), 0xEDB8_8320) else Half(v)
  }

  function ShiftsVector(v: bv32, n: nat): bv32
    decreases n
  {
    if n == 0 then v else ShiftsVector(ShiftVector(v), n - 1)
  }

  lemma MixHalf(v: bv32, w: bv32)
    ensures Half(Mix(v, w)) == Mix(Half(v), Half(w))
  {
  }

  lemma MixOdd(v: bv32, w: bv32)
    ensures IsOdd(Mix(v, w)) == (IsOdd(v) != IsOdd(w))
  {
  }

  lemma {:induction false} MixBits(v: bv32, w: bv32, width: nat)
    ensures BitsOfVector(Mix(v, w), width) == Difference(BitsOfVector(v, width), BitsOfVector(w, width))
    decreases width
  {
    hide Half, Mix, IsOdd;
    if width > 0 {
      MixHalf(v, w);
      MixOdd(v, w);
      MixBits(Half(v), Half(w), width - 1);
    }
  }

  /** At most `n` bits are left. */
  predicate Below(v: bv32, n: nat)
    decreases n
  {
    if n == 0 then v == 0 else Below(Half(v), n - 1)
  }

  lemma HalfKeepsOrder(v: bv32, w: bv32)
    requires v <= w
    ensures Half(v) <= Half(w)
  {
  }

  lemma {:induction false} BelowIsMonotone(v: bv32, w: bv32, n: nat)
    requires v <= w && Below(w, n)
    ensures Below(v, n)
    decreases n
  {
    hide Half;
    if n > 0 {
      HalfKeepsOrder(v, w);
      BelowIsMonotone(Half(v), Half(w), n - 1);
    }
  }

  lemma HalfIsBelow(v: bv32)
    ensures Below(Half(v), 31)
  {
    BelowIsMonotone(Half(v), 0x7FFF_FFFF, 31) by {
      assert Below(0x7F, 7);
      assert Below(0x7FFF, 15);
      assert Below(0x7F_FFFF, 23);
    }
  }

  lemma {:induction false} BitsBelow(v: bv32, n: nat)
    requires Below(v, n)
    ensures BitsOfVector(v, n + 1) == BitsOfVector(v, n) + [false]
    decreases n
  {
    hide Half;
    if n > 0 {
      BitsBelow(Half(v), n - 1);
    }
  }

  lemma HalfRegister(v: bv32)
    ensures RegisterOf(v)[0] == IsOdd(v)
    ensures RegisterOf(Half(v)) == RegisterOf(v)[1..] + [false]
  {
    HalfIsBelow(v);
    hide Half, IsOdd, Below;
    BitsBelow(Half(v), 31);
  }

  function Halves(v: bv32, n: nat): bv32
    decreases n
  {
    if n == 0 then v else Halves(Half(v), n - 1)
  }

  lemma {:induction false} BitsSplit(v: bv32, m: nat, n: nat)
    ensures BitsOfVector(v, m + n) == BitsOfVector(v, m) + BitsOfVector(Halves(v, m), n)
    decreases m
  {
    hide Half, IsOdd;
    if m > 0 {
      BitsSplit(Half(v), m - 1, n);
    }
  }

  /** A vector byte by byte. */
  lemma BytesOfVector(v: bv32)
    ensures RegisterOf(v) == BitsOfVector(v, 8) + (BitsOfVector(Halves(v, 8), 8)
                             + (BitsOfVector(Halves(Halves(v, 8), 8), 8)
                                + BitsOfVector(Halves(Halves(Halves(v, 8), 8), 8), 8)))
  {
    hide BitsOfVector, Halves;
    var a := Halves(v, 8);
    var b := Halves(a, 8);
    BitsSplit(v, 8, 24);
    BitsSplit(a, 8, 16);
    BitsSplit(b, 8, 8);
  }

  lemma PolynomialLowBytes()
    ensures BitsOfVector(0xEDB8_8320, 8) == [false, false, false, false, false, true, false, false]
    ensures BitsOfVector(0xED_B883, 8) == [true, true, false, false, false, false, false, true]
  {
  }

  lemma PolynomialHighBytes()
    ensures BitsOfVector(0xEDB8, 8) == [false, false, false, true, true, true, false, true]
    ensures BitsOfVector(0xED, 8) == [true, false, true, true, false, true, true, true]
  {
  }

  lemma PolynomialVector()
    ensures RegisterOf(0xEDB8_8320) == POLY
  {
    BytesOfVector(0xEDB8_8320);
    PolynomialLowBytes();
    PolynomialHighBytes();
    hide BitsOfVector;
    assert Halves(0xEDB8_8320, 8) == 0xED_B883;
    assert Halves(0xED_B883, 8) == 0xEDB8;
    assert Halves(0xEDB8, 8) == 0xED;
  }

  /** Shifting the vector shifts the register. */
  lemma ShiftOfVector(v: bv32)
    ensures RegisterOf(ShiftVector(v)) == Shift(RegisterOf(v))
  {
    hide Half, Mix, IsOdd, BitsOfVector, POLY;
    HalfRegister(v);
    PolynomialVector();
    MixBits(Half(v), 0xEDB8_8320, 32);
  }

  lemma {:induction false} ShiftsOfVector(v: bv32, n: nat)
    ensures RegisterOf(ShiftsVector(v, n)) == Shifts(RegisterOf(v), n)
    decreases n
  {
    hide ShiftVector, RegisterOf;
    if n > 0 {
      ShiftOfVector(v);
      ShiftsOfVector(ShiftVector(v), n - 1);
    }
  }

  lemma ThirtyTwoShifts()
    ensures ShiftsVector(0xFFFF_FFFF, 32) == 0xDEBB_20E3
  {
    assert ShiftsVector(0x00BE_26ED, 8) == 0xDEBB_20E3;
    assert ShiftsVector(0xBE26_ED00, 16) == 0xDEBB_20E3;
    assert ShiftsVector(0x2DFD_1072, 24) == 0xDEBB_20E3;
  }

  // ---------------------------------------------------------------------------
  // Leading zeros
  // ---------------------------------------------------------------------------

  lemma XorXor(a: Register, b: Register, c: Register)
    ensures Xor(Xor(a, b), Xor(b, c)) == Xor(a, c)
    ensures Xor(a, b) == Xor(b, a)
  {
  }

  lemma {:induction false} ShiftsMore(r: Register, m: nat, n: nat)
    ensures Shifts(r, m + n) == Shifts(Shifts(r, m), n)
    decreases m
  {
    if m > 0 {
      ShiftsMore(Shift(r), m - 1, n);
    }
  }

  /** Whether an odd number of `bits` is set. */
  function Parity(bits: seq<bool>): bool {
    if bits == [] then false else bits[0] != Parity(bits[1..])
  }

  /** A bit that stays is the sum of what enters above it. */
  lemma {:induction false} StaysAbove(r: Register, k: nat)
    requires Shift(r) == r && k <= 32
    ensures k < 32 ==> r[k] == (r[0] && Parity(POLY[k..]))
    ensures k == 32 ==> !Parity(POLY[k..])
    decreases 32 - k
  {
    hide POLY;
    if k < 32 {
      StaysAbove(r, k + 1);
      assert Shift(r)[k] == r[k];
      assert POLY[k..][1..] == POLY[k + 1..];
    }
  }

  function Ones(v: bv32, width: nat): (n: nat)
    ensures n <= width
    decreases width
  {
    if width == 0 then 0 else (if IsOdd(v) then 1 else 0) + Ones(Half(v), width - 1)
  }

  lemma {:induction false} ParityOfVector(v: bv32, width: nat)
    ensures Parity(BitsOfVector(v, width)) == (Ones(v, width) % 2 == 1)
    decreases width
  {
    hide Half, IsOdd;
    if width > 0 {
      ParityOfVector(Half(v), width - 1);
    }
  }

  lemma PolynomialOnes()
    ensures Ones(0xEDB8_8320, 32) == 14
  {
    assert Ones(0xED, 8) == 6;
    assert Ones(0xEDB8, 16) == 10;
    assert Ones(0xED_B883, 24) == 13;
  }

  lemma EvenVector()
    ensures !Parity(RegisterOf(0xEDB8_8320))
  {
    hide Parity, Ones, BitsOfVector;
    ParityOfVector(0xEDB8_8320, 32);
    PolynomialOnes();
  }

  /** The polynomial has an even number of terms. */
  lemma PolynomialIsEven()
    ensures !Parity(POLY)
  {
    hide *;
    PolynomialVector();
    EvenVector();
  }

  lemma OnlyZeroStays(r: Register)
    requires Shift(r) == r
    ensures r == ZERO
  {
    hide POLY, Shift, Parity;
    PolynomialIsEven();
    StaysAbove(r, 0);
    assert POLY[0..] == POLY;
    forall k | 0 <= k < 32 ensures !r[k] {
      StaysAbove(r, k);
    }
  }

  /** Over GF(2) what stays after twice as many shifts is what stays after that many. */
  lemma {:induction false} OnlyZeroReturns(r: Register, j: nat)
    requires Shifts(r, Pow2(j)) == r
    ensures r == ZERO
    decreases j
  {
    if j == 0 {
      assert Shifts(r, 1) == Shifts(Shift(r), 0);
      OnlyZeroStays(r);
    } else {
      var n := Pow2(j - 1);
      var d := Xor(Shifts(r, n), r);
      ShiftsMore(r, n, n);
      ShiftsLinear(Shifts(r, n), r, n);
      XorXor(r, Shifts(r, n), r);
      OnlyZeroReturns(d, j - 1);
      XorIsZeroIff(Shifts(r, n), r);
      OnlyZeroReturns(r, j - 1);
    }
  }

  /**
   One zero byte in front of a message changes its checksum, and so do two, four, eight and so on,
   whatever the message; but not for one seed.
   */
  lemma LeadingZerosMissedIff(data: seq<Byte>, seed: Word32, j: nat)
    ensures Checksum(seq(Pow2(j), _ => 0) + data, seed) == Checksum(data, seed) <==> seed == 0xFFFF_FFFF
  {
    hide *;
    var zeros: seq<Byte> := seq(Pow2(j), _ => 0);
    var r := Not(WordBits(seed));
    LeadingBits(data, seed, zeros);
    BitsOfZeros(Pow2(j));
    EightTimes(j);
    FeedZerosIsShifts(r, Pow2(j + 3));
    SeedOfZero(seed);
    if r == ZERO {
      ShiftsOfZero(Pow2(j + 3));
    }
    if Shifts(r, Pow2(j + 3)) == r {
      OnlyZeroReturns(r, j + 3);
    }
  }

  /** With the usual seed, messages that differ in one leading zero byte never share their checksum. */
  lemma LeadingZeroDetected(data: seq<Byte>)
    ensures Checksum([0x00] + data, 0) != Checksum(data, 0)
  {
    hide *;
    LeadingZerosMissedIff(data, 0, 0);
    OneZero();
  }

  lemma OneZero()
    ensures [0x00] == seq(Pow2(0), _ => 0)
  {
  }

  lemma EightTimes(j: nat)
    ensures Pow2(j + 3) == 8 * Pow2(j)
  {
    assert Pow2(j + 3) == 2 * Pow2(j + 2) == 4 * Pow2(j + 1) == 8 * Pow2(j);
  }

  lemma SeedOfZero(seed: Word32)
    ensures Not(WordBits(seed)) == ZERO <==> seed == 0xFFFF_FFFF
  {
    NotBits(seed);
    ZeroBits(32);
    if NotWord(seed) != 0 && WordBits(NotWord(seed)) == ZERO {
      WordBitsInjective(NotWord(seed), 0);
    }
  }

  lemma LeadingBits(data: seq<Byte>, seed: Word32, zeros: seq<Byte>)
    ensures Checksum(zeros + data, seed) == Checksum(data, seed)
       <==> Feed(Not(WordBits(seed)), Bits(zeros)) == Not(WordBits(seed))
  {
    var r := Not(WordBits(seed));
    hide Feed, Not, WordBits, OfBits, Bits;
    BitsConcat(zeros, data);
    FeedConcat(r, Bits(zeros), Bits(data));
    SameChecksum(zeros + data, data, seed);
    if Feed(Feed(r, Bits(zeros)), Bits(data)) == Feed(r, Bits(data)) {
      FeedInjective(Feed(r, Bits(zeros)), r, Bits(data));
    }
  }

  lemma {:induction false} BitsOfZeros(n: nat)
    ensures Bits(seq(n, _ => 0)) == seq(8 * n, _ => false)
  {
    hide BitsOf;
    if n > 0 {
      var zeros: seq<Byte> := seq(n, _ => 0);
      assert zeros[1..] == seq(n - 1, _ => 0);
      BitsOfZeros(n - 1);
      ZeroBits(8);
    }
  }

  lemma {:induction false} FeedZerosIsShifts(r: Register, n: nat)
    ensures Feed(r, seq(n, _ => false)) == Shifts(r, n)
    decreases n
  {
    var zeros := seq(n, _ => false);
    if n > 0 {
      assert zeros[1..] == seq(n - 1, _ => false);
      FeedZerosIsShifts(Shift(r), n - 1);
      assert r[0 := r[0] != false] == r;
    }
  }

  // ---------------------------------------------------------------------------
  // A checksum after its message
  // ---------------------------------------------------------------------------

  /** The bytes of a word, lowest first. */
  function LittleEndian(w: Word32): (bytes: seq<Byte>)
    ensures |bytes| == 4
  {
    [w % 0x100, w / 0x100 % 0x100, w / 0x100 / 0x100 % 0x100, w / 0x100 / 0x100 / 0x100]
  }

  lemma BitsOfLittleEndian(w: Word32)
    ensures Bits(LittleEndian(w)) == WordBits(w)
  {
    hide BitsOf, Bits;
    var a, b, c := w / 0x100, w / 0x100 / 0x100, w / 0x100 / 0x100 / 0x100;
    FourBytes(w % 0x100, a % 0x100, b % 0x100, c);
    BytesOf(b % 0x100, c, 8);
    BytesOf(a % 0x100, b, 16);
    BytesOf(w % 0x100, a, 24);
  }

  lemma FourBytes(a: Byte, b: Byte, c: Byte, d: Byte)
    ensures Bits([a, b, c, d]) == BitsOf(a, 8) + (BitsOf(b, 8) + (BitsOf(c, 8) + BitsOf(d, 8)))
  {
    hide BitsOf, Bits;
    FirstByte(d, []);
    NoBytes();
    FirstByte(c, [d]);
    FirstByte(b, [c, d]);
    FirstByte(a, [b, c, d]);
    assert [a] + [b, c, d] == [a, b, c, d];
    assert [b] + [c, d] == [b, c, d];
    assert [c] + [d] == [c, d];
    assert [d] + [] == [d];
  }

  /** The bits of the complement of the residue. */
  const REST: Register := [
    true, true, false, false, false, true, true, true, false, false, false, false, false, true, false, false,
    true, true, false, true, true, true, false, true, false, true, true, true, true, false, true, true
  ]

  lemma RestLowBytes()
    ensures BitsOfVector(0xDEBB_20E3, 8) == [true, true, false, false, false, true, true, true]
    ensures BitsOfVector(0xDE_BB20, 8) == [false, false, false, false, false, true, false, false]
  {
  }

  lemma RestHighBytes()
    ensures BitsOfVector(0xDEBB, 8) == [true, true, false, true, true, true, false, true]
    ensures BitsOfVector(0xDE, 8) == [false, true, true, true, true, false, true, true]
  {
  }

  lemma RestVector()
    ensures RegisterOf(0xDEBB_20E3) == REST
  {
    BytesOfVector(0xDEBB_20E3);
    RestLowBytes();
    RestHighBytes();
    hide BitsOfVector;
    assert Halves(0xDEBB_20E3, 8) == 0xDE_BB20;
    assert Halves(0xDE_BB20, 8) == 0xDEBB;
    assert Halves(0xDEBB, 8) == 0xDE;
  }

  lemma RestByte0()
    ensures BitsOf(0xE3, 8) == [true, true, false, false, false, true, true, true]
  {
  }

  lemma RestByte2()
    ensures BitsOf(0xBB, 8) == [true, true, false, true, true, true, false, true]
  {
  }

  lemma RestByte3()
    ensures BitsOf(0xDE, 8) == [false, true, true, true, true, false, true, true]
  {
  }

  lemma RestBits()
    ensures WordBits(0xDEBB_20E3) == REST
  {
    hide BitsOf;
    RestByte0();
    PolynomialByte0();
    RestByte2();
    RestByte3();
    BytesOf(0xE3, 0xDEBB20, 24);
    BytesOf(0x20, 0xDEBB, 16);
    BytesOf(0xBB, 0xDE, 8);
  }

  lemma ResidueBits()
    ensures WordBits(0x2144_DF1C) == Not(REST)
  {
    hide BitsOf;
    RestBits();
    NotBits(0xDEBB_20E3);
  }

  lemma OnesBits(r: Register)
    ensures Xor(r, Word(Not(r))) == RegisterOf(0xFFFF_FFFF)
  {
    OnesVector();
    hide BitsOfVector;
  }

  lemma {:induction false} OnesOfMask(v: bv32, n: nat)
    requires Ones(v, n) == n
    ensures BitsOfVector(v, n) == seq(n, _ => true)
    decreases n
  {
    hide Half, IsOdd;
    if n > 0 {
      OnesOfMask(Half(v), n - 1);
    }
  }

  lemma LowMaskOnes()
    ensures Ones(0xFFFF, 16) == 16
  {
    assert Ones(0xFF, 8) == 8;
  }

  lemma MaskOnes()
    ensures Ones(0xFFFF_FFFF, 32) == 32
  {
    LowMaskOnes();
    assert Ones(0xFF_FFFF, 24) == 24;
  }

  lemma OnesVector()
    ensures RegisterOf(0xFFFF_FFFF) == seq(32, _ => true)
  {
    hide BitsOfVector, Ones;
    MaskOnes();
    OnesOfMask(0xFFFF_FFFF, 32);
  }

  /** Consuming its own complement leaves any register in the same state. */
  lemma OwnComplement(r: Register)
    ensures Feed(r, Not(r)) == REST
  {
    hide *;
    FeedIsShifts(r, Not(r));
    OnesBits(r);
    ShiftsOfVector(0xFFFF_FFFF, 32);
    ThirtyTwoShifts();
    RestVector();
  }

  /** A message that its own checksum follows has the same checksum as any other such message. */
  lemma ChecksumOfChecked(data: seq<Byte>, seed: Word32)
    ensures Checksum(data + LittleEndian(Checksum(data, seed)), seed) == 0x2144_DF1C
  {
    var c := Checksum(data, seed);
    var r := Feed(Not(WordBits(seed)), Bits(data));
    BitsConcat(data, LittleEndian(c));
    FeedConcat(Not(WordBits(seed)), Bits(data), Bits(LittleEndian(c)));
    BitsOfLittleEndian(c);
    OfBitsBits(Not(r));
    OwnComplement(r);
    ResidueBits();
    OfBitsBits(Not(REST));
    WordBitsInjective(OfBits(Not(REST)), 0x2144_DF1C);
    hide *;
    hide REST;
  }
}
