/**
 CRC-32 as the utility module computes it: a table of 256 precomputed registers and
 a byte loop over that table, on 32-bit words.
 */
module Crc32 {
  import opened CrcRegister
  import opened Words

  /** The polynomial as the source writes it. */
  const POLYNOMIAL: Word32 := 0xEDB88320

  /** The bits of a message in the order in which the register consumes them. */
  function Bits(data: seq<Byte>): (bits: seq<bool>)
    ensures |bits| == 8 * |data|
  {
    if data == [] then [] else BitsOf(data[0], 8) + Bits(data[1..])
  }

  // ---------------------------------------------------------------------------
  // Word operations as operations on bits
  // ---------------------------------------------------------------------------

  function WordBits(n: Word32): Register {
    BitsOf(n, 32)
  }

  function OfBits(r: Register): Word32 {
    Pow2Of32();
    Value(r)
  }

  lemma OfBitsBits(r: Register)
    ensures WordBits(OfBits(r)) == r
  {
    BitsOfValue(r);
  }

  /** Reference: the bit-serial checksum of `data`, continuing from checksum `seed`. */
  function Checksum(data: seq<Byte>, seed: Word32): Word32 {
    OfBits(Not(Feed(Not(WordBits(seed)), Bits(data))))
  }

  /** `a ^ b` on 32-bit words. */
  function XorWord(a: Word32, b: Word32): Word32 {
    OfBits(Xor(WordBits(a), WordBits(b)))
  }

  /** `~a` on 32-bit words. */
  function NotWord(a: Word32): Word32 {
    0xFFFF_FFFF - a
  }

  lemma XorBits(a: Word32, b: Word32)
    ensures WordBits(XorWord(a, b)) == Xor(WordBits(a), WordBits(b))
  {
    OfBitsBits(Xor(WordBits(a), WordBits(b)));
  }

  function Flip(bits: seq<bool>): seq<bool> {
    seq(|bits|, k requires 0 <= k < |bits| => !bits[k])
  }

  lemma {:induction false} ComplementBits(n: nat, width: nat)
    requires n < Pow2(width)
    ensures BitsOf(Pow2(width) - 1 - n, width) == Flip(BitsOf(n, width))
    decreases width
  {
    if width > 0 {
      ComplementBits(n / 2, width - 1);
      ComplementHalf(n, Pow2(width - 1));
      FlipFirst(n % 2 == 1, BitsOf(n / 2, width - 1));
    }
  }

  lemma ComplementHalf(n: nat, p: nat)
    requires n < 2 * p
    ensures (2 * p - 1 - n) / 2 == p - 1 - n / 2
    ensures (2 * p - 1 - n) % 2 == 1 - n % 2
  {
  }

  lemma FlipFirst(bit: bool, bits: seq<bool>)
    ensures Flip([bit] + bits) == [!bit] + Flip(bits)
  {
  }

  lemma NotBits(a: Word32)
    ensures WordBits(NotWord(a)) == Not(WordBits(a))
  {
    hide BitsOf;
    Pow2Of32();
    ComplementBits(a, 32);
    assert Flip(WordBits(a)) == Not(WordBits(a));
  }

  lemma WordBitsInjective(a: Word32, b: Word32)
    requires WordBits(a) == WordBits(b)
    ensures a == b
  {
    Pow2Of32();
    ValueOfBits(a, 32);
    ValueOfBits(b, 32);
  }

  lemma BytesOf(low: Byte, high: nat, width: nat)
    ensures BitsOf(low + high * 0x100, 8 + width) == BitsOf(low, 8) + BitsOf(high, width)
  {
    hide BitsOf;
    Pow2Of32();
    LowThenHigh(low, high, 8, width);
  }

  lemma PolynomialByte0()
    ensures BitsOf(0x20, 8) == [false, false, false, false, false, true, false, false]
  {
  }

  lemma PolynomialByte1()
    ensures BitsOf(0x83, 8) == [true, true, false, false, false, false, false, true]
  {
  }

  lemma PolynomialByte2()
    ensures BitsOf(0xB8, 8) == [false, false, false, true, true, true, false, true]
  {
  }

  lemma PolynomialByte3()
    ensures BitsOf(0xED, 8) == [true, false, true, true, false, true, true, true]
  {
  }

  lemma PolynomialBits()
    ensures WordBits(POLYNOMIAL) == POLY
  {
    hide BitsOf;
    PolynomialByte0();
    PolynomialByte1();
    PolynomialByte2();
    PolynomialByte3();
    BytesOf(0x20, 0xEDB883, 24);
    BytesOf(0x83, 0xEDB8, 16);
    BytesOf(0xB8, 0xED, 8);
  }

  // ---------------------------------------------------------------------------
  // The table
  // ---------------------------------------------------------------------------

  /** Entry `i` is the register `i` after eight clocks. */
  ghost predicate IsEntry(i: Byte, e: Word32) {
    WordBits(e) == Shifts(WordBits(i), 8)
  }

  ghost predicate IsTable(table: seq<Word32>) {
    |table| == 256 && forall i :: 0 <= i < 256 ==> IsEntry(i, table[i])
  }

  lemma HalfBits(c: Word32)
    ensures WordBits(c)[0] == (c % 2 == 1)
    ensures WordBits(c / 2) == WordBits(c)[1..] + [false]
  {
    hide BitsOf;
    Pow2Of32();
    LowThenHigh(c % 2, c / 2, 1, 31);
    OneBit(c % 2);
    BitsBeyond(c / 2, 31, 1);
  }

  lemma OneBit(b: nat)
    ensures BitsOf(b, 1) == [b % 2 == 1]
  {
  }

  /** One turn of the entry loop is one clock. */
  lemma EntryStep(c: Word32)
    ensures WordBits(if c % 2 == 1 then XorWord(POLYNOMIAL, c / 2) else c / 2) == Shift(WordBits(c))
  {
    hide BitsOf;
    HalfBits(c);
    PolynomialBits();
    XorBits(POLYNOMIAL, c / 2);
  }

  method Crc32Entry(i: int) returns (c: Word32)
    requires 0 <= i < 256
    ensures IsEntry(i, c)
  {
    c := i;
    var j := 0;
    while j < 8
      invariant 0 <= j <= 8
      invariant Shifts(WordBits(c), 8 - j) == Shifts(WordBits(i), 8)
    {
      EntryStep(c);
      if c % 2 == 1 {
        c := XorWord(POLYNOMIAL, c / 2);
      } else {
        c := c / 2;
      }
      j := j + 1;
    }
  }

  method MakeCrc32Table() returns (table: array<Word32>)
    ensures fresh(table)
    ensures IsTable(table[..])
  {
    hide IsEntry;
    table := new Word32[256];
    var i := 0;
    while i < 256
      invariant 0 <= i <= 256
      invariant forall k :: 0 <= k < i ==> IsEntry(k, table[k])
    {
      table[i] := Crc32Entry(i);
      i := i + 1;
    }
  }

  // ---------------------------------------------------------------------------
  // The byte loop
  // ---------------------------------------------------------------------------

  lemma ByteBits(b: Byte)
    ensures WordBits(b) == Word(BitsOf(b, 8))
  {
    Pow2Of32();
    BitsBeyond(b, 8, 24);
  }

  lemma LowByteBits(n: Word32)
    ensures WordBits(n % 0x100) == Word(WordBits(n)[..8])
  {
    hide BitsOf;
    ByteBits(n % 0x100);
    BytesOf(n % 0x100, n / 0x100, 24);
  }

  lemma HighByteBits(n: Word32)
    ensures WordBits(n / 0x100) == Word(WordBits(n)[8..])
  {
    hide BitsOf;
    Pow2Of32();
    Pow2Sum(8, 24);
    BitsBeyond(n / 0x100, 24, 8);
    BytesOf(n % 0x100, n / 0x100, 24);
  }

  /** Eight message bits act on the low byte of the register only, and the rest moves down. */
  lemma ByteSplit(r: Register, bits: seq<bool>)
    requires |bits| == 8
    ensures Feed(r, bits) == Xor(Word(r[8..]), Shifts(Word(Xor(r, Word(bits))[..8]), 8))
  {
    var x := Xor(r, Word(bits));
    var high := Word(seq(8, _ => false) + x[8..]);
    FeedIsShifts(r, bits);
    LowAndHigh(x);
    HighOfWord(x[8..]);
    HighOfXor(r, bits);
    hide *;
    ShiftsLinear(high, Word(x[..8]), 8);
    ShiftsOfHigh(high, 8);
  }

  lemma LowAndHigh(x: Register)
    ensures x == Xor(Word(seq(8, _ => false) + x[8..]), Word(x[..8]))
  {
  }

  lemma HighOfXor(r: Register, bits: seq<bool>)
    requires |bits| == 8
    ensures Xor(r, Word(bits))[8..] == r[8..]
  {
  }

  lemma HighOfWord(rest: seq<bool>)
    requires |rest| == 24
    ensures var high := Word(seq(8, _ => false) + rest);
            high[8..] == rest && forall k :: 0 <= k < 8 ==> !high[k]
  {
  }

  /** One turn of the byte loop consumes the eight bits of a byte. */
  lemma TableStep(table: seq<Word32>, crc: Word32, b: Byte)
    requires IsTable(table)
    ensures WordBits(XorWord(crc / 0x100, table[XorWord(crc, b) % 0x100])) == Feed(WordBits(crc), BitsOf(b, 8))
  {
    hide BitsOf;
    var x := XorWord(crc, b);
    XorBits(crc, b);
    ByteBits(b);
    LowByteBits(x);
    HighByteBits(crc);
    XorBits(crc / 0x100, table[x % 0x100]);
    ByteSplit(WordBits(crc), BitsOf(b, 8));
  }

  /** The byte loop over the table computes the bit-serial checksum. */
  method Crc32(table: seq<Word32>, data: seq<Byte>, seed: Word32) returns (r: Word32)
    requires IsTable(table)
    ensures r == Checksum(data, seed)
  {
    hide BitsOf;
    var crc := NotWord(seed);
    NotBits(seed);
    var i := 0;
    assert data[0..] == data;
    while i < |data|
      invariant 0 <= i <= |data|
      invariant Feed(WordBits(crc), Bits(data[i..])) == Feed(Not(WordBits(seed)), Bits(data))
    {
      TableStep(table, crc, data[i]);
      FeedConcat(WordBits(crc), BitsOf(data[i], 8), Bits(data[i + 1..]));
      assert data[i..][1..] == data[i + 1..];
      crc := XorWord(crc / 0x100, table[XorWord(crc, data[i]) % 0x100]);
      i := i + 1;
    }
    NotBits(crc);
    r := NotWord(crc);
    OfBitsBits(WordBits(r));
    WordBitsInjective(r, OfBits(WordBits(r)));
  }
}
