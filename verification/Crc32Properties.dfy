/** What the checksum detects, what it misses, and how it continues across pieces. */
module Crc32Properties {
  import opened CrcRegister
  import opened Words
  import opened Crc32

  // ---------------------------------------------------------------------------
  // Pieces
  // ---------------------------------------------------------------------------

  lemma {:induction false} BitsConcat(a: seq<Byte>, b: seq<Byte>)
    ensures Bits(a + b) == Bits(a) + Bits(b)
  {
    hide BitsOf;
    if a == [] {
      assert a + b == b;
    } else {
      assert (a + b)[1..] == a[1..] + b;
      BitsConcat(a[1..], b);
    }
  }

  lemma NotNot(r: Register)
    ensures Not(Not(r)) == r
  {
  }

  /** Continuing from the checksum of `a` gives the checksum of `a + b`. */
  lemma ChecksumConcat(a: seq<Byte>, b: seq<Byte>, seed: Word32)
    ensures Checksum(a + b, seed) == Checksum(b, Checksum(a, seed))
  {
    BitsConcat(a, b);
    FeedConcat(Not(WordBits(seed)), Bits(a), Bits(b));
    NotNot(Feed(Not(WordBits(seed)), Bits(a)));
    OfBitsBits(Not(Feed(Not(WordBits(seed)), Bits(a))));
  }

  function Join(pieces: seq<seq<Byte>>): seq<Byte> {
    if pieces == [] then [] else pieces[0] + Join(pieces[1..])
  }

  /** Checksums the pieces one after another, each continuing from the one before. */
  function ChecksumPieces(pieces: seq<seq<Byte>>, seed: Word32): Word32
    decreases pieces
  {
    if pieces == [] then seed else ChecksumPieces(pieces[1..], Checksum(pieces[0], seed))
  }

  lemma ChecksumOfNothing(seed: Word32)
    ensures Checksum([], seed) == seed
  {
    NotNot(WordBits(seed));
    WordBitsInjective(OfBits(WordBits(seed)), seed) by {
      OfBitsBits(WordBits(seed));
    }
  }

  /** However a message is cut, checksumming its pieces in turn gives the checksum of the whole. */
  lemma {:induction false} ChecksumOfPieces(pieces: seq<seq<Byte>>, seed: Word32)
    ensures ChecksumPieces(pieces, seed) == Checksum(Join(pieces), seed)
    decreases pieces
  {
    if pieces == [] {
      ChecksumOfNothing(seed);
    } else {
      ChecksumOfPieces(pieces[1..], Checksum(pieces[0], seed));
      ChecksumConcat(pieces[0], Join(pieces[1..]), seed);
    }
  }

  // ---------------------------------------------------------------------------
  // Detection
  // ---------------------------------------------------------------------------

  lemma {:induction false} BitsInjective(a: seq<Byte>, b: seq<Byte>)
    requires |a| == |b|
    requires Bits(a) == Bits(b)
    ensures a == b
  {
    hide BitsOf;
    if a != [] {
      Pow2Of32();
      assert Bits(a)[..8] == BitsOf(a[0], 8) && Bits(a)[8..] == Bits(a[1..]);
      assert Bits(b)[..8] == BitsOf(b[0], 8) && Bits(b)[8..] == Bits(b[1..]);
      ValueOfBits(a[0], 8);
      ValueOfBits(b[0], 8);
      BitsInjective(a[1..], b[1..]);
      assert a == [a[0]] + a[1..] && b == [b[0]] + b[1..];
    }
  }

  lemma SameChecksum(a: seq<Byte>, b: seq<Byte>, seed: Word32)
    ensures Checksum(a, seed) == Checksum(b, seed)
       <==> Feed(Not(WordBits(seed)), Bits(a)) == Feed(Not(WordBits(seed)), Bits(b))
  {
    var ra, rb := Feed(Not(WordBits(seed)), Bits(a)), Feed(Not(WordBits(seed)), Bits(b));
    OfBitsBits(Not(ra));
    OfBitsBits(Not(rb));
    NotNot(ra);
    NotNot(rb);
  }

  /**
   Whether an error goes unnoticed depends on the flipped bits alone: on neither the
   message nor the seed.
   */
  lemma UndetectedIff(a: seq<Byte>, b: seq<Byte>, seed: Word32)
    requires |a| == |b|
    ensures Checksum(a, seed) == Checksum(b, seed) <==> Feed(ZERO, Difference(Bits(a), Bits(b))) == ZERO
  {
    var r := Not(WordBits(seed));
    var ra, rb := Feed(r, Bits(a)), Feed(r, Bits(b));
    SameChecksum(a, b, seed);
    FeedLinear(r, r, Bits(a), Bits(b));
    hide *;
    XorIsZeroIff(r, r);
    XorIsZeroIff(ra, rb);
  }

  lemma XorIsZeroIff(a: Register, b: Register)
    ensures Xor(a, b) == ZERO <==> a == b
  {
    if Xor(a, b) == ZERO {
      forall k | 0 <= k < 32 ensures a[k] == b[k] {
        assert !Xor(a, b)[k];
      }
    }
  }

  /** `a` and `b` agree outside the `width` bits from position `p` on. */
  ghost predicate DifferWithin(a: seq<bool>, b: seq<bool>, p: nat, width: nat)
  {
    && |a| == |b|
    && forall k :: 0 <= k < |a| && !(p <= k < p + width) ==> a[k] == b[k]
  }

  /** Any error confined to 32 consecutive bits, at any bit position, changes the checksum. */
  lemma BurstDetected(a: seq<Byte>, b: seq<Byte>, seed: Word32, p: nat)
    requires |a| == |b| && a != b
    requires DifferWithin(Bits(a), Bits(b), p, 32)
    ensures Checksum(a, seed) != Checksum(b, seed)
  {
    if Checksum(a, seed) == Checksum(b, seed) {
      SameChecksum(a, b, seed);
      BurstBitsDetected(Not(WordBits(seed)), Bits(a), Bits(b), p);
      BitsInjective(a, b);
      assert false;
    }
  }

  lemma BurstBitsDetected(r: Register, a: seq<bool>, b: seq<bool>, p: nat)
    requires DifferWithin(a, b, p, 32)
    requires Feed(r, a) == Feed(r, b)
    ensures a == b
  {
    hide Feed;
    var from := if p <= |a| then p else |a|;
    var to := if p + 32 <= |a| then p + 32 else |a|;
    CutBurst(a, b, p, from, to);
    BurstChain(r, a[..from], a[from..to], b[from..to], a[to..]);
  }

  /** Around the burst the streams are the same. */
  lemma CutBurst(a: seq<bool>, b: seq<bool>, p: nat, from: nat, to: nat)
    requires DifferWithin(a, b, p, 32)
    requires from == (if p <= |a| then p else |a|) && to == (if p + 32 <= |a| then p + 32 else |a|)
    ensures a == a[..from] + (a[from..to] + a[to..])
    ensures b == a[..from] + (b[from..to] + a[to..])
  {
    assert a[..from] == b[..from] && a[to..] == b[to..];
    assert b == b[..from] + (b[from..to] + b[to..]);
  }

  lemma BurstChain(r: Register, head: seq<bool>, mine: seq<bool>, yours: seq<bool>, tail: seq<bool>)
    requires |mine| == |yours| <= 32
    requires Feed(r, head + (mine + tail)) == Feed(r, head + (yours + tail))
    ensures mine == yours
  {
    hide Feed;
    var s := Feed(r, head);
    FeedConcat(r, head, mine + tail);
    FeedConcat(r, head, yours + tail);
    FeedConcat(s, mine, tail);
    FeedConcat(s, yours, tail);
    FeedInjective(Feed(s, mine), Feed(s, yours), tail);
    WordsSeparate(s, mine, yours);
  }

  /** Messages that differ only within four consecutive bytes have different checksums. */
  lemma FourByteBurstDetected(a: seq<Byte>, b: seq<Byte>, seed: Word32, i: nat)
    requires |a| == |b| && a != b
    requires forall k :: 0 <= k < |a| && !(i <= k < i + 4) ==> a[k] == b[k]
    ensures Checksum(a, seed) != Checksum(b, seed)
  {
    forall k | 0 <= k < 8 * |a| && !(8 * i <= k < 8 * i + 32) ensures Bits(a)[k] == Bits(b)[k] {
      BitAt(a, k);
      BitAt(b, k);
    }
    BurstDetected(a, b, seed, 8 * i);
  }

  lemma {:induction false} BitAt(a: seq<Byte>, k: nat)
    requires k < 8 * |a|
    ensures Bits(a)[k] == BitsOf(a[k / 8], 8)[k % 8]
  {
    hide BitsOf;
    if k >= 8 {
      BitAt(a[1..], k - 8);
    }
  }

  // ---------------------------------------------------------------------------
  // The bound of 32 bits is exact
  // ---------------------------------------------------------------------------

  lemma {:induction false} FeedZeros(n: nat)
    ensures Feed(ZERO, seq(n, _ => false)) == ZERO
  {
    var z := seq(n, _ => false);
    if n > 0 {
      assert z[1..] == seq(n - 1, _ => false);
      assert Clock(ZERO, false) == ZERO;
      FeedZeros(n - 1);
    }
  }

  /** The 33 bits of the generator, including its leading one. */
  function Generator(): (g: seq<bool>)
    ensures |g| == 33
  {
    [true] + POLY
  }

  lemma ClockOne()
    ensures Clock(ZERO, true) == POLY
  {
  }

  lemma FeedOne(r: Register, bit: bool)
    ensures Feed(r, [bit]) == Clock(r, bit)
  {
    assert [bit][1..] == [];
  }

  lemma FeedGenerator()
    ensures Feed(ZERO, Generator()) == ZERO
  {
    hide Feed, Clock, Shifts, Xor, Word, POLY;
    FeedConcat(ZERO, [true], POLY);
    FeedOne(ZERO, true);
    ClockOne();
    FeedIsShifts(POLY, POLY);
    XorSelf(POLY);
    ShiftsOfZero(32);
  }

  lemma XorSelf(r: Register)
    ensures Word(r) == r
    ensures Xor(r, r) == ZERO
  {
  }

  lemma {:induction false} ShiftsOfZero(n: nat)
    ensures Shifts(ZERO, n) == ZERO
  {
    if n > 0 {
      assert Shift(ZERO) == ZERO;
      ShiftsOfZero(n - 1);
    }
  }

  /** Flipping the 33 bits of the generator, anywhere in any message, goes unnoticed. */
  lemma GeneratorBurstMissed(a: seq<Byte>, b: seq<Byte>, seed: Word32, p: nat)
    requires |a| == |b| && p + 33 <= 8 * |a|
    requires Difference(Bits(a), Bits(b)) == seq(p, _ => false) + Generator() + seq(8 * |a| - p - 33, _ => false)
    ensures Checksum(a, seed) == Checksum(b, seed)
  {
    hide Checksum, Feed, Generator;
    GeneratorIsFedToZero(p, 8 * |a| - p - 33);
    UndetectedIff(a, b, seed);
  }

  lemma GeneratorIsFedToZero(before: nat, after: nat)
    ensures Feed(ZERO, seq(before, _ => false) + Generator() + seq(after, _ => false)) == ZERO
  {
    hide Feed, Generator;
    FeedConcat(ZERO, seq(before, _ => false) + Generator(), seq(after, _ => false));
    FeedConcat(ZERO, seq(before, _ => false), Generator());
    FeedZeros(before);
    FeedGenerator();
    FeedZeros(after);
  }

  lemma FeedBetweenZeros(before: nat, m: seq<bool>, after: nat)
    ensures Feed(ZERO, seq(before, _ => false) + m + seq(after, _ => false)) == ZERO <==> Feed(ZERO, m) == ZERO
  {
    hide Feed;
    FeedConcat(ZERO, seq(before, _ => false) + m, seq(after, _ => false));
    FeedConcat(ZERO, seq(before, _ => false), m);
    FeedZeros(before);
    FeedZeros(after);
    if Feed(Feed(ZERO, m), seq(after, _ => false)) == ZERO {
      FeedInjective(Feed(ZERO, m), ZERO, seq(after, _ => false));
    }
  }

  /** Of 33 bits, only none at all and the generator lead the register from zero back to zero. */
  lemma ZeroOrGenerator(m: seq<bool>)
    requires |m| == 33
    ensures Feed(ZERO, m) == ZERO <==> m == seq(33, _ => false) || m == Generator()
  {
    hide Feed, Clock, POLY;
    var rest := m[1..];
    assert m == [m[0]] + rest;
    FeedConcat(ZERO, [m[0]], rest);
    FeedOne(ZERO, m[0]);
    FeedGenerator();
    FeedZeros(33);
    if Feed(ZERO, m) == ZERO {
      if m[0] {
        ClockOne();
        FeedConcat(ZERO, [true], POLY);
        FeedOne(ZERO, true);
        WordsSeparate(POLY, rest, POLY);
      } else {
        ClockNothing();
        FeedZeros(32);
        WordsSeparate(ZERO, rest, seq(32, _ => false));
        assert m == seq(33, _ => false);
      }
    }
  }

  lemma ClockNothing()
    ensures Clock(ZERO, false) == ZERO
  {
  }

  lemma OnlyWithin(a: seq<bool>, b: seq<bool>, p: nat)
    requires DifferWithin(a, b, p, 33) && p + 33 <= |a|
    ensures Difference(a, b)
         == seq(p, _ => false) + Difference(a, b)[p..p + 33] + seq(|a| - p - 33, _ => false)
  {
  }

  /** An error confined to 33 consecutive bits goes unnoticed exactly if it is none or the generator. */
  lemma ThirtyThreeBitsIff(a: seq<Byte>, b: seq<Byte>, seed: Word32, p: nat)
    requires |a| == |b| && p + 33 <= 8 * |a| && DifferWithin(Bits(a), Bits(b), p, 33)
    ensures Checksum(a, seed) == Checksum(b, seed) <==>
            a == b || Difference(Bits(a), Bits(b))[p..p + 33] == Generator()
  {
    hide Checksum, Feed, Generator, Bits, Difference;
    var m := Difference(Bits(a), Bits(b))[p..p + 33];
    UndetectedIff(a, b, seed);
    OnlyWithin(Bits(a), Bits(b), p);
    FeedBetweenZeros(p, m, 8 * |a| - p - 33);
    ZeroOrGenerator(m);
    if m == seq(33, _ => false) {
      SameBits(Bits(a), Bits(b), p);
      BitsInjective(a, b);
    }
  }

  lemma SameBits(a: seq<bool>, b: seq<bool>, p: nat)
    requires DifferWithin(a, b, p, 33) && p + 33 <= |a|
    requires Difference(a, b)[p..p + 33] == seq(33, _ => false)
    ensures a == b
  {
    forall k | p <= k < p + 33 ensures a[k] == b[k] {
      assert !Difference(a, b)[p..p + 33][k - p];
    }
  }

  /** Two five-byte messages that differ within 33 consecutive bits and share every checksum. */
  lemma ThirtyThreeBitsMissed(seed: Word32)
    ensures var a, b := [0x00, 0x00, 0x00, 0x00, 0x00], [0x41, 0x06, 0x71, 0xDB, 0x01];
            && DifferWithin(Bits(a), Bits(b), 0, 33)
            && Checksum(a, seed) == Checksum(b, seed)
  {
    hide Bits, Checksum, Generator;
    ZeroBytes();
    GeneratorBytes();
    MissedFromZero([0x00, 0x00, 0x00, 0x00, 0x00], [0x41, 0x06, 0x71, 0xDB, 0x01], seed);
  }

  lemma MissedFromZero(a: seq<Byte>, b: seq<Byte>, seed: Word32)
    requires |a| == |b| == 5
    requires Bits(a) == seq(40, _ => false)
    requires Bits(b) == Generator() + seq(7, _ => false)
    ensures DifferWithin(Bits(a), Bits(b), 0, 33)
    ensures Checksum(a, seed) == Checksum(b, seed)
  {
    hide Bits, Checksum, Generator;
    assert Difference(Bits(a), Bits(b)) == seq(0, _ => false) + Generator() + seq(7, _ => false);
    GeneratorBurstMissed(a, b, seed, 0);
  }

  lemma FirstByte(b: Byte, rest: seq<Byte>)
    ensures Bits([b] + rest) == BitsOf(b, 8) + Bits(rest)
  {
    hide BitsOf;
    assert ([b] + rest)[1..] == rest;
  }

  lemma FiveBytes(b0: Byte, b1: Byte, b2: Byte, b3: Byte, b4: Byte)
    ensures Bits([b0, b1, b2, b3, b4])
         == BitsOf(b0, 8) + (BitsOf(b1, 8) + (BitsOf(b2, 8) + (BitsOf(b3, 8) + BitsOf(b4, 8))))
  {
    hide BitsOf, Bits;
    FirstByte(b4, []);
    NoBytes();
    FirstByte(b3, [b4]);
    FirstByte(b2, [b3, b4]);
    FirstByte(b1, [b2, b3, b4]);
    FirstByte(b0, [b1, b2, b3, b4]);
    assert [b0] + [b1, b2, b3, b4] == [b0, b1, b2, b3, b4];
    assert [b1] + [b2, b3, b4] == [b1, b2, b3, b4];
    assert [b2] + [b3, b4] == [b2, b3, b4];
    assert [b3] + [b4] == [b3, b4];
    assert [b4] + [] == [b4];
  }

  lemma NoBytes()
    ensures Bits([]) == []
  {
  }

  lemma ZeroBytes()
    ensures Bits([0x00, 0x00, 0x00, 0x00, 0x00]) == seq(40, _ => false)
  {
    hide BitsOf, Bits;
    FiveBytes(0, 0, 0, 0, 0);
    ZeroBits(8);
  }

  lemma GeneratorBytes()
    ensures Bits([0x41, 0x06, 0x71, 0xDB, 0x01]) == Generator() + seq(7, _ => false)
  {
    hide BitsOf, Bits;
    FiveBytes(0x41, 0x06, 0x71, 0xDB, 0x01);
    BytesOf(0x41, 0x1DB7106, 32);
    BytesOf(0x06, 0x1DB71, 24);
    BytesOf(0x71, 0x1DB, 16);
    BytesOf(0xDB, 0x1, 8);
    PolynomialBits();
    OneBit(1);
    LowThenHigh(1, POLYNOMIAL, 1, 39);
    Pow2Of32();
    BitsBeyond(POLYNOMIAL, 32, 7);
  }
}
