/** Unsigned machine words as integers, and their bits. */
module Words {

  /** A `uint8_t`. */
  type Byte = n: int | 0 <= n < 0x100

  /** A `uint32_t`. */
  type Word32 = n: int | 0 <= n < 0x1_0000_0000

  function Pow2(n: nat): (p: nat)
    ensures p > 0
  {
    if n == 0 then 1 else 2 * Pow2(n - 1)
  }

  /** The lowest `width` bits of `n`, least significant first. */
  function BitsOf(n: nat, width: nat): (bits: seq<bool>)
    ensures |bits| == width
    decreases width
  {
    if width == 0 then [] else [n % 2 == 1] + BitsOf(n / 2, width - 1)
  }

  /** The number whose bits are `bits`. */
  function Value(bits: seq<bool>): (n: nat)
    ensures n < Pow2(|bits|)
  {
    if bits == [] then 0 else (if bits[0] then 1 else 0) + 2 * Value(bits[1..])
  }

  lemma {:induction false} BitsOfValue(bits: seq<bool>)
    ensures BitsOf(Value(bits), |bits|) == bits
  {
    if bits != [] {
      BitsOfValue(bits[1..]);
      assert Value(bits) / 2 == Value(bits[1..]);
    }
  }

  lemma {:induction false} ValueOfBits(n: nat, width: nat)
    requires n < Pow2(width)
    ensures Value(BitsOf(n, width)) == n
    decreases width
  {
    if width > 0 {
      ValueOfBits(n / 2, width - 1);
    }
  }

  lemma {:induction false} Pow2Sum(m: nat, n: nat)
    ensures Pow2(m + n) == Pow2(m) * Pow2(n)
  {
    if m > 0 {
      Pow2Sum(m - 1, n);
    }
  }

  lemma Pow2Of32()
    ensures Pow2(8) == 0x100
    ensures Pow2(32) == 0x1_0000_0000
  {
    assert Pow2(8) == 0x100;
    Pow2Sum(8, 8);
    assert Pow2(16) == 0x1_0000;
    Pow2Sum(16, 16);
  }

  lemma BitsOfMore(n: nat, width: nat)
    ensures BitsOf(n, width + 1) == [n % 2 == 1] + BitsOf(n / 2, width)
  {
  }

  lemma HalfOfSum(low: nat, t: nat)
    ensures (low + 2 * t) / 2 == low / 2 + t && (low + 2 * t) % 2 == low % 2
  {
  }

  lemma TimesPow2(high: nat, k: nat)
    requires k > 0
    ensures high * Pow2(k) == 2 * (high * Pow2(k - 1))
  {
  }

  /** The bits of a number split at position `k` into those of its remainder and those of its quotient. */
  lemma {:induction false} LowThenHigh(low: nat, high: nat, k: nat, width: nat)
    requires low < Pow2(k)
    ensures BitsOf(low + high * Pow2(k), k + width) == BitsOf(low, k) + BitsOf(high, width)
    decreases k
  {
    if k > 0 {
      var t := high * Pow2(k - 1);
      TimesPow2(high, k);
      HalfOfSum(low, t);
      assert low / 2 < Pow2(k - 1);
      LowThenHigh(low / 2, high, k - 1, width);
      hide Pow2;
      BitsOfMore(low + 2 * t, k - 1 + width);
      BitsOfMore(low, k - 1);
      hide BitsOf;
      assert [low % 2 == 1] + (BitsOf(low / 2, k - 1) + BitsOf(high, width))
          == ([low % 2 == 1] + BitsOf(low / 2, k - 1)) + BitsOf(high, width);
    }
  }

  /** Bits above a number's own width are clear. */
  lemma {:induction false} BitsBeyond(n: nat, width: nat, more: nat)
    requires n < Pow2(width)
    ensures BitsOf(n, width + more) == BitsOf(n, width) + seq(more, _ => false)
    decreases width
  {
    if width == 0 {
      ZeroBits(more);
    } else {
      BitsBeyond(n / 2, width - 1, more);
      assert BitsOf(n, width + more) == [n % 2 == 1] + BitsOf(n / 2, width - 1 + more);
    }
  }

  lemma {:induction false} ZeroBits(width: nat)
    ensures BitsOf(0, width) == seq(width, _ => false)
  {
    if width > 0 {
      ZeroBits(width - 1);
    }
  }
}
