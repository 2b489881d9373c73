/**
 The boot-report parser: it turns a report (section B.1 of the USB HID 1.11 specification)
 into press and release events by comparing it with the report before.
 */
module HidReport {
  import opened Options
  import opened Pairs
  import opened Words
  import opened HidUsages
  import opened Remapper

  predicate HasBit(b: Byte, bit: nat) {
    b / Pow2(bit) % 2 == 1
  }

  /** The modifiers that a report names. */
  ghost function Mods(bytes: seq<Byte>): set<Code>
    requires |bytes| >= 8
  {
    set bit | 0 <= bit < 8 && HasBit(bytes[0], bit) :: Named(MOD_BITS[bit])
  }

  /** The keys that a report names: a pressed usage without a key is ignored. */
  ghost function Keys(bytes: seq<Byte>): set<Code>
    requires |bytes| >= 8
  {
    set i | 2 <= i < 8 && bytes[i] != 0 && HidToKey(bytes[i]).Some? :: Named(HidToKey(bytes[i]).value)
  }

  // ---------------------------------------------------------------------------
  // Listings: the events for a set of codes, each code once, in any order
  // ---------------------------------------------------------------------------

  ghost function CodesOf(events: seq<KeyEvent>): set<Code> {
    set i | 0 <= i < |events| :: events[i].code
  }

  ghost predicate Lists(events: seq<KeyEvent>, codes: set<Code>, value: int) {
    && (forall i :: 0 <= i < |events| ==> events[i] == KeyEvent(EvKey, events[i].code, value))
    && (forall i, j :: 0 <= i < j < |events| ==> events[i].code != events[j].code)
    && CodesOf(events) == codes
  }

  /** The four parts of a parser result, in their order. */
  datatype Parts = Parts(
    modReleases: seq<KeyEvent>,
    modPresses: seq<KeyEvent>,
    keyReleases: seq<KeyEvent>,
    keyPresses: seq<KeyEvent>)
  {
    function All(): seq<KeyEvent> {
      modReleases + (modPresses + (keyReleases + keyPresses))
    }
  }

  ghost predicate IsDiff(p: Parts, prevMods: set<Code>, prevKeys: set<Code>, mods: set<Code>, keys: set<Code>) {
    && Lists(p.modReleases, prevMods - mods, 0)
    && Lists(p.modPresses, mods - prevMods, 1)
    && Lists(p.keyReleases, prevKeys - keys, 0)
    && Lists(p.keyPresses, keys - prevKeys, 1)
  }

  lemma ListsMore(events: seq<KeyEvent>, codes: set<Code>, value: int, code: Code)
    requires Lists(events, codes, value) && code !in codes
    ensures Lists(events + [KeyEvent(EvKey, code, value)], codes + {code}, value)
  {
    var more := events + [KeyEvent(EvKey, code, value)];
    assert forall i :: 0 <= i < |events| ==> more[i] == events[i] && events[i].code in codes;
    forall c ensures c in CodesOf(more) <==> c in codes + {code} {
      if c == code {
        assert more[|events|].code == c;
      } else if c in codes {
        var i :| 0 <= i < |events| && events[i].code == c;
        assert more[i].code == c;
      }
    }
  }

  // ---------------------------------------------------------------------------
  // The modifier byte
  // ---------------------------------------------------------------------------

  /** The byte whose set bits are those of the modifiers among `codes`, up to bit `n`. */
  ghost function ByteOf(codes: set<Code>, n: nat): nat
    requires n <= 8
  {
    if n == 0 then 0 else ByteOf(codes, n - 1) + if Named(MOD_BITS[n - 1]) in codes then Pow2(n - 1) else 0
  }

  lemma ModBitsDiffer(i: nat, j: nat)
    requires i < j < 8
    ensures MOD_BITS[i] != MOD_BITS[j]
  {
  }

  lemma InModsIff(bytes: seq<Byte>, bit: nat)
    requires |bytes| >= 8 && bit < 8
    ensures Named(MOD_BITS[bit]) in Mods(bytes) <==> HasBit(bytes[0], bit)
  {
    hide HasBit;
    if Named(MOD_BITS[bit]) in Mods(bytes) {
      var k :| 0 <= k < 8 && HasBit(bytes[0], k) && Named(MOD_BITS[bit]) == Named(MOD_BITS[k]);
      if k < bit {
        ModBitsDiffer(k, bit);
      } else if bit < k {
        ModBitsDiffer(bit, k);
      }
    }
  }

  lemma {:induction false} ByteOfBits(bytes: seq<Byte>, n: nat)
    requires |bytes| >= 8 && n <= 8
    ensures ByteOf(Mods(bytes), n) == bytes[0] % Pow2(n)
  {
    hide Mods;
    if n > 0 {
      ByteOfBits(bytes, n - 1);
      InModsIff(bytes, n - 1);
      NextBit(bytes[0], Pow2(n - 1));
    }
  }

  lemma NextBit(b: nat, p: nat)
    requires p > 0
    ensures b % (2 * p) == b % p + if b / p % 2 == 1 then p else 0
  {
    var q, r := b / p, b % p;
    assert b == p * q + r;
    var h, o := q / 2, q % 2;
    assert q == 2 * h + o;
    assert b == (2 * p) * h + (p * o + r);
    DivisionIsUnique(b, 2 * p, h, p * o + r);
  }

  lemma DivisionIsUnique(b: nat, m: nat, q: nat, r: nat)
    requires r < m && b == m * q + r
    ensures b % m == r
  {
    var d: int, r': int := b / m - q, b % m;
    var x: int := m * d;
    assert x == r - r';
    Multiple(m, d, x);
  }

  lemma Multiple(m: int, d: int, x: int)
    requires x == m * d && -m < x < m
    ensures x == 0
  {
    if d >= 1 {
      TimesNonNegative(m, d - 1);
      assert false;
    } else if d <= -1 {
      TimesNonNegative(m, -1 - d);
      assert false;
    }
  }

  lemma TimesNonNegative(m: int, k: int)
    requires m >= 0 && k >= 0
    ensures m * k >= 0
  {
  }

  /** The modifier byte can be read back from the modifiers that it names. */
  lemma ModsTellByte(bytes: seq<Byte>)
    requires |bytes| >= 8
    ensures ByteOf(Mods(bytes), 8) == bytes[0]
  {
    ByteOfBits(bytes, 8);
    Pow2Of32();
  }

  // ---------------------------------------------------------------------------
  // Which bytes are heard
  // ---------------------------------------------------------------------------

  lemma InKeysIff(bytes: seq<Byte>, code: Code)
    requires |bytes| >= 8
    ensures code in Keys(bytes) <==> exists b :: b in bytes[2..8] && b != 0 && HidToKey(b).Some?
                                                 && code == Named(HidToKey(b).value)
  {
    hide HidToKey;
    if code in Keys(bytes) {
      var i :| 2 <= i < 8 && bytes[i] != 0 && HidToKey(bytes[i]).Some? && code == Named(HidToKey(bytes[i]).value);
      assert bytes[2..8][i - 2] == bytes[i];
    }
  }

  /** It does not matter at which of the six places a usage stands. */
  lemma KeysInAnyOrder(a: seq<Byte>, b: seq<Byte>)
    requires |a| >= 8 && |b| >= 8 && multiset(a[2..8]) == multiset(b[2..8])
    ensures Keys(a) == Keys(b)
  {
    hide Keys, HidToKey;
    forall u ensures u in a[2..8] <==> u in b[2..8] {
      assert u in multiset(a[2..8]) <==> u in multiset(b[2..8]);
    }
    forall code ensures code in Keys(a) <==> code in Keys(b) {
      InKeysIff(a, code);
      InKeysIff(b, code);
    }
  }

  /** The only key byte that is not zero is the one at `i`. */
  predicate OnlyKey(bytes: seq<Byte>, i: nat) {
    |bytes| >= 8 && 2 <= i < 8 && forall j :: 2 <= j < 8 && j != i ==> bytes[j] == 0
  }

  lemma KeysOfOne(bytes: seq<Byte>, i: nat)
    requires OnlyKey(bytes, i) && bytes[i] != 0 && HidToKey(bytes[i]).Some?
    ensures Keys(bytes) == {Named(HidToKey(bytes[i]).value)}
  {
    hide HidToKey;
  }

  lemma {:induction false} ListsCount(events: seq<KeyEvent>, codes: set<Code>, value: int, e: KeyEvent)
    requires Lists(events, codes, value)
    ensures multiset(events)[e] == if e.kind.EvKey? && e.value == value && e.code in codes then 1 else 0
  {
    if e in events {
      var i :| 0 <= i < |events| && events[i] == e;
      assert events == events[..i] + [e] + events[i + 1..];
      assert e !in events[..i] && e !in events[i + 1..];
    }
  }

  /** How often a code is pressed by a report's events: once for each of the two sets in which it is new. */
  lemma DiffPresses(p: Parts, prevMods: set<Code>, prevKeys: set<Code>, mods: set<Code>, keys: set<Code>, code: Code)
    requires IsDiff(p, prevMods, prevKeys, mods, keys)
    ensures multiset(p.All())[KeyEvent(EvKey, code, 1)]
         == (if code in mods - prevMods then 1 else 0) + (if code in keys - prevKeys then 1 else 0)
    ensures multiset(p.All())[KeyEvent(EvKey, code, 0)]
         == (if code in prevMods - mods then 1 else 0) + (if code in prevKeys - keys then 1 else 0)
  {
    hide Lists;
    forall value | value == 0 || value == 1
      ensures multiset(p.All())[KeyEvent(EvKey, code, value)]
           == (if value == 1 && code in mods - prevMods then 1 else 0) +
              (if value == 1 && code in keys - prevKeys then 1 else 0) +
              (if value == 0 && code in prevMods - mods then 1 else 0) +
              (if value == 0 && code in prevKeys - keys then 1 else 0)
    {
      var e := KeyEvent(EvKey, code, value);
      ListsCount(p.modReleases, prevMods - mods, 0, e);
      ListsCount(p.modPresses, mods - prevMods, 1, e);
      ListsCount(p.keyReleases, prevKeys - keys, 0, e);
      ListsCount(p.keyPresses, keys - prevKeys, 1, e);
    }
  }

  class Parser {
    var prevMods: set<Code>
    var prevKeys: set<Code>

    constructor ()
      ensures prevMods == {} && prevKeys == {}
    {
      prevMods, prevKeys := {}, {};
    }

    method DecodeMods(b: Byte) returns (mods: set<Code>)
      ensures mods == set bit | 0 <= bit < 8 && HasBit(b, bit) :: Named(MOD_BITS[bit])
    {
      mods := {};
      var bit := 0;
      while bit < 8
        invariant 0 <= bit <= 8
        invariant mods == set k | 0 <= k < bit && HasBit(b, k) :: Named(MOD_BITS[k])
      {
        if HasBit(b, bit) {
          mods := mods + {Named(MOD_BITS[bit])};
        }
        bit := bit + 1;
      }
    }

    method DecodeKeys(bytes: seq<Byte>) returns (keys: set<Code>)
      requires |bytes| >= 8
      ensures keys == Keys(bytes)
      ensures forall b :: b in bytes[2..8] && b != 0 && HidToKey(b).Some? ==> Named(HidToKey(b).value) in keys
    {
      keys := {};
      var i := 2;
      while i < 8
        invariant 2 <= i <= 8
        invariant keys == set k | 2 <= k < i && bytes[k] != 0 && HidToKey(bytes[k]).Some? ::
                    Named(HidToKey(bytes[k]).value)
      {
        var usage := bytes[i];
        if usage != 0 {
          var key := HidToKey(usage);
          if key.Some? {
            keys := keys + {Named(key.value)};
          }
        }
        i := i + 1;
      }
      hide HidToKey;
      forall b | b in bytes[2..8] && b != 0 && HidToKey(b).Some? ensures Named(HidToKey(b).value) in keys {
        InKeysIff(bytes, Named(HidToKey(b).value));
      }
    }

    /** Events for the codes of `from` that are not in `other`, in any order. */
    method ListEvents(from: set<Code>, other: set<Code>, value: int) returns (events: seq<KeyEvent>)
      ensures Lists(events, from - other, value)
    {
      events := [];
      var todo := from;
      while todo != {}
        invariant todo <= from
        invariant Lists(events, from - todo - other, value)
      {
        var code := Next(todo);
        if code !in other {
          ListsMore(events, from - todo - other, value, code);
          assert from - todo - other + {code} == from - (todo - {code}) - other;
          events := events + [KeyEvent(EvKey, code, value)];
        } else {
          assert from - todo - other == from - (todo - {code}) - other;
        }
        todo := todo - {code};
      }
      assert from - todo - other == from - other;
    }

    /** A report of fewer than eight bytes yields nothing and changes nothing. */
    method ParseReport(bytes: seq<Byte>) returns (events: Option<seq<KeyEvent>>, ghost parts: Parts)
      modifies this
      ensures |bytes| < 8 ==> events.None? && prevMods == old(prevMods) && prevKeys == old(prevKeys)
      ensures |bytes| >= 8 ==>
                && events == Some(parts.modReleases + (parts.modPresses + (parts.keyReleases + parts.keyPresses)))
                && IsDiff(parts, old(prevMods), old(prevKeys), Mods(bytes), Keys(bytes))
                && prevMods == Mods(bytes) && prevKeys == Keys(bytes)
    {
      parts := Parts([], [], [], []);
      if |bytes| < 8 {
        return None, parts;
      }
      var mods := DecodeMods(bytes[0]);
      var keys := DecodeKeys(bytes);
      var a := ListEvents(prevMods, mods, 0);
      var b := ListEvents(mods, prevMods, 1);
      var c := ListEvents(prevKeys, keys, 0);
      var d := ListEvents(keys, prevKeys, 1);
      events, parts := Some(a + (b + (c + d))), Parts(a, b, c, d);
      prevMods, prevKeys := mods, keys;
    }
  }

  /** Two parsers that get the same key bytes in different orders remember the same keys. */
  method ParseShuffled(a: Parser, b: Parser, bytes: seq<Byte>, shuffled: seq<Byte>)
    requires a != b && |bytes| >= 8 && |shuffled| >= 8 && multiset(bytes[2..8]) == multiset(shuffled[2..8])
    modifies a, b
    ensures a.prevKeys == b.prevKeys
  {
    KeysInAnyOrder(bytes, shuffled);
    hide Keys, Mods, IsDiff;
    var _, _ := a.ParseReport(bytes);
    var _, _ := b.ParseReport(shuffled);
  }

  /**
   A usage that has a key, alone at any of the six places: afterwards exactly that key is remembered,
   and a parser that remembered nothing presses it once; or twice if it is a modifier whose bit is set.
   */
  method ParseOneKey(parser: Parser, bytes: seq<Byte>, i: nat) returns (events: seq<KeyEvent>)
    requires OnlyKey(bytes, i) && bytes[i] != 0 && HidToKey(bytes[i]).Some?
    modifies parser
    ensures var key := Named(HidToKey(bytes[i]).value);
            && parser.prevKeys == {key}
            && (old(parser.prevKeys) == {} && old(parser.prevMods) == {} ==>
                  multiset(events)[KeyEvent(EvKey, key, 1)] == if key in parser.prevMods then 2 else 1)
    ensures bytes[0] == 0 ==> parser.prevMods == {}
  {
    KeysOfOne(bytes, i);
    if bytes[0] == 0 {
      NoBits(bytes);
    }
    hide Keys, Mods, IsDiff, HidToKey;
    ghost var mods, keys := parser.prevMods, parser.prevKeys;
    var parsed, parts := parser.ParseReport(bytes);
    events := parsed.value;
    DiffPresses(parts, mods, keys, parser.prevMods, parser.prevKeys, Named(HidToKey(bytes[i]).value));
  }

  lemma NoBits(bytes: seq<Byte>)
    requires |bytes| >= 8 && bytes[0] == 0
    ensures Mods(bytes) == {}
  {
    forall bit | 0 <= bit < 8 ensures !HasBit(bytes[0], bit) {
    }
  }
}
