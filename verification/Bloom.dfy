/** The Bloom filter: a byte array, seven hash positions per item, and what its bytes say about the items. */
module Bloom {

  const BLOOM_BITS := 2048
  const BLOOM_BYTES := 256
  const BLOOM_HASHES := 7
  const SEED_STEP := 0x9e3779b9

  // ----- hash positions -----

  /** The surrogate pair of a character beyond the basic plane. */
  function High(c: int): int {
    0xd800 + (c - 0x10000) / 0x400
  }

  function Low(c: int): int {
    0xdc00 + (c - 0x10000) % 0x400
  }

  /** The UTF-16 code units of a string, which is what charCodeAt enumerates. */
  function CodeUnits(s: string): seq<bv32> {
    if s == [] then []
    else
      var c := s[0] as int;
      (if c < 0x10000 then [c as bv32] else [High(c) as bv32, Low(c) as bv32]) + CodeUnits(s[1..])
  }

  /** One unit for a character of the basic plane, two beyond it. */
  lemma UnitsOf(c: char)
    ensures CodeUnits([c]) == if c as int < 0x10000 then [c as int as bv32] else [High(c as int) as bv32, Low(c as int) as bv32]
  {
    assert [c][1..] == [];
  }

  /** Surrogates lie in their ranges and give back the character. */
  lemma SurrogatesDecode(c: int)
    requires 0x10000 <= c < 0x110000
    ensures 0xd800 <= High(c) < 0xdc00 <= Low(c) < 0xe000
    ensures 0x10000 + (High(c) - 0xd800) * 0x400 + (Low(c) - 0xdc00) == c
  {
  }

  function TimesPrime(x: bv32): bv32 {
    x * 0x01000193
  }

  function FnvStep(hash: bv32, unit: bv32): bv32 {
    TimesPrime(hash ^ unit)
  }

  /** A step loses nothing: hash and unit can be told apart by what comes out, each given the other. */
  lemma StepInjective(hash: bv32, unit: bv32, hash': bv32, unit': bv32)
    ensures FnvStep(hash, unit) == FnvStep(hash, unit') ==> unit == unit'
    ensures FnvStep(hash, unit) == FnvStep(hash', unit) ==> hash == hash'
  {
    hide FnvStep, TimesPrime;
    if FnvStep(hash, unit) == FnvStep(hash, unit') {
      UnitTold(hash, unit, unit');
    }
    if FnvStep(hash, unit) == FnvStep(hash', unit) {
      HashTold(hash, hash', unit);
    }
  }

  lemma UnitTold(hash: bv32, unit: bv32, unit': bv32)
    requires FnvStep(hash, unit) == FnvStep(hash, unit')
    ensures unit == unit'
  {
    hide TimesPrime;
    PrimeTells(hash ^ unit, hash ^ unit');
    XorTells(hash, unit, unit');
  }

  lemma HashTold(hash: bv32, hash': bv32, unit: bv32)
    requires FnvStep(hash, unit) == FnvStep(hash', unit)
    ensures hash == hash'
  {
    hide TimesPrime;
    PrimeTells(hash ^ unit, hash' ^ unit);
    XorTellsLeft(hash, hash', unit);
  }

  function DividePrime(x: bv32): bv32 {
    x * 0x359c449b
  }

  lemma PrimeInvertible(x: bv32)
    ensures DividePrime(TimesPrime(x)) == x
  {
    InverseOfPrime(x, TimesPrime(x));
  }

  lemma InverseOfPrime(x: bv32, y: bv32)
    requires y == x * 0x01000193
    ensures DividePrime(y) == x
  {
  }

  lemma PrimeTells(x: bv32, y: bv32)
    requires TimesPrime(x) == TimesPrime(y)
    ensures x == y
  {
    hide TimesPrime, DividePrime;
    PrimeInvertible(x);
    PrimeInvertible(y);
  }

  lemma XorTells(h: bv32, u: bv32, u': bv32)
    requires h ^ u == h ^ u'
    ensures u == u'
  {
  }

  lemma XorTellsLeft(h: bv32, h': bv32, u: bv32)
    requires h ^ u == h' ^ u
    ensures h == h'
  {
  }

  /** So items whose code units differ in one place only have different hashes before they are reduced to a bit. */
  lemma {:induction false} OneUnitTells(before: seq<bv32>, u: bv32, u': bv32, after: seq<bv32>, basis: bv32)
    requires u != u'
    ensures Fnv(before + [u] + after, basis) != Fnv(before + [u'] + after, basis)
    decreases |after|
  {
    hide FnvStep;
    var a, b := before + [u] + after, before + [u'] + after;
    if after == [] {
      assert a[..|a| - 1] == before && b[..|b| - 1] == before;
      StepInjective(Fnv(before, basis), u, Fnv(before, basis), u');
    } else {
      var init, last := after[..|after| - 1], after[|after| - 1];
      OneUnitTells(before, u, u', init, basis);
      assert a[..|a| - 1] == before + [u] + init && b[..|b| - 1] == before + [u'] + init;
      StepInjective(Fnv(before + [u] + init, basis), last, Fnv(before + [u'] + init, basis), last);
    }
  }

  /** Known values of 32-bit FNV-1a, cut to 11 bits, and the seeds of the first hashes. */
  lemma KnownHashes()
    ensures HashOf("", 0) == 0x811c9dc5 % 2048 && HashOf("a", 0) == 0xe40c292c % 2048
    ensures SeedNumber(0) == 0 && SeedNumber(1) == 0x9e3779b9 && SeedNumber(2) == 0x3c6ef372 && SeedNumber(6) == 0xb54cda56
  {
    HashOfNothing();
    HashOfA();
    hide HashOf;
  }

  lemma HashOfNothing()
    ensures HashOf("", 0) == 0x811c9dc5 % 2048
  {
  }

  lemma HashOfA()
    ensures HashOf("a", 0) == 0xe40c292c % 2048
  {
    hide FnvStep;
    var units := [0x61 as bv32];
    assert "a"[1..] == "" && CodeUnits("a") == units;
    assert units[..0] == [] && Fnv([], 0x811c9dc5) == 0x811c9dc5;
    assert Fnv(units, 0x811c9dc5) == FnvStep(0x811c9dc5, 0x61);
    StepOfA();
  }

  lemma StepOfA()
    ensures FnvStep(0x811c9dc5, 0x61) == 0xe40c292c
  {
  }

  function Fnv(units: seq<bv32>, basis: bv32): bv32 {
    if units == [] then basis else FnvStep(Fnv(units[..|units| - 1], basis), units[|units| - 1])
  }

  /** Multiples of the golden ratio, modulo 2^32. */
  function SeedNumber(i: nat): int {
    i * SEED_STEP % 0x1_0000_0000
  }

  function Seed(i: nat): bv32 {
    SeedNumber(i) as bv32
  }

  function HashOf(item: string, seed: bv32): (bit: nat)
    ensures bit < BLOOM_BITS
  {
    Fnv(CodeUnits(item), 2166136261 ^ seed) as int % BLOOM_BITS
  }

  function Position(item: string, i: nat): (bit: nat)
    ensures bit < BLOOM_BITS
  {
    HashOf(item, Seed(i))
  }

  method BloomHash(item: string, seed: bv32) returns (bit: nat)
    ensures bit == HashOf(item, seed)
  {
    hide FnvStep;
    var units := CodeUnits(item);
    var hash := 2166136261 ^ seed;
    var i := 0;
    while i < |units|
      invariant 0 <= i <= |units|
      invariant hash == Fnv(units[..i], 2166136261 ^ seed)
    {
      assert units[..i + 1][..i] == units[..i];
      hash := FnvStep(hash, units[i]);
      i := i + 1;
    }
    assert units[..i] == units;
    bit := hash as int % BLOOM_BITS;
  }

  // ----- bits of bytes -----

  function Mask(k: nat): bv8
    requires k < 8
  {
    match k
    case 0 => 1 case 1 => 2 case 2 => 4 case 3 => 8 case 4 => 16 case 5 => 32 case 6 => 64 case 7 => 128
  }

  predicate BitOf(b: bv8, k: nat)
    requires k < 8
  {
    b & Mask(k) != 0
  }

  /** A read past the end yields no set bit. */
  predicate BitSet(bytes: seq<bv8>, p: nat) {
    p / 8 < |bytes| && BitOf(bytes[p / 8], p % 8)
  }

  lemma OrBit(a: bv8, b: bv8, k: nat)
    requires k < 8
    ensures BitOf(a | b, k) <==> BitOf(a, k) || BitOf(b, k)
  {
  }

  /** Bytes past the size of a filter, or past the end of the other one, are left alone. */
  ghost function MergedByte(was: seq<bv8>, theirs: seq<bv8>, j: nat): bv8
    requires j < |was|
  {
    if j < BLOOM_BYTES && j < |theirs| then was[j] | theirs[j] else was[j]
  }

  lemma MergedBits(was: seq<bv8>, theirs: seq<bv8>, now: seq<bv8>)
    requires |now| == |was| && forall j :: 0 <= j < |was| ==> now[j] == MergedByte(was, theirs, j)
    ensures forall p: nat :: BitSet(now, p) <==> BitSet(was, p) || (p / 8 < |was| && p < BLOOM_BITS && BitSet(theirs, p))
  {
    hide BitOf;
    forall p: nat ensures BitSet(now, p) <==> BitSet(was, p) || (p / 8 < |was| && p < BLOOM_BITS && BitSet(theirs, p)) {
      var j, k := p / 8, p % 8;
      if j < |was| && j < |theirs| && j < BLOOM_BYTES {
        OrBit(was[j], theirs[j], k);
      }
    }
  }

  lemma MaskBit(j: nat, k: nat)
    requires j < 8 && k < 8
    ensures BitOf(Mask(j), k) <==> j == k
  {
  }

  lemma SetBit(bytes: seq<bv8>, bit: nat, p: nat)
    requires bit / 8 < |bytes|
    ensures BitSet(bytes[bit / 8 := bytes[bit / 8] | Mask(bit % 8)], p) <==> BitSet(bytes, p) || p == bit
  {
    hide BitOf;
    if p / 8 == bit / 8 {
      OrBit(bytes[bit / 8], Mask(bit % 8), p % 8);
      MaskBit(bit % 8, p % 8);
      assert p == 8 * (p / 8) + p % 8 && bit == 8 * (bit / 8) + bit % 8;
    }
  }

  lemma ZeroBit(k: nat)
    requires k < 8
    ensures !BitOf(0, k)
  {
  }

  lemma SameByte(a: bv8, b: bv8)
    requires forall k :: 0 <= k < 8 ==> (BitOf(a, k) <==> BitOf(b, k))
    ensures a == b
  {
    forall k | 0 <= k < 8 ensures a & Mask(k) == b & Mask(k) {
      assert BitOf(a, k) <==> BitOf(b, k);
      MaskedIsMaskOrZero(a, k);
      MaskedIsMaskOrZero(b, k);
    }
    assert a & Mask(0) == b & Mask(0) && a & Mask(1) == b & Mask(1) && a & Mask(2) == b & Mask(2) && a & Mask(3) == b & Mask(3);
    assert a & Mask(4) == b & Mask(4) && a & Mask(5) == b & Mask(5) && a & Mask(6) == b & Mask(6) && a & Mask(7) == b & Mask(7);
  }

  lemma MaskedIsMaskOrZero(a: bv8, k: nat)
    requires k < 8
    ensures a & Mask(k) == 0 || a & Mask(k) == Mask(k)
  {
  }

  /** Bytes are determined by their bits. */
  lemma SameBytes(a: seq<bv8>, b: seq<bv8>)
    requires |a| == |b| && forall p: nat :: BitSet(a, p) <==> BitSet(b, p)
    ensures a == b
  {
    hide BitOf;
    forall i | 0 <= i < |a| ensures a[i] == b[i] {
      forall k | 0 <= k < 8 ensures BitOf(a[i], k) <==> BitOf(b[i], k) {
        assert BitSet(a, 8 * i + k) <==> BitSet(b, 8 * i + k);
      }
      SameByte(a[i], b[i]);
    }
  }

  // ----- what the bytes mean -----

  function Positions(item: string): set<nat> {
    set i | 0 <= i < BLOOM_HASHES :: Position(item, i)
  }

  predicate Hit(items: seq<string>, p: nat) {
    exists x :: x in items && p in Positions(x)
  }

  /** The filter's bits are the hash positions of the items, no more and no fewer. */
  ghost predicate Represents(bytes: seq<bv8>, items: seq<string>) {
    |bytes| == BLOOM_BYTES && forall p: nat :: BitSet(bytes, p) <==> Hit(items, p)
  }

  predicate Contains(bytes: seq<bv8>, item: string) {
    forall p :: p in Positions(item) ==> BitSet(bytes, p)
  }

  /** A filter answers yes exactly when the item's positions are covered by those of the items in it. */
  lemma ContainsIff(bytes: seq<bv8>, items: seq<string>, item: string)
    requires Represents(bytes, items)
    ensures Contains(bytes, item) <==> forall p :: p in Positions(item) ==> Hit(items, p)
  {
  }

  /** So it never denies an item that was added. */
  lemma NoFalseNegative(bytes: seq<bv8>, items: seq<string>, item: string)
    requires Represents(bytes, items) && item in items
    ensures Contains(bytes, item)
  {
    hide Positions, BitSet;
    forall p | p in Positions(item) ensures BitSet(bytes, p) {
      assert Hit(items, p);
    }
  }

  /** The bytes do not depend on the order or the number of times items were added. */
  lemma SameItemsSameBytes(a: seq<bv8>, b: seq<bv8>, xs: seq<string>, ys: seq<string>)
    requires Represents(a, xs) && Represents(b, ys) && forall x :: x in xs <==> x in ys
    ensures a == b
  {
    hide BitSet, Positions;
    forall p: nat ensures BitSet(a, p) <==> BitSet(b, p) {
      assert Hit(xs, p) <==> Hit(ys, p);
    }
    SameBytes(a, b);
  }

  /** Or-ing two filters gives the very bytes that building from all their items gives. */
  lemma MergeIsFrom(a: seq<bv8>, b: seq<bv8>, merged: seq<bv8>, built: seq<bv8>, xs: seq<string>, ys: seq<string>)
    requires Represents(a, xs) && Represents(b, ys) && Represents(built, xs + ys)
    requires |merged| == |a| && forall p: nat :: BitSet(merged, p) <==> BitSet(a, p) || BitSet(b, p)
    ensures merged == built
  {
    hide BitSet, Positions;
    forall p: nat ensures Hit(xs + ys, p) <==> Hit(xs, p) || Hit(ys, p) {
    }
    SameBytes(merged, built);
  }

  lemma RepresentsNothing(bytes: seq<bv8>)
    requires |bytes| == BLOOM_BYTES && forall i :: 0 <= i < |bytes| ==> bytes[i] == 0
    ensures Represents(bytes, [])
  {
    hide BitOf;
    forall p: nat ensures !BitSet(bytes, p) {
      ZeroBit(p % 8);
    }
  }

  lemma RepresentsOneMore(bytes: seq<bv8>, items: seq<string>, more: seq<bv8>, item: string)
    requires Represents(bytes, items) && |more| == BLOOM_BYTES
    requires forall p: nat :: BitSet(more, p) <==> BitSet(bytes, p) || (p / 8 < |bytes| && p in Positions(item))
    ensures Represents(more, items + [item])
  {
    forall p: nat ensures BitSet(more, p) <==> Hit(items + [item], p) {
      hide BitSet;
      PositionsInRange(item, p);
      assert item in items + [item];
      assert Hit(items + [item], p) <==> Hit(items, p) || p in Positions(item);
    }
  }

  lemma PositionsInRange(item: string, p: nat)
    ensures p in Positions(item) ==> p < BLOOM_BITS
  {
  }

  // ----- the filter -----

  class BloomFilter {
    const bits: array<bv8>

    /** An empty filter. */
    constructor ()
      ensures fresh(bits) && bits.Length == 256 == BLOOM_BYTES && Represents(bits[..], [])
    {
      bits := new bv8[BLOOM_BYTES](_ => 0);
      new;
      RepresentsNothing(bits[..]);
    }

    /** A filter read from bytes, however many there are. */
    constructor FromBuffer(existing: seq<bv8>)
      ensures fresh(bits) && bits[..] == existing
    {
      bits := new bv8[|existing|];
      new;
      forall i | 0 <= i < |existing| {
        bits[i] := existing[i];
      }
    }

    /** A write past the end of the bytes is ignored. */
    method Set(bit: nat)
      modifies bits
      ensures forall p: nat :: BitSet(bits[..], p) <==> old(BitSet(bits[..], p)) || (p == bit && p / 8 < bits.Length)
    {
      hide BitOf;
      if bit / 8 < bits.Length {
        ghost var was := bits[..];
        bits[bit / 8] := bits[bit / 8] | Mask(bit % 8);
        assert bits[..] == was[bit / 8 := was[bit / 8] | Mask(bit % 8)];
        forall p: nat ensures BitSet(bits[..], p) <==> BitSet(was, p) || p == bit {
          SetBit(was, bit, p);
        }
      }
    }

    method Add(item: string)
      modifies bits
      ensures forall p: nat :: BitSet(bits[..], p) <==> old(BitSet(bits[..], p)) || (p / 8 < bits.Length && p in Positions(item))
    {
      hide BitSet, Position;
      ghost var done: set<nat> := {};
      var i := 0;
      while i < BLOOM_HASHES
        invariant 0 <= i <= BLOOM_HASHES
        invariant done == set j | 0 <= j < i :: Position(item, j)
        invariant forall p: nat :: BitSet(bits[..], p) <==> old(BitSet(bits[..], p)) || (p / 8 < bits.Length && p in done)
      {
        var bit := BloomHash(item, Seed(i));
        PositionIs(item, i);
        Set(bit);
        done := done + {bit};
        i := i + 1;
      }
    }

    method Has(item: string) returns (found: bool)
      ensures found <==> Contains(bits[..], item)
    {
      hide BitOf, Position;
      var i := 0;
      while i < BLOOM_HASHES
        invariant 0 <= i <= BLOOM_HASHES
        invariant forall j :: 0 <= j < i ==> BitSet(bits[..], Position(item, j))
      {
        var bit := BloomHash(item, Seed(i));
        PositionIs(item, i);
        var one := Test(bit);
        if !one {
          assert Position(item, i) in Positions(item);
          return false;
        }
        i := i + 1;
      }
      found := true;
    }

    method Test(bit: nat) returns (one: bool)
      ensures one <==> BitSet(bits[..], bit)
    {
      one := bit / 8 < bits.Length && bits[bit / 8] & Mask(bit % 8) != 0;
    }

    method Merge(other: BloomFilter)
      modifies bits
      ensures forall p: nat ::
                BitSet(bits[..], p) <==> old(BitSet(bits[..], p)) || (p / 8 < bits.Length && p < BLOOM_BITS && old(BitSet(other.bits[..], p)))
    {
      ghost var was, theirs := bits[..], other.bits[..];
      hide BitSet;
      var i := 0;
      while i < BLOOM_BYTES
        invariant 0 <= i <= BLOOM_BYTES
        invariant forall j :: i <= j < bits.Length ==> bits[j] == was[j]
        invariant other.bits != bits ==> other.bits[..] == theirs
        invariant forall j :: 0 <= j < i && j < bits.Length ==> bits[j] == MergedByte(was, theirs, j)
      {
        if i < bits.Length && i < other.bits.Length {
          bits[i] := bits[i] | other.bits[i];
        }
        i := i + 1;
      }
      MergedBits(was, theirs, bits[..]);
    }

    static method From(items: seq<string>) returns (f: BloomFilter)
      ensures fresh(f) && fresh(f.bits) && Represents(f.bits[..], items)
    {
      hide Represents, Positions, BitSet;
      f := new BloomFilter();
      var i := 0;
      assert items[..0] == [];
      while i < |items|
        invariant 0 <= i <= |items| && fresh(f.bits)
        invariant |f.bits[..]| == BLOOM_BYTES && Represents(f.bits[..], items[..i])
      {
        ghost var was := f.bits[..];
        f.Add(items[i]);
        RepresentsOneMore(was, items[..i], f.bits[..], items[i]);
        assert items[..i + 1] == items[..i] + [items[i]];
        i := i + 1;
      }
      assert items[..i] == items;
    }
  }

  lemma SevenPositions(item: string)
    ensures Positions(item) ==
            {Position(item, 0), Position(item, 1), Position(item, 2), Position(item, 3), Position(item, 4), Position(item, 5), Position(item, 6)}
  {
    hide Position;
  }

  lemma PositionIs(item: string, i: nat)
    ensures Position(item, i) == HashOf(item, Seed(i))
  {
  }
}
