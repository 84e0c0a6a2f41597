/** The Bloom filter of a table (src/bloom_filter.cpp). */
module BloomFilters {

  const FNV_OFFSET: bv64 := 1469598103934665603
  const FNV_PRIME: bv64 := 1099511628211
  const MIX: bv64 := 0xff51afd7ed558ccd
  const GOLDEN: bv64 := 0x9e3779b97f4a7c15

  /** A character as the byte the program hashes. */
  function ByteOf(c: char): bv64 {
    (c as int % 256) as bv64
  }

  function Fold(hash: bv64, key: string): bv64
    decreases |key|
  {
    if key == "" then hash else Fold((hash ^ ByteOf(key[0])) * FNV_PRIME, key[1..])
  }

  function HashWithSeed(key: string, seed: bv64): bv64 {
    var h := Fold(FNV_OFFSET ^ seed, key);
    var m := (h ^ (h >> 33)) * MIX;
    m ^ (m >> 33)
  }

  /** The i-th hash of a key. */
  function NthHash(key: string, i: nat): nat {
    HashWithSeed(key, GOLDEN * (((i + 1) % 0x1_0000_0000_0000_0000) as bv64)) as nat
  }

  function Mask(offset: nat): bv8
    requires offset < 8
  {
    (1 as bv8) << offset
  }

  predicate BitOf(b: bv8, offset: nat)
    requires offset < 8
  {
    b & Mask(offset) != 0
  }

  /** Setting a bit turns it on and turns none off. */
  lemma SetBit(b: bv8, i: nat, j: nat)
    requires i < 8 && j < 8
    ensures BitOf(b | Mask(i), i)
    ensures BitOf(b, j) ==> BitOf(b | Mask(i), j)
  {
  }

  lemma SetInByte(b: bv8, byte: nat, i: nat, j: nat)
    requires i / 8 == byte
    ensures j / 8 == byte && BitOf(b, j % 8) ==> BitOf(b | Mask(i % 8), j % 8)
    ensures BitOf(b | Mask(i % 8), i % 8)
  {
    SetBit(b, i % 8, j % 8);
  }

  class BloomFilter {
    const bitCount: nat
    const hashCount: nat
    const bits: array<bv8>
    const hash: (string, nat) -> nat

    /** The bit that the i-th hash of a key selects. */
    function BitIndex(key: string, i: nat): (b: nat)
      requires bitCount > 0
      ensures b < bitCount
    {
      hash(key, i) % bitCount
    }

    ghost predicate Valid()
      reads this
    {
      bitCount >= 8 && hashCount >= 1 && bits.Length == (bitCount + 7) / 8
    }

    constructor (bitCount: nat, hashCount: nat)
      ensures Valid() && fresh(bits)
      ensures this.bitCount == (if bitCount < 8 then 8 else bitCount)
      ensures this.hashCount == (if hashCount < 1 then 1 else hashCount)
      ensures hash == NthHash
      ensures forall i :: 0 <= i < bits.Length ==> bits[i] == 0
    {
      this.hash := NthHash;
      this.bitCount := if bitCount < 8 then 8 else bitCount;
      this.hashCount := if hashCount < 1 then 1 else hashCount;
      this.bits := new bv8[((if bitCount < 8 then 8 else bitCount) + 7) / 8](_ => 0);
    }

    predicate Bit(i: nat)
      requires Valid() && i < bitCount
      reads this, bits
    {
      BitOf(bits[i / 8], i % 8)
    }

    /** Every bit that the key selects is on. */
    ghost predicate Has(key: string)
      requires Valid()
      reads this, bits
    {
      forall i: nat :: i < hashCount ==> Bit(BitIndex(key, i))
    }

    method SetBitAt(i: nat)
      requires Valid() && i < bitCount
      modifies bits
      ensures Bit(i)
      ensures forall j: nat :: j < bitCount && old(Bit(j)) ==> Bit(j)
    {
      var byte := i / 8;
      var b := bits[byte];
      forall j: nat ensures j / 8 == byte && BitOf(b, j % 8) ==> BitOf(b | Mask(i % 8), j % 8) {
        SetInByte(b, byte, i, j);
      }
      SetInByte(b, byte, i, i);
      bits[byte] := b | Mask(i % 8);
    }

    /** An added key is found, and so is every key found before. */
    method Add(key: string)
      requires Valid()
      modifies bits
      ensures Has(key)
      ensures forall other :: old(Has(other)) ==> Has(other)
    {
      for i := 0 to hashCount
        invariant forall j: nat :: j < i ==> Bit(BitIndex(key, j))
        invariant forall j: nat :: j < bitCount && old(Bit(j)) ==> Bit(j)
      {
        SetBitAt(BitIndex(key, i));
      }
    }

    method PossiblyContains(key: string) returns (r: bool)
      requires Valid()
      ensures r == Has(key)
    {
      for i := 0 to hashCount
        invariant forall j: nat :: j < i ==> Bit(BitIndex(key, j))
      {
        if !Bit(BitIndex(key, i)) {
          return false;
        }
      }
      return true;
    }
  }
}
