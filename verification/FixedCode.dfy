// The fixed Huffman code of section 3.2.6 of RFC 1951: the code lengths of the reader's default
// tables give, by the canonical rule, exactly the codes that the writer's macros produce.
module FixedCode {
  import opened Binary
  import opened Canonical
  import opened Deflate

  /** How many of the first n symbols have a fixed code of length s. */
  function FixedCount(n: nat, s: nat): nat
    requires n <= 288
  {
    if s == 7 then (if n <= 256 then 0 else if n <= 280 then n - 256 else 24)
    else if s == 8 then (if n <= 144 then n else if n <= 280 then 144 else n - 136)
    else if s == 9 then (if n <= 144 then 0 else if n <= 256 then n - 144 else 112)
    else 0
  }

  lemma {:induction false} FixedCounts(n: nat, s: nat)
    requires n <= 288
    ensures CountOf(FixedLengths()[..n], s) == FixedCount(n, s)
  {
    if n > 0 {
      FixedCounts(n - 1, s);
      assert FixedLengths()[..n][..n - 1] == FixedLengths()[..n - 1];
    }
  }

  lemma AllFixedCounts(s: nat)
    ensures CountOf(FixedLengths(), s) == FixedCount(288, s)
  {
    FixedCounts(288, s);
    assert FixedLengths()[..288] == FixedLengths();
  }

  /** The first codes: 0 of seven bits, 0x30 of eight, 0x190 of nine. */
  lemma {:induction false} FixedFirstCode(s: nat)
    requires 1 <= s <= 9
    ensures FirstCode(FixedLengths(), s) == if s <= 7 then 0 else if s == 8 then 0x30 else 0x190
  {
    if s > 1 {
      FixedFirstCode(s - 1);
      AllFixedCounts(s - 1);
    }
  }

  lemma FixedFits()
    ensures Fits(FixedLengths())
  {
    assert Pow2(4) == 16 && Pow2(7) == 128 && Pow2(8) == 256 && Pow2(9) == 512;
    forall s | 1 <= s <= MAX_BITS ensures LengthFits(FixedLengths(), s) {
      AllFixedCounts(s);
      if s <= 9 { FixedFirstCode(s); }
    }
  }

  /** The macros stbiw__zlib_huff1 to stbiw__zlib_huff4. */
  function HuffCode(n: nat): nat
    requires n < 288
  {
    if n <= 143 then 0x30 + n
    else if n <= 255 then 0x190 + n - 144
    else if n <= 279 then n - 256
    else 0xC0 + n - 280
  }

  function HuffBits(n: nat): nat
  {
    if n <= 143 then 8 else if n <= 255 then 9 else if n <= 279 then 7 else 8
  }

  /** The writer's code of every symbol is the canonical code for the reader's lengths. */
  lemma HuffIsCanonical(n: nat)
    requires n < 288
    ensures FixedLengths()[n] == HuffBits(n) && CodeOf(FixedLengths(), n) == HuffCode(n)
  {
    FixedCounts(n, HuffBits(n));
    FixedFirstCode(HuffBits(n));
  }

  // ----- distances -----

  lemma {:induction false} DistanceCounts(n: nat, s: nat)
    requires n <= 32
    ensures CountOf(FixedDistances()[..n], s) == if s == 5 then n else 0
  {
    if n > 0 {
      DistanceCounts(n - 1, s);
      assert FixedDistances()[..n][..n - 1] == FixedDistances()[..n - 1];
    }
  }

  lemma {:induction false} DistanceFirstCode(s: nat)
    requires 1 <= s <= 5
    ensures FirstCode(FixedDistances(), s) == 0
  {
    if s > 1 {
      DistanceFirstCode(s - 1);
      DistanceCounts(32, s - 1);
      assert FixedDistances()[..32] == FixedDistances();
    }
  }

  lemma DistancesFit()
    ensures Fits(FixedDistances())
  {
    assert Pow2(2) == 4 && Pow2(5) == 32;
    assert FixedDistances()[..32] == FixedDistances();
    forall s | 1 <= s <= MAX_BITS ensures LengthFits(FixedDistances(), s) {
      DistanceCounts(32, s);
      if s <= 5 { DistanceFirstCode(s); }
    }
  }

  /** Distance symbols are five-bit numbers. */
  lemma DistanceIsCanonical(d: nat)
    requires d < 32
    ensures FixedDistances()[d] == 5 && CodeOf(FixedDistances(), d) == d
  {
    DistanceCounts(d, 5);
    DistanceFirstCode(5);
  }
}
