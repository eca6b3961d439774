// The growing arrays of the compressor: how their capacity follows their size, and up to which size
// the capacity is an int.
module StretchyBuffer {
  import opened Binary

  const INT_MAX: nat := 0x7FFF_FFFF

  /** stbiw__sbmaybegrow and stbiw__sbgrowf before one more element is pushed onto n. */
  function Grown(capacity: nat, n: nat): nat
  {
    if capacity == 0 then 2
    else if n + 1 >= capacity then 2 * capacity + 1
    else capacity
  }

  /** The capacity after n pushes. */
  function Capacity(n: nat): nat
  {
    if n == 0 then 0 else Grown(Capacity(n - 1), n - 1)
  }

  /** Capacities are one less than three times a power of two, and the least such beyond the size. */
  lemma {:induction false} CapacityForm(n: nat) returns (k: nat)
    requires 1 <= n
    ensures Capacity(n) == 3 * Pow2(k) - 1 && n < Capacity(n)
    ensures k > 0 ==> 3 * Pow2(k - 1) - 1 <= n
    decreases n
  {
    if n == 1 {
      k := 0;
      assert Capacity(0) == 0;
    } else {
      k := CapacityForm(n - 1);
      if n >= Capacity(n - 1) {
        k := k + 1;
        assert Pow2(k) == 2 * Pow2(k - 1);
      }
    }
  }

  lemma {:induction false} Pow2Strict(j: nat, k: nat)
    requires j < k
    ensures 2 * Pow2(j) <= Pow2(k)
    decreases k
  {
    if j < k - 1 { Pow2Strict(j, k - 1); }
  }

  /** The capacity exceeds 3 * 2^j - 1 exactly if the size reaches it. */
  lemma CapacityWithin(n: nat, j: nat)
    requires 1 <= n
    ensures Capacity(n) <= 3 * Pow2(j) - 1 <==> n < 3 * Pow2(j) - 1
  {
    var k := CapacityForm(n);
    if k <= j {
      Pow2Grows(k, j);
    } else {
      Pow2Strict(j, k);
      Pow2Grows(j, k - 1);
    }
  }

  lemma {:induction false} CapacityGrows(m: nat, n: nat)
    requires m <= n
    ensures Capacity(m) <= Capacity(n)
    decreases n
  {
    if m < n { CapacityGrows(m, n - 1); }
  }

  function Max(a: nat, b: nat): nat { if a < b then b else a }

  /** Where a buffer was cut off, its capacity is still that of its largest size. */
  lemma PushedAfterCut(peak: nat, n: nat)
    requires n <= peak
    ensures Grown(Capacity(peak), n) == Capacity(Max(peak, n + 1))
  {
    if n < peak { var k := CapacityForm(peak); }
  }

  lemma LargePowers()
    ensures Pow2(26) == 0x400_0000 && Pow2(27) == 0x800_0000 && Pow2(29) == 0x2000_0000 && Pow2(30) == 0x4000_0000
  {
    assert Pow2(8) == 0x100;
    assert Pow2(16) == 0x1_0000;
    assert Pow2(24) == 0x100_0000;
  }

  /** The largest size that bytes can have: the next capacity would be no int. */
  const MAX_BYTES: nat := 1_610_612_734

  /** The largest number of pointers of eight bytes whose capacity in bytes is an int. */
  const MAX_POINTERS: nat := 201_326_590

  lemma BytesFit(n: nat)
    ensures Capacity(n) <= INT_MAX <==> n <= MAX_BYTES
  {
    LargePowers();
    if n >= 1 {
      CapacityWithin(n, 29);
      var k := CapacityForm(n);
      if k >= 30 { Pow2Grows(30, k); } else { Pow2Grows(k, 29); }
    }
  }

  lemma PointersFit(n: nat)
    ensures 8 * Capacity(n) <= INT_MAX <==> n <= MAX_POINTERS
  {
    LargePowers();
    if n >= 1 {
      CapacityWithin(n, 26);
      var k := CapacityForm(n);
      if k >= 27 { Pow2Grows(27, k); } else { Pow2Grows(k, 26); }
    }
  }
}
