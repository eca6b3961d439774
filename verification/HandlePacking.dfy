// How a handle travels: index and generation, 32 bits each, in one 64-bit id.
module HandlePacking {
  import opened Binary
  import opened Handles

  /** The id that register_action makes: the index plus the generation shifted up. */
  function Pack(h: Handle): nat
  {
    h.index + Shl(h.generation, 32)
  }

  /** ActionHandle::index */
  function Index(id: nat): nat
  {
    BitAnd(id, 0xFFFF_FFFF)
  }

  /** ActionHandle::generation, cut to 32 bits */
  function Generation(id: nat): nat
  {
    Low(Shr(id, 32), 32)
  }

  lemma {:induction false} PartsOfSum(low: nat, high: nat, n: nat)
    requires low < Pow2(n)
    ensures Low(low + Shl(high, n), n) == low && Shr(low + Shl(high, n), n) == high
    decreases n
  {
    if n > 0 {
      PartsOfSum(low / 2, high, n - 1);
      assert (low + Shl(high, n)) / 2 == low / 2 + Shl(high, n - 1);
    }
  }

  lemma {:induction false} SumOfParts(x: nat, n: nat)
    ensures Low(x, n) + Shl(Shr(x, n), n) == x
    decreases n
  {
    if n > 0 { SumOfParts(x / 2, n - 1); }
  }

  lemma {:induction false} SumBound(low: nat, high: nat, n: nat, m: nat)
    requires low < Pow2(n) && high < Pow2(m)
    ensures low + Shl(high, n) < Pow2(n + m)
    decreases n
  {
    if n > 0 {
      SumBound(low / 2, high, n - 1, m);
      assert low + Shl(high, n) == 2 * (low / 2 + Shl(high, n - 1)) + low % 2;
    }
  }

  lemma IndexIsLow(id: nat)
    ensures Index(id) == Low(id, 32)
  {
    assert Pow2(8) == 0x100;
    assert Pow2(16) == 0x1_0000;
    assert Pow2(24) == 0x100_0000;
    assert Pow2(32) == 0x1_0000_0000;
    LowIsMask(id, 32);
  }

  lemma {:induction false} ShlIsProduct(x: nat, n: nat)
    ensures Shl(x, n) == x * Pow2(n)
  {
    if n > 0 { ShlIsProduct(x, n - 1); }
  }

  /** The index is the lower half of the id, the generation the upper one. */
  lemma IdLayout(h: Handle)
    ensures Pack(h) == h.index + h.generation * 0x1_0000_0000
  {
    ShlIsProduct(h.generation, 32);
    assert Pow2(8) == 0x100;
    assert Pow2(16) == 0x1_0000;
    assert Pow2(24) == 0x100_0000;
  }

  /** The id fits into 64 bits, and both parts come back from it. */
  lemma PackedIsRead(h: Handle)
    requires h.index < Pow2(32) && h.generation < Pow2(32)
    ensures Pack(h) < Pow2(64) && Handle(Index(Pack(h)), Generation(Pack(h))) == h
  {
    hide Low, Shl, Shr, Pow2, BitAnd;
    IndexIsLow(Pack(h));
    PartsOfSum(h.index, h.generation, 32);
    LowBound(h.generation, 32);
    SumBound(h.index, h.generation, 32, 32);
  }

  /** Every 64-bit id is the id of one handle. */
  lemma ReadIsPacked(id: nat)
    requires id < Pow2(64)
    ensures Pack(Handle(Index(id), Generation(id))) == id
  {
    hide Low, Shl, Shr, Pow2, BitAnd;
    IndexIsLow(id);
    SumOfParts(id, 32);
    ShrBound(id, 32, 32);
    LowBound(Shr(id, 32), 32);
  }
}
