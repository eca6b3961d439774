// The two ways the codec reverses bits: the writer bit by bit in a loop, the reader by swapping
// ever larger groups.
module BitReverse {
  import opened Binary

  lemma {:induction false} AndBits(a: nat, b: nat, n: nat)
    ensures forall i :: 0 <= i < n ==> BitsOf(BitAnd(a, b), n)[i] == (BitsOf(a, n)[i] && BitsOf(b, n)[i])
  {
    if n > 0 {
      if a == 0 || b == 0 {
        ZeroBits(n);
      } else {
        AndBits(a / 2, b / 2, n - 1);
      }
    }
  }

  lemma {:induction false} OrBits(a: nat, b: nat, n: nat)
    ensures forall i :: 0 <= i < n ==> BitsOf(BitOr(a, b), n)[i] == (BitsOf(a, n)[i] || BitsOf(b, n)[i])
  {
    if n > 0 {
      if a == 0 || b == 0 {
        ZeroBits(n);
      } else {
        OrBits(a / 2, b / 2, n - 1);
      }
    }
  }

  lemma {:induction false} ZeroBits(n: nat)
    ensures forall i :: 0 <= i < n ==> !BitsOf(0, n)[i]
  {
    if n > 0 { ZeroBits(n - 1); }
  }

  lemma ShrBits(a: nat, k: nat, n: nat)
    ensures forall i :: 0 <= i < n ==> BitsOf(Shr(a, k), n)[i] == BitsOf(a, k + n)[k + i]
  {
    BitsSplit(a, k, n);
  }

  lemma {:induction false} ShlBits(a: nat, k: nat, n: nat)
    ensures forall i :: 0 <= i < n ==> BitsOf(Shl(a, k), n)[i] == (i >= k && BitsOf(a, n)[i - k])
  {
    if k > 0 && n > 0 {
      ShlBits(a, k - 1, n - 1);
      BitsPrefix(a, n - 1);
    }
  }

  lemma BitsPrefix(a: nat, n: nat)
    ensures BitsOf(a, n + 1)[..n] == BitsOf(a, n)
  {
    BitsSplit(a, n, 1);
  }

  // ----- the reader's -----

  /** ((n & odd) >> k) | ((n & even) << k) */
  function SwapGroups(x: nat, odd: nat, even: nat, k: nat): nat
  {
    BitOr(Shr(BitAnd(x, odd), k), Shl(BitAnd(x, even), k))
  }

  /** stbi__bitreverse16 */
  function BitReverse16(x: nat): nat
  {
    var a := SwapGroups(x, 0xAAAA, 0x5555, 1);
    var b := SwapGroups(a, 0xCCCC, 0x3333, 2);
    var c := SwapGroups(b, 0xF0F0, 0x0F0F, 4);
    SwapGroups(c, 0xFF00, 0x00FF, 8)
  }

  /** stbi__bit_reverse */
  function BitReverseN(v: nat, bits: nat): nat
    requires bits <= 16
  {
    Shr(BitReverse16(v), 16 - bits)
  }

  /** Bit i belongs to an odd group of k bits. */
  predicate Odd(i: nat, k: nat)
    requires k > 0
  {
    i / k % 2 == 1
  }

  /** The number whose bits below n are set in the odd groups, or in the even ones, counting
      from position i. */
  function GroupMask(k: nat, odd: bool, i: nat, n: nat): nat
    requires k > 0
    decreases n
  {
    if n == 0 then 0 else (if Odd(i, k) == odd then 1 else 0) + 2 * GroupMask(k, odd, i + 1, n - 1)
  }

  lemma {:induction false} GroupMaskBits(k: nat, odd: bool, i: nat, n: nat, m: nat)
    requires k > 0
    ensures forall j :: 0 <= j < m ==>
      BitsOf(GroupMask(k, odd, i, n), m)[j] == (j < n && Odd(i + j, k) == odd)
    decreases n
  {
    if n == 0 {
      ZeroBits(m);
    } else if m > 0 {
      GroupMaskBits(k, odd, i + 1, n - 1, m - 1);
      var mask := GroupMask(k, odd, i, n);
      assert mask / 2 == GroupMask(k, odd, i + 1, n - 1) && (mask % 2 == 1) == (Odd(i, k) == odd);
    }
  }

  predicate GroupSize(k: nat) { k == 1 || k == 2 || k == 4 || k == 8 }

  /** Together the two masks have all bits set. */
  lemma {:induction false} MasksComplete(k: nat, i: nat, n: nat)
    requires k > 0
    ensures GroupMask(k, true, i, n) + GroupMask(k, false, i, n) == Pow2(n) - 1
    decreases n
  {
    if n > 0 { MasksComplete(k, i + 1, n - 1); }
  }

  lemma AllOnes()
    ensures Pow2(16) - 1 == 0xFFFF
  {
    assert Pow2(4) == 16;
    assert Pow2(8) == 256;
    assert Pow2(12) == 4096;
  }

  lemma OddMasks()
    ensures GroupMask(1, true, 0, 16) == 0xAAAA && GroupMask(2, true, 0, 16) == 0xCCCC
    ensures GroupMask(4, true, 0, 16) == 0xF0F0 && GroupMask(8, true, 0, 16) == 0xFF00
  {
    OddMask1();
    OddMask2();
    OddMask4();
    OddMask8();
  }

  lemma OddMask1()
    ensures GroupMask(1, true, 0, 16) == 0xAAAA
  {
    assert GroupMask(1, true, 12, 4) == 0xA;
    assert GroupMask(1, true, 8, 8) == 0xAA;
    assert GroupMask(1, true, 4, 12) == 0xAAA;
  }

  lemma OddMask2()
    ensures GroupMask(2, true, 0, 16) == 0xCCCC
  {
    assert GroupMask(2, true, 12, 4) == 0xC;
    assert GroupMask(2, true, 8, 8) == 0xCC;
    assert GroupMask(2, true, 4, 12) == 0xCCC;
  }

  lemma OddMask4()
    ensures GroupMask(4, true, 0, 16) == 0xF0F0
  {
    assert GroupMask(4, true, 12, 4) == 0xF;
    assert GroupMask(4, true, 8, 8) == 0xF0;
    assert GroupMask(4, true, 4, 12) == 0xF0F;
  }

  lemma OddMask8()
    ensures GroupMask(8, true, 0, 16) == 0xFF00
  {
    assert GroupMask(8, true, 12, 4) == 0xF;
    assert GroupMask(8, true, 8, 8) == 0xFF;
    assert GroupMask(8, true, 4, 12) == 0xFF0;
  }

  /** The masks of stbi__bitreverse16 are the odd and the even groups of 1, 2, 4 and 8 bits. */
  lemma TheMasks()
    ensures GroupMask(1, true, 0, 16) == 0xAAAA && GroupMask(1, false, 0, 16) == 0x5555
    ensures GroupMask(2, true, 0, 16) == 0xCCCC && GroupMask(2, false, 0, 16) == 0x3333
    ensures GroupMask(4, true, 0, 16) == 0xF0F0 && GroupMask(4, false, 0, 16) == 0x0F0F
    ensures GroupMask(8, true, 0, 16) == 0xFF00 && GroupMask(8, false, 0, 16) == 0x00FF
  {
    hide GroupMask, Pow2;
    OddMasks();
    AllOnes();
    MasksComplete(1, 0, 16);
    MasksComplete(2, 0, 16);
    MasksComplete(4, 0, 16);
    MasksComplete(8, 0, 16);
  }

  /** The bit that bit i changes places with. */
  function Partner(i: nat, k: nat): (j: nat)
    requires GroupSize(k) && i < 16
    ensures j < 16
  {
    if Odd(i, k) then i - k else i + k
  }

  lemma PartnerIsOpposite(i: nat, k: nat)
    requires GroupSize(k) && i < 16
    ensures Odd(i + k, k) == !Odd(i, k)
    ensures i >= k ==> Odd(i - k, k) == !Odd(i, k)
    ensures Odd(i, k) ==> i >= k
    ensures !Odd(i, k) ==> i + k < 16
  {
  }

  lemma DownBit(x: nat, k: nat, i: nat)
    requires GroupSize(k) && i < 16
    ensures BitsOf(Shr(BitAnd(x, GroupMask(k, true, 0, 16)), k), 16)[i]
      == (k + i < 16 && Odd(k + i, k) && BitsOf(x, 16)[k + i])
  {
    hide GroupMask, BitAnd, Shr, BitsOf;
    var odd := GroupMask(k, true, 0, 16);
    ShrBits(BitAnd(x, odd), k, 16);
    AndBits(x, odd, k + 16);
    GroupMaskBits(k, true, 0, 16, k + 16);
    if k + i < 16 {
      BitsSplit(x, 16, k);
      assert BitsOf(x, 16 + k)[k + i] == BitsOf(x, 16)[k + i];
    }
  }

  lemma UpBit(x: nat, k: nat, i: nat)
    requires GroupSize(k) && i < 16
    ensures BitsOf(Shl(BitAnd(x, GroupMask(k, false, 0, 16)), k), 16)[i]
      == (i >= k && !Odd(i - k, k) && BitsOf(x, 16)[i - k])
  {
    hide GroupMask, BitAnd, Shl, BitsOf;
    var even := GroupMask(k, false, 0, 16);
    ShlBits(BitAnd(x, even), k, 16);
    AndBits(x, even, 16);
    GroupMaskBits(k, false, 0, 16, 16);
  }

  lemma SwapBit(x: nat, k: nat, i: nat)
    requires GroupSize(k) && i < 16
    ensures var swapped := SwapGroups(x, GroupMask(k, true, 0, 16), GroupMask(k, false, 0, 16), k);
      BitsOf(swapped, 16)[i] == BitsOf(x, 16)[Partner(i, k)]
  {
    hide GroupMask, BitAnd, Shr, Shl, BitsOf, Odd;
    PartnerIsOpposite(i, k);
    DownBit(x, k, i);
    UpBit(x, k, i);
    OrBits(Shr(BitAnd(x, GroupMask(k, true, 0, 16)), k), Shl(BitAnd(x, GroupMask(k, false, 0, 16)), k), 16);
  }

  lemma SwapBits(x: nat, k: nat)
    requires GroupSize(k)
    ensures var swapped := SwapGroups(x, GroupMask(k, true, 0, 16), GroupMask(k, false, 0, 16), k);
      forall i :: 0 <= i < 16 ==> BitsOf(swapped, 16)[i] == BitsOf(x, 16)[Partner(i, k)]
  {
    forall i | 0 <= i < 16
      ensures BitsOf(SwapGroups(x, GroupMask(k, true, 0, 16), GroupMask(k, false, 0, 16), k), 16)[i]
        == BitsOf(x, 16)[Partner(i, k)]
    {
      SwapBit(x, k, i);
    }
  }

  lemma FourSwaps(x: seq<bool>, a: seq<bool>, b: seq<bool>, c: seq<bool>, d: seq<bool>)
    requires |x| == |a| == |b| == |c| == |d| == 16
    requires forall i :: 0 <= i < 16 ==> a[i] == x[Partner(i, 1)]
    requires forall i :: 0 <= i < 16 ==> b[i] == a[Partner(i, 2)]
    requires forall i :: 0 <= i < 16 ==> c[i] == b[Partner(i, 4)]
    requires forall i :: 0 <= i < 16 ==> d[i] == c[Partner(i, 8)]
    ensures forall i :: 0 <= i < 16 ==> d[i] == x[15 - i]
  {
    hide Partner;
    forall i | 0 <= i < 16 ensures d[i] == x[15 - i] {
      FourPartners(i);
      assert d[i] == c[Partner(i, 8)] == b[Partner(Partner(i, 8), 4)];
    }
  }

  lemma FourPartners(i: nat)
    requires i < 16
    ensures Partner(Partner(Partner(Partner(i, 8), 4), 2), 1) == 15 - i
  {
  }

  lemma {:induction false} AndBound(a: nat, b: nat)
    ensures BitAnd(a, b) <= b
  {
    if a > 0 && b > 0 { AndBound(a / 2, b / 2); }
  }

  lemma SwappedIsSmall(x: nat)
    ensures SwapGroups(x, 0xFF00, 0x00FF, 8) < Pow2(16)
  {
    AndBound(x, 0xFF00);
    AndBound(x, 0x00FF);
    assert Pow2(4) == 16 && Pow2(8) == 256 && Pow2(12) == 4096 && Pow2(16) == 65536;
    ShrBound(BitAnd(x, 0xFF00), 8, 8);
    BitsJoin(Shr(BitAnd(x, 0xFF00), 8), BitAnd(x, 0x00FF), 8, 8);
  }

  /** The bits of y are those of x with groups of k swapped. */
  ghost predicate Swapped(x: nat, y: nat, k: nat)
    requires GroupSize(k)
  {
    forall i :: 0 <= i < 16 ==> BitsOf(y, 16)[i] == BitsOf(x, 16)[Partner(i, k)]
  }

  lemma Swap1(x: nat)
    ensures Swapped(x, SwapGroups(x, 0xAAAA, 0x5555, 1), 1)
  {
    hide GroupMask, SwapGroups, BitsOf;
    TheMasks();
    SwapBits(x, 1);
  }

  lemma Swap2(x: nat)
    ensures Swapped(x, SwapGroups(x, 0xCCCC, 0x3333, 2), 2)
  {
    hide GroupMask, SwapGroups, BitsOf;
    TheMasks();
    SwapBits(x, 2);
  }

  lemma Swap4(x: nat)
    ensures Swapped(x, SwapGroups(x, 0xF0F0, 0x0F0F, 4), 4)
  {
    hide GroupMask, SwapGroups, BitsOf;
    TheMasks();
    SwapBits(x, 4);
  }

  lemma Swap8(x: nat)
    ensures Swapped(x, SwapGroups(x, 0xFF00, 0x00FF, 8), 8)
  {
    hide GroupMask, SwapGroups, BitsOf;
    TheMasks();
    SwapBits(x, 8);
  }

  /** Four swaps reverse. */
  lemma SwapsReverse(x: nat, a: nat, b: nat, c: nat, d: nat)
    requires Swapped(x, a, 1) && Swapped(a, b, 2) && Swapped(b, c, 4) && Swapped(c, d, 8) && d < Pow2(16)
    ensures d == Reverse(x, 16)
  {
    hide BitsOf, Reverse, Pow2;
    FourSwaps(BitsOf(x, 16), BitsOf(a, 16), BitsOf(b, 16), BitsOf(c, 16), BitsOf(d, 16));
    ReverseBits(x, 16);
    assert BitsOf(d, 16) == BitsOf(Reverse(x, 16), 16);
    BitsUnique(d, Reverse(x, 16), 16);
  }

  /** Swapping neighbours, pairs, nibbles and bytes reverses all sixteen bits. */
  lemma SwappingReverses(x: nat)
    ensures BitReverse16(x) == Reverse(x, 16)
  {
    var a := SwapGroups(x, 0xAAAA, 0x5555, 1);
    var b := SwapGroups(a, 0xCCCC, 0x3333, 2);
    var c := SwapGroups(b, 0xF0F0, 0x0F0F, 4);
    Swap1(x);
    Swap2(a);
    Swap4(b);
    Swap8(c);
    SwappedIsSmall(c);
    SwapsReverse(x, a, b, c, SwapGroups(c, 0xFF00, 0x00FF, 8));
  }

  /** stbi__bit_reverse reverses the low bits of a number that has no others. */
  lemma BitReverseNReverses(v: nat, bits: nat)
    requires bits <= 16
    ensures BitReverseN(v, bits) == Reverse(v, bits)
  {
    SwappingReverses(v);
    ReverseTop(v, bits, 16 - bits);
  }

  // ----- the writer's -----

  /** stbiw__zlib_bitrev */
  method BitRev(code: nat, codeBits: nat) returns (res: nat)
    ensures res == Reverse(code, codeBits)
  {
    res := 0;
    var rest := code;
    for k := 0 to codeBits
      invariant res == Reverse(code, k) && rest == Shr(code, k)
    {
      ReverseNext(code, k);
      ShrNext(code, k);
      OrBit(res, rest % 2);
      res := BitOr(Shl(res, 1), rest % 2);
      rest := rest / 2;
    }
  }

  lemma {:induction false} ShrNext(x: nat, k: nat)
    ensures Shr(x, k + 1) == Shr(x, k) / 2
  {
    if k > 0 { ShrNext(x / 2, k - 1); }
  }

  lemma OrBit(x: nat, b: nat)
    requires b <= 1
    ensures BitOr(Shl(x, 1), b) == 2 * x + b
  {
    assert Shl(x, 1) == 2 * Shl(x, 0);
  }
}
