// Unsigned numbers as the machine sees them: powers of two, shifts, masks, and the bits of a
// number from the least significant one on.
module Binary {

  function Pow2(k: nat): (p: nat)
    ensures p >= 1
  {
    if k == 0 then 1 else 2 * Pow2(k - 1)
  }

  /** a & b */
  function BitAnd(a: nat, b: nat): nat
  {
    if a == 0 || b == 0 then 0 else 2 * BitAnd(a / 2, b / 2) + (a % 2) * (b % 2)
  }

  /** a | b */
  function BitOr(a: nat, b: nat): nat
  {
    if a == 0 then b else if b == 0 then a
    else 2 * BitOr(a / 2, b / 2) + (if a % 2 == 1 || b % 2 == 1 then 1 else 0)
  }

  /** x << n */
  function Shl(x: nat, n: nat): nat
  {
    if n == 0 then x else 2 * Shl(x, n - 1)
  }

  /** x >> n */
  function Shr(x: nat, n: nat): nat
  {
    if n == 0 then x else Shr(x / 2, n - 1)
  }

  /** x & ((1 << n) - 1) */
  function Low(x: nat, n: nat): nat
  {
    if n == 0 then 0 else x % 2 + 2 * Low(x / 2, n - 1)
  }

  lemma {:induction false} ShlOfZero(k: nat)
    ensures Shl(0, k) == 0
  {
    if k > 0 { ShlOfZero(k - 1); }
  }

  lemma {:induction false} ShlIsPow2(n: nat)
    ensures Shl(1, n) == Pow2(n)
  {
    if n > 0 { ShlIsPow2(n - 1); }
  }

  lemma {:induction false} ShlAgain(x: nat, m: nat, n: nat)
    ensures Shl(Shl(x, m), n) == Shl(x, m + n)
  {
    if n > 0 { ShlAgain(x, m, n - 1); }
  }

  lemma {:induction false} LowIsMask(x: nat, n: nat)
    ensures BitAnd(x, Pow2(n) - 1) == Low(x, n)
  {
    if n > 0 {
      LowIsMask(x / 2, n - 1);
      assert (Pow2(n) - 1) / 2 == Pow2(n - 1) - 1 && (Pow2(n) - 1) % 2 == 1;
    }
  }

  lemma {:induction false} LowBound(x: nat, n: nat)
    ensures Low(x, n) < Pow2(n)
    ensures x < Pow2(n) ==> Low(x, n) == x
  {
    if n > 0 { LowBound(x / 2, n - 1); }
  }

  lemma {:induction false} ShrBound(x: nat, n: nat, m: nat)
    requires x < Pow2(n + m)
    ensures Shr(x, n) < Pow2(m)
  {
    if n > 0 { ShrBound(x / 2, n - 1, m); }
  }

  lemma {:induction false} Pow2Grows(m: nat, n: nat)
    requires m <= n
    ensures Pow2(m) <= Pow2(n)
  {
    if m < n { Pow2Grows(m, n - 1); }
  }

  // ----- bits -----

  /** The n least significant bits, the least significant one first. */
  function BitsOf(x: nat, n: nat): (bits: seq<bool>)
    ensures |bits| == n
  {
    if n == 0 then [] else [x % 2 == 1] + BitsOf(x / 2, n - 1)
  }

  function ValueOf(bits: seq<bool>): nat
  {
    if bits == [] then 0 else (if bits[0] then 1 else 0) + 2 * ValueOf(bits[1..])
  }

  lemma {:induction false} ValueOfBits(x: nat, n: nat)
    ensures ValueOf(BitsOf(x, n)) == Low(x, n)
  {
    if n > 0 {
      ValueOfBits(x / 2, n - 1);
      assert BitsOf(x, n)[1..] == BitsOf(x / 2, n - 1);
    }
  }

  lemma {:induction false} BitsOfValue(bits: seq<bool>)
    ensures BitsOf(ValueOf(bits), |bits|) == bits && ValueOf(bits) < Pow2(|bits|)
    decreases |bits|
  {
    if bits != [] {
      BitsOfValue(bits[1..]);
    }
  }

  lemma {:induction false} BitsOfLow(x: nat, n: nat)
    ensures BitsOf(Low(x, n), n) == BitsOf(x, n)
  {
    if n > 0 { BitsOfLow(x / 2, n - 1); }
  }

  /** Shifting right drops the low bits. */
  lemma {:induction false} BitsSplit(x: nat, n: nat, m: nat)
    ensures BitsOf(x, n + m) == BitsOf(x, n) + BitsOf(Shr(x, n), m)
  {
    if n > 0 {
      BitsSplit(x / 2, n - 1, m);
      assert BitsOf(x, n + m) == [x % 2 == 1] + (BitsOf(x / 2, n - 1) + BitsOf(Shr(x / 2, n - 1), m));
    }
  }

  /** Or-ing in a number shifted past all set bits puts its bits behind them. */
  lemma {:induction false} BitsJoin(x: nat, y: nat, n: nat, m: nat)
    requires x < Pow2(n) && y < Pow2(m)
    ensures BitOr(x, Shl(y, n)) < Pow2(n + m)
    ensures BitsOf(BitOr(x, Shl(y, n)), n + m) == BitsOf(x, n) + BitsOf(y, m)
    decreases n
  {
    if n == 0 {
      assert BitsOf(x, 0) + BitsOf(y, m) == BitsOf(y, m);
    } else {
      BitsJoin(x / 2, y, n - 1, m);
      var or := BitOr(x, Shl(y, n));
      assert or / 2 == BitOr(x / 2, Shl(y, n - 1)) && or % 2 == x % 2;
      assert BitsOf(or, n + m) == [x % 2 == 1] + (BitsOf(x / 2, n - 1) + BitsOf(y, m));
    }
  }

  lemma {:induction false} BitsUnique(x: nat, y: nat, n: nat)
    requires x < Pow2(n) && y < Pow2(n) && BitsOf(x, n) == BitsOf(y, n)
    ensures x == y
  {
    ValueOfBits(x, n);
    ValueOfBits(y, n);
    LowBound(x, n);
    LowBound(y, n);
  }

  // ----- reversal -----

  /** The n low bits of x in reverse order. */
  function Reverse(x: nat, n: nat): nat
  {
    if n == 0 then 0 else BitOr(Reverse(x / 2, n - 1), Shl(x % 2, n - 1))
  }

  lemma {:induction false} ReverseBits(x: nat, n: nat)
    ensures Reverse(x, n) < Pow2(n)
    ensures forall i :: 0 <= i < n ==> BitsOf(Reverse(x, n), n)[i] == BitsOf(x, n)[n - 1 - i]
  {
    if n > 0 {
      ReverseBits(x / 2, n - 1);
      assert Pow2(1) == 2 * Pow2(0);
      BitsJoin(Reverse(x / 2, n - 1), x % 2, n - 1, 1);
    }
  }

  lemma ReverseTwice(x: nat, n: nat)
    ensures Reverse(Reverse(x, n), n) == Low(x, n)
  {
    ReverseBits(x, n);
    ReverseBits(Reverse(x, n), n);
    BitsOfLow(x, n);
    LowBound(x, n);
    assert BitsOf(Reverse(Reverse(x, n), n), n) == BitsOf(x, n);
    BitsUnique(Reverse(Reverse(x, n), n), Low(x, n), n);
  }

  /** The top s of s + t reversed bits are the low s bits, reversed. */
  lemma ReverseTop(x: nat, s: nat, t: nat)
    ensures Shr(Reverse(x, s + t), t) == Reverse(x, s)
  {
    var r := Reverse(x, t + s);
    ReverseBits(x, t + s);
    ReverseBits(x, s);
    BitsSplit(r, t, s);
    BitsSplit(x, s, t);
    ShrBound(r, t, s);
    assert BitsOf(Shr(r, t), s) == BitsOf(r, t + s)[t..];
    assert BitsOf(x, s) == BitsOf(x, s + t)[..s];
    assert BitsOf(Shr(r, t), s) == BitsOf(Reverse(x, s), s);
    BitsUnique(Shr(r, t), Reverse(x, s), s);
  }

  /** One more bit in front of the reversed ones. */
  lemma ReverseNext(x: nat, n: nat)
    ensures Reverse(x, n + 1) == 2 * Reverse(x, n) + Shr(x, n) % 2
  {
    ReverseTop(x, n, 1);
    ReverseBits(x, n + 1);
    BitsSplit(x, n, 1);
    var r := Reverse(x, n + 1);
    assert Shr(r, 1) == Shr(r / 2, 0) == r / 2;
    assert BitsOf(r, n + 1)[0] == (r % 2 == 1);
    assert BitsOf(x, n + 1)[n] == BitsOf(Shr(x, n), 1)[0];
  }
}
