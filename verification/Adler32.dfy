// The checksum at the end of a zlib stream (RFC 1950, section 8.2), summed in blocks so that
// 32-bit sums never wrap around.
module Adler32 {
  import opened Base

  const MOD: nat := 65521
  const BLOCK: nat := 5552
  const UINT32: nat := 0x1_0000_0000

  /** 1 plus the first k bytes. */
  function SumA(data: seq<Byte>, k: nat): nat
    requires k <= |data|
  {
    if k == 0 then 1 else SumA(data, k - 1) + data[k - 1] as int
  }

  /** The sum of the first k of these sums. */
  function SumB(data: seq<Byte>, k: nat): nat
    requires k <= |data|
  {
    if k == 0 then 0 else SumB(data, k - 1) + SumA(data, k)
  }

  /** The first k of n bytes, each as often as there are bytes from it on. */
  function Weighted(data: seq<Byte>, k: nat, n: nat): nat
    requires k <= |data| && k <= n
  {
    if k == 0 then 0 else Weighted(data, k - 1, n) + (n - (k - 1)) * data[k - 1]
  }

  lemma {:induction false} OneHeavier(data: seq<Byte>, k: nat, n: nat)
    requires k <= |data| && k <= n
    ensures Weighted(data, k, n + 1) == Weighted(data, k, n) + SumA(data, k) - 1
  {
    if k > 0 { OneHeavier(data, k - 1, n); }
  }

  /** The second sum counts the first byte n times, the next one once less, and so on. */
  lemma {:induction false} SumsInOne(data: seq<Byte>, n: nat)
    requires n <= |data|
    ensures SumB(data, n) == n + Weighted(data, n, n)
  {
    if n > 0 {
      SumsInOne(data, n - 1);
      OneHeavier(data, n - 1, n - 1);
    }
  }

  // ----- the modulus -----

  lemma MultipleIsLarge(d: nat, k: int)
    ensures k >= 1 ==> d * k >= d
    ensures k <= -1 ==> d * k <= 0 - d
  {
    if k >= 1 { assert d * k == d * (k - 1) + d && d * (k - 1) >= 0; }
    if k <= -1 { assert d * k == -(d * (-k - 1)) - d && d * (-k - 1) >= 0; }
  }

  lemma FactorDivides(n: nat, d: nat, e: nat)
    requires n == d * e && 1 <= d
    ensures n % d == 0
  {
    var k := e - n / d;
    assert n == d * (n / d) + n % d;
    assert d * e == d * (n / d) + d * k;
    MultipleIsLarge(d, k);
  }

  lemma TwoLargeFactors(d: nat, e: nat)
    requires d >= 256 && e >= 256
    ensures d * e >= 65536
  {
    MultipleIsLarge(e, d - 255);
    assert d * e == e * (d - 255) + 255 * e;
  }

  lemma NoSmallDivisor(d: nat)
    requires 2 <= d < 256
    ensures MOD % d != 0
  {
  }

  /** MOD is a prime, */
  lemma ModIsPrime(d: nat, e: nat)
    requires d * e == MOD
    ensures d == 1 || e == 1
  {
    if d >= 256 && e >= 256 { TwoLargeFactors(d, e); }
    if d >= 2 && e >= 2 {
      FactorDivides(MOD, d, e);
      FactorDivides(MOD, e, d);
      NoSmallDivisor(if d < 256 then d else e);
    }
  }

  /** and no number from there to 65535 is one. */
  lemma ModIsLargest(n: nat)
    requires MOD < n < 65536
    ensures exists d :: 2 <= d < n && n % d == 0
  {
    var d := if n % 2 == 0 then 2 else if n % 3 == 0 then 3 else if n % 5 == 0 then 5 else if n % 7 == 0 then 7
             else if n % 13 == 0 then 13 else 19;
    assert 2 <= d < n && n % d == 0;
  }

  /** The most that the second sum can reach k bytes after a reduction. */
  function MaxB(k: nat): nat
  {
    if k == 0 then MOD - 1 else MaxB(k - 1) + MOD - 1 + 255 * k
  }

  lemma {:induction false} MaxBClosed(k: nat)
    ensures 2 * MaxB(k) == 2 * (MOD - 1) * (k + 1) + 255 * k * (k + 1)
  {
    if k > 0 { MaxBClosed(k - 1); }
  }

  lemma {:induction false} MaxBGrows(j: nat, k: nat)
    requires j <= k
    ensures MaxB(j) <= MaxB(k)
  {
    if j < k { MaxBGrows(j, k - 1); }
  }

  lemma NoWrap(k: nat)
    requires k <= BLOCK
    ensures MaxB(k) < UINT32
  {
    MaxBGrows(k, BLOCK);
    MaxBClosed(BLOCK);
  }

  lemma Congruent(x: nat, y: nat, p: nat, q: nat)
    requires x % MOD == y % MOD && p % MOD == q % MOD
    ensures (x + p) % MOD == (y + q) % MOD
  {
  }

  /** One more byte. */
  method AddByte(data: seq<Byte>, k: nat, i: nat, a: nat, b: nat) returns (s1: nat, s2: nat)
    requires k < |data| && i < BLOCK && a <= MOD - 1 + 255 * i && b <= MaxB(i)
    requires a % MOD == SumA(data, k) % MOD && b % MOD == SumB(data, k) % MOD
    ensures s1 <= MOD - 1 + 255 * (i + 1) && s2 <= MaxB(i + 1)
    ensures s1 % MOD == SumA(data, k + 1) % MOD && s2 % MOD == SumB(data, k + 1) % MOD
  {
    s1 := a + data[k] as int;
    Congruent(a, SumA(data, k), data[k], data[k]);
    s2 := b + s1;
    Congruent(b, SumB(data, k), s1, SumA(data, k + 1));
    NoWrap(i + 1);
    assert s1 < UINT32 && s2 < UINT32;
  }

  /** One block of at most 5552 bytes, starting from reduced sums: the sums stay below 2^32. */
  method SumBlock(data: seq<Byte>, j: nat, blocklen: nat, a: nat, b: nat) returns (s1: nat, s2: nat)
    requires j + blocklen <= |data| && blocklen <= BLOCK && a < MOD && b < MOD
    requires a == SumA(data, j) % MOD && b == SumB(data, j) % MOD
    ensures s1 == SumA(data, j + blocklen) % MOD && s2 == SumB(data, j + blocklen) % MOD
  {
    s1, s2 := a, b;
    for i := 0 to blocklen
      invariant s1 <= MOD - 1 + 255 * i && s2 <= MaxB(i)
      invariant s1 % MOD == SumA(data, j + i) % MOD && s2 % MOD == SumB(data, j + i) % MOD
    {
      s1, s2 := AddByte(data, j + i, i, s1, s2);
    }
    s1 := s1 % MOD;
    s2 := s2 % MOD;
  }

  method Adler(data: seq<Byte>) returns (s1: nat, s2: nat)
    ensures s1 == SumA(data, |data|) % MOD && s2 == SumB(data, |data|) % MOD
  {
    s1, s2 := 1, 0;
    var blocklen := |data| % BLOCK;
    var j := 0;
    while j < |data|
      invariant j <= |data| && s1 == SumA(data, j) % MOD && s2 == SumB(data, j) % MOD
      invariant j < |data| ==> if j == 0 && blocklen < BLOCK then blocklen == |data| % BLOCK
                               else blocklen == BLOCK && (|data| - j) % BLOCK == 0
      decreases |data| - j, if blocklen == 0 then 1 else 0
    {
      s1, s2 := SumBlock(data, j, blocklen, s1, s2);
      j := j + blocklen;
      blocklen := BLOCK;
    }
  }
}
