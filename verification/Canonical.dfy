// Canonical Huffman codes as section 3.2.2 of RFC 1951 defines them from the code lengths.
module Canonical {
  import opened Base
  import opened Binary

  const MAX_BITS: nat := 15

  predicate Lengths(l: seq<nat>)
  {
    forall i :: 0 <= i < |l| ==> l[i] <= MAX_BITS
  }

  /** The number of codes of length s. */
  function CountOf(l: seq<nat>, s: nat): (n: nat)
    ensures n <= |l|
  {
    if l == [] then 0 else CountOf(l[..|l| - 1], s) + Count(l[|l| - 1] == s)
  }

  /** The smallest code of length s. */
  function FirstCode(l: seq<nat>, s: nat): nat
    requires 1 <= s
  {
    if s == 1 then 0 else 2 * (FirstCode(l, s - 1) + CountOf(l, s - 1))
  }

  /** How many symbols before i have a code as long as that of i. */
  function Rank(l: seq<nat>, i: nat): nat
    requires i < |l|
  {
    CountOf(l[..i], l[i])
  }

  /** Codes of one length are consecutive, in the order of the symbols. */
  function CodeOf(l: seq<nat>, i: nat): nat
    requires i < |l| && 1 <= l[i]
  {
    FirstCode(l, l[i]) + Rank(l, i)
  }

  /** The code as it is sent: its most significant bit first. */
  function CodeBits(l: seq<nat>, i: nat): (bits: seq<bool>)
    requires i < |l| && 1 <= l[i]
    ensures |bits| == l[i]
  {
    BitsOf(Reverse(CodeOf(l, i), l[i]), l[i])
  }

  /** Reading l[i] bits of w, the least significant bit of w first and the first bit read as
      the most significant one, gives the code of i. */
  predicate Matches(l: seq<nat>, i: nat, w: nat)
  {
    i < |l| && 1 <= l[i] && Reverse(w, l[i]) == CodeOf(l, i)
  }

  /** One past the largest code of length at most s, left-aligned in 16 bits. */
  function Top(l: seq<nat>, s: nat): nat
    requires 1 <= s <= 16
  {
    Shl(FirstCode(l, s) + CountOf(l, s), 16 - s)
  }

  /** The codes of length s are numbers of s bits. */
  predicate LengthFits(l: seq<nat>, s: nat)
    requires 1 <= s
  {
    CountOf(l, s) > 0 ==> FirstCode(l, s) + CountOf(l, s) <= Pow2(s)
  }

  /** No length has more codes than fit. */
  ghost predicate Fits(l: seq<nat>)
  {
    forall s :: 1 <= s <= MAX_BITS ==> LengthFits(l, s)
  }

  // ----- shifts -----

  lemma {:induction false} ShlDoubles(x: nat, n: nat)
    ensures Shl(2 * x, n) == 2 * Shl(x, n) == Shl(x, n + 1)
  {
    if n > 0 { ShlDoubles(x, n - 1); }
  }

  lemma {:induction false} ShlAdds(x: nat, y: nat, n: nat)
    ensures Shl(x + y, n) == Shl(x, n) + Shl(y, n)
  {
    if n > 0 { ShlAdds(x, y, n - 1); }
  }

  /** Comparing the high part is comparing with the left-aligned value. */
  lemma {:induction false} ShrLess(k: nat, x: nat, n: nat)
    ensures Shr(k, n) < x <==> k < Shl(x, n)
  {
    if n > 0 {
      ShrLess(k / 2, x, n - 1);
    }
  }

  lemma {:induction false} ShlOfBit(b: nat, n: nat)
    requires b <= 1
    ensures Shl(b, n) == if b == 0 then 0 else Pow2(n)
  {
    if n > 0 { ShlOfBit(b, n - 1); }
  }

  lemma {:induction false} ShlOfPow2(s: nat, n: nat)
    ensures Shl(Pow2(s), n) == Pow2(s + n)
    decreases n
  {
    if n > 0 { ShlOfPow2(s, n - 1); }
  }

  // ----- the codes of all lengths tile the 16-bit numbers from 0 on -----

  lemma TopStarts(l: seq<nat>, s: nat)
    requires 1 <= s < 16
    ensures Shl(FirstCode(l, s + 1), 16 - (s + 1)) == Top(l, s) <= Top(l, s + 1)
  {
    ShlDoubles(FirstCode(l, s) + CountOf(l, s), 16 - (s + 1));
    ShlAdds(FirstCode(l, s + 1), CountOf(l, s + 1), 16 - (s + 1));
  }

  lemma {:induction false} TopGrows(l: seq<nat>, s: nat, t: nat)
    requires 1 <= s <= t <= 16
    ensures Top(l, s) <= Top(l, t)
    ensures s < t ==> Top(l, s) <= Shl(FirstCode(l, t), 16 - t)
    decreases t
  {
    if s < t {
      TopGrows(l, s, t - 1);
      TopStarts(l, t - 1);
    }
  }

  /** The bits read with length s give a code of that length exactly when the reversed window
      lies in the tile of s. */
  lemma TileOfLength(l: seq<nat>, s: nat, w: nat)
    requires 1 <= s <= MAX_BITS
    ensures Reverse(w, s) < FirstCode(l, s) <==> Reverse(w, 16) < Shl(FirstCode(l, s), 16 - s)
    ensures Reverse(w, s) < FirstCode(l, s) + CountOf(l, s) <==> Reverse(w, 16) < Top(l, s)
  {
    hide Reverse, Shl, Shr, FirstCode, CountOf;
    ReverseTop(w, s, 16 - s);
    ShrLess(Reverse(w, 16), FirstCode(l, s), 16 - s);
    ShrLess(Reverse(w, 16), FirstCode(l, s) + CountOf(l, s), 16 - s);
  }

  // ----- ranks -----

  lemma {:induction false} RankBelowCount(l: seq<nat>, i: nat, n: nat)
    requires i < n <= |l|
    ensures CountOf(l[..i], l[i]) < CountOf(l[..n], l[i])
    decreases n
  {
    assert l[..n][..n - 1] == l[..n - 1];
    if i < n - 1 { RankBelowCount(l, i, n - 1); }
  }

  lemma RanksDiffer(l: seq<nat>, i: nat, j: nat)
    requires i < j < |l| && l[i] == l[j]
    ensures Rank(l, i) < Rank(l, j)
  {
    RankBelowCount(l, i, j);
  }

  lemma RankInRange(l: seq<nat>, i: nat)
    requires i < |l|
    ensures Rank(l, i) < CountOf(l, l[i])
  {
    RankBelowCount(l, i, |l|);
    assert l[..|l|] == l;
  }

  /** Every rank is taken. */
  lemma {:induction false} SymbolOfRank(l: seq<nat>, s: nat, r: nat) returns (i: nat)
    requires r < CountOf(l, s)
    ensures i < |l| && l[i] == s && Rank(l, i) == r
    decreases |l|
  {
    var n := |l| - 1;
    if r < CountOf(l[..n], s) {
      i := SymbolOfRank(l[..n], s, r);
      assert l[..n][..i] == l[..i];
    } else {
      i := n;
    }
  }

  /** The two rules of section 3.2.2: codes of one length are consecutive, in the order of their
      symbols; */
  lemma CodesAreConsecutive(l: seq<nat>, i: nat, j: nat)
    requires i < j < |l| && 1 <= l[i] == l[j] && forall k :: i < k < j ==> l[k] != l[i]
    ensures CodeOf(l, j) == CodeOf(l, i) + 1
  {
    NoneBetween(l, i, j);
  }

  lemma {:induction false} NoneBetween(l: seq<nat>, i: nat, j: nat)
    requires i < j <= |l| && forall k :: i < k < j ==> l[k] != l[i]
    ensures CountOf(l[..j], l[i]) == CountOf(l[..i], l[i]) + 1
    decreases j
  {
    assert l[..j][..j - 1] == l[..j - 1];
    if i < j - 1 { NoneBetween(l, i, j - 1); }
  }

  /** and shorter codes precede longer ones, compared from their first bits. */
  lemma ShorterComesFirst(l: seq<nat>, i: nat, j: nat)
    requires Lengths(l) && i < |l| && j < |l| && 1 <= l[i] < l[j]
    ensures Shl(CodeOf(l, i), 16 - l[i]) < Shl(CodeOf(l, j), 16 - l[j])
  {
    RankInRange(l, i);
    TopGrows(l, l[i], l[j]);
    ShlGrows(CodeOf(l, i), FirstCode(l, l[i]) + CountOf(l, l[i]), 16 - l[i]);
    ShlAdds(FirstCode(l, l[j]), Rank(l, j), 16 - l[j]);
  }

  lemma {:induction false} ShlGrows(x: nat, y: nat, n: nat)
    requires x < y
    ensures Shl(x, n) < Shl(y, n)
  {
    if n > 0 { ShlGrows(x, y, n - 1); }
  }

  // ----- decoding is unambiguous -----

  lemma MatchInTile(l: seq<nat>, i: nat, w: nat)
    requires Lengths(l) && Matches(l, i, w)
    ensures Shl(FirstCode(l, l[i]), 16 - l[i]) <= Reverse(w, 16) < Top(l, l[i])
  {
    RankInRange(l, i);
    TileOfLength(l, l[i], w);
  }

  /** At most one symbol matches. */
  lemma MatchIsUnique(l: seq<nat>, i: nat, j: nat, w: nat)
    requires Lengths(l) && Matches(l, i, w) && Matches(l, j, w)
    ensures i == j
  {
    MatchInTile(l, i, w);
    MatchInTile(l, j, w);
    if l[i] < l[j] {
      TopGrows(l, l[i], l[j]);
    } else if l[j] < l[i] {
      TopGrows(l, l[j], l[i]);
    } else if i < j {
      RanksDiffer(l, i, j);
    } else if j < i {
      RanksDiffer(l, j, i);
    }
  }

  /** A symbol of length s matches exactly in the tile of s. */
  lemma TileHasSymbol(l: seq<nat>, s: nat, w: nat) returns (i: nat)
    requires 1 <= s <= MAX_BITS
    requires Shl(FirstCode(l, s), 16 - s) <= Reverse(w, 16) < Top(l, s)
    ensures Matches(l, i, w) && l[i] == s
  {
    TileOfLength(l, s, w);
    i := SymbolOfRank(l, s, Reverse(w, s) - FirstCode(l, s));
  }

  /** Below the end of a tile is inside it or inside an earlier one. */
  lemma {:induction false} InSomeTile(l: seq<nat>, s: nat, w: nat) returns (t: nat)
    requires 1 <= s <= MAX_BITS && Reverse(w, 16) < Top(l, s)
    ensures 1 <= t <= s && Shl(FirstCode(l, t), 16 - t) <= Reverse(w, 16) < Top(l, t)
    decreases s
  {
    t := s;
    if s == 1 {
      ShlOfBit(0, 15);
    } else if Reverse(w, 16) < Shl(FirstCode(l, s), 16 - s) {
      TopStarts(l, s - 1);
      t := InSomeTile(l, s - 1, w);
    }
  }

  /** Nothing matches beyond the last tile. */
  lemma NoMatchBeyond(l: seq<nat>, w: nat, i: nat)
    requires Lengths(l) && Reverse(w, 16) >= Top(l, MAX_BITS)
    ensures !Matches(l, i, w)
  {
    if Matches(l, i, w) {
      MatchInTile(l, i, w);
      TopGrows(l, l[i], MAX_BITS);
    }
  }

  /** With lengths that fit, every code is as long as it should be, so it can be sent. */
  lemma CodeFits(l: seq<nat>, i: nat)
    requires Lengths(l) && Fits(l) && i < |l| && 1 <= l[i]
    ensures CodeOf(l, i) < Pow2(l[i])
  {
    RankInRange(l, i);
    assert LengthFits(l, l[i]);
  }

  /** What was sent for i is read as i, whatever comes behind it. */
  lemma SentIsRead(l: seq<nat>, i: nat, w: nat)
    requires Lengths(l) && Fits(l) && i < |l| && 1 <= l[i]
    requires Low(w, l[i]) == Reverse(CodeOf(l, i), l[i])
    ensures Matches(l, i, w)
  {
    CodeFits(l, i);
    ReverseTwice(CodeOf(l, i), l[i]);
    LowBound(CodeOf(l, i), l[i]);
    ReverseOfLow(w, l[i]);
  }

  lemma {:induction false} ReverseOfLow(w: nat, n: nat)
    ensures Reverse(Low(w, n), n) == Reverse(w, n)
  {
    ReverseBits(w, n);
    ReverseBits(Low(w, n), n);
    BitsOfLow(w, n);
    assert BitsOf(Reverse(Low(w, n), n), n) == BitsOf(Reverse(w, n), n);
    BitsUnique(Reverse(Low(w, n), n), Reverse(w, n), n);
  }

  lemma {:induction false} LowTwice(w: nat, m: nat, n: nat)
    requires n <= m
    ensures Low(Low(w, m), n) == Low(w, n)
  {
    if n > 0 { LowTwice(w / 2, m - 1, n - 1); }
  }

  /** Only the low bits decide. */
  lemma MatchesLow(l: seq<nat>, i: nat, w: nat, n: nat)
    requires i < |l| && l[i] <= n
    ensures Matches(l, i, Low(w, n)) == Matches(l, i, w)
  {
    ReverseOfLow(w, l[i]);
    ReverseOfLow(Low(w, n), l[i]);
    LowTwice(w, n, l[i]);
  }

  /** The code is prefix-free. */
  lemma PrefixFree(l: seq<nat>, i: nat, j: nat)
    requires Lengths(l) && Fits(l) && i < |l| && j < |l| && 1 <= l[i] && 1 <= l[j] && i != j
    ensures !(CodeBits(l, i) <= CodeBits(l, j))
  {
    if CodeBits(l, i) <= CodeBits(l, j) {
      var w := Reverse(CodeOf(l, j), l[j]);
      var c := Reverse(CodeOf(l, i), l[i]);
      ReverseBits(CodeOf(l, i), l[i]);
      ReverseBits(CodeOf(l, j), l[j]);
      BitsSplit(w, l[i], l[j] - l[i]);
      assert BitsOf(w, l[i]) == BitsOf(c, l[i]);
      BitsOfLow(w, l[i]);
      LowBound(w, l[i]);
      LowBound(w, l[j]);
      BitsUnique(Low(w, l[i]), c, l[i]);
      SentIsRead(l, i, w);
      SentIsRead(l, j, w);
      MatchIsUnique(l, i, j, w);
    }
  }

  // ----- which lengths fit -----

  /** Kraft's sum: a code of length s takes up a 2^s-th of all 16-bit numbers. */
  function KraftSum(l: seq<nat>): nat
    requires Lengths(l)
  {
    if l == [] then 0
    else
      var s := l[|l| - 1];
      KraftSum(l[..|l| - 1]) + (if s == 0 then 0 else Pow2(16 - s))
  }

  lemma CountOfLonger(l: seq<nat>, x: nat, s: nat)
    ensures CountOf(l + [x], s) == CountOf(l, s) + Count(x == s)
  {
    assert (l + [x])[..|l|] == l;
  }

  /** A tile grows by one code's width when one code is added to its length. */
  lemma TileOfLonger(l: seq<nat>, x: nat, s: nat, a: nat, b: nat)
    requires 1 <= s <= 16
    ensures Shl(b + CountOf(l + [x], s), 16 - s) + Shl(a, 16 - s)
      == Shl(a + CountOf(l, s), 16 - s) + Shl(b, 16 - s) + if x == s then Pow2(16 - s) else 0
  {
    CountOfLonger(l, x, s);
    ShlAdds(b + CountOf(l, s), Count(x == s), 16 - s);
    ShlAdds(b, CountOf(l, s), 16 - s);
    ShlAdds(a, CountOf(l, s), 16 - s);
    ShlOfBit(Count(x == s), 16 - s);
  }

  lemma {:induction false} TopOfLonger(l: seq<nat>, x: nat, s: nat)
    requires 1 <= s <= 16
    ensures Top(l + [x], s) == Top(l, s) + if 1 <= x <= s then Pow2(16 - x) else 0
    decreases s
  {
    TileOfLonger(l, x, s, FirstCode(l, s), FirstCode(l + [x], s));
    if s > 1 {
      TopOfLonger(l, x, s - 1);
      TopStarts(l, s - 1);
      TopStarts(l + [x], s - 1);
    }
  }

  lemma {:induction false} TopIsKraft(l: seq<nat>)
    requires Lengths(l)
    ensures Top(l, MAX_BITS) == KraftSum(l)
    decreases |l|
  {
    if l == [] {
      NoCodes(MAX_BITS);
    } else {
      TopIsKraft(l[..|l| - 1]);
      TopOfLonger(l[..|l| - 1], l[|l| - 1], MAX_BITS);
      assert l == l[..|l| - 1] + [l[|l| - 1]];
    }
  }

  lemma {:induction false} NoCodes(s: nat)
    requires 1 <= s <= 16
    ensures FirstCode([], s) == 0 && Top([], s) == 0
  {
    if s > 1 { NoCodes(s - 1); }
    ShlOfBit(0, 16 - s);
  }

  lemma {:induction false} FirstCodeFits(l: seq<nat>, s: nat)
    requires Fits(l) && 1 <= s <= MAX_BITS
    ensures FirstCode(l, s) + CountOf(l, s) <= Pow2(s)
    decreases s
  {
    assert LengthFits(l, s);
    if s > 1 && CountOf(l, s) == 0 { FirstCodeFits(l, s - 1); }
  }

  lemma TileFits(l: seq<nat>, s: nat)
    requires Top(l, MAX_BITS) <= Pow2(16) && 1 <= s <= MAX_BITS
    ensures FirstCode(l, s) + CountOf(l, s) <= Pow2(s)
  {
    hide Shl, FirstCode, CountOf, Pow2;
    TopGrows(l, s, MAX_BITS);
    ShlOfPow2(s, 16 - s);
    ShlMonotone(Pow2(s), FirstCode(l, s) + CountOf(l, s), 16 - s);
  }

  lemma FittingTop(l: seq<nat>)
    requires FirstCode(l, MAX_BITS) + CountOf(l, MAX_BITS) <= Pow2(MAX_BITS)
    ensures Top(l, MAX_BITS) <= Pow2(16)
  {
    hide Shl, FirstCode, CountOf, Pow2;
    ShlOfPow2(MAX_BITS, 1);
    ShlMonotone(FirstCode(l, MAX_BITS) + CountOf(l, MAX_BITS), Pow2(MAX_BITS), 1);
  }

  /** Lengths fit exactly when they satisfy Kraft's inequality. */
  lemma FitsIsKraft(l: seq<nat>)
    requires Lengths(l)
    ensures Fits(l) <==> KraftSum(l) <= Pow2(16)
  {
    TopIsKraft(l);
    if Fits(l) {
      FirstCodeFits(l, MAX_BITS);
      FittingTop(l);
    } else if Top(l, MAX_BITS) <= Pow2(16) {
      forall s | 1 <= s <= MAX_BITS ensures LengthFits(l, s) { TileFits(l, s); }
    }
  }

  lemma {:induction false} ShlMonotone(x: nat, y: nat, n: nat)
    ensures x < y ==> Shl(x, n) < Shl(y, n)
  {
    if n > 0 { ShlMonotone(x, y, n - 1); }
  }
}
