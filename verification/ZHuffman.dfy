// The decoding tables of _3rd/stb/stb_image.h: a table over the next nine bits for the short
// codes, and first codes and limits per length for the others.
module ZHuffman {
  import opened Base
  import opened Binary
  import opened BitReverse
  import opened Canonical

  const FAST_BITS: nat := 9
  const FAST_SIZE: nat := 512
  const SYMBOLS: nat := 288

  // ----- symbols in the order of their codes -----

  /** How many symbols have a code shorter than s. */
  function FirstSymbol(l: seq<nat>, s: nat): nat
    requires 1 <= s
  {
    if s == 1 then 0 else FirstSymbol(l, s - 1) + CountOf(l, s - 1)
  }

  function Index(l: seq<nat>, i: nat): nat
    requires i < |l| && 1 <= l[i]
  {
    FirstSymbol(l, l[i]) + Rank(l, i)
  }

  lemma {:induction false} FirstSymbolGrows(l: seq<nat>, s: nat, t: nat)
    requires 1 <= s < t
    ensures FirstSymbol(l, s) + CountOf(l, s) <= FirstSymbol(l, t)
    decreases t
  {
    if s < t - 1 { FirstSymbolGrows(l, s, t - 1); }
  }

  lemma {:induction false} FirstSymbolOfLonger(l: seq<nat>, x: nat, s: nat)
    requires 1 <= s
    ensures FirstSymbol(l + [x], s) == FirstSymbol(l, s) + Count(1 <= x < s)
    decreases s
  {
    if s > 1 {
      FirstSymbolOfLonger(l, x, s - 1);
      CountOfLonger(l, x, s - 1);
    }
  }

  lemma {:induction false} FirstSymbolBound(l: seq<nat>, s: nat)
    requires 1 <= s
    ensures FirstSymbol(l, s) <= |l|
    decreases |l|
  {
    if l == [] {
      NoSymbols(s);
    } else {
      var n := |l| - 1;
      FirstSymbolBound(l[..n], s);
      FirstSymbolOfLonger(l[..n], l[n], s);
      assert l == l[..n] + [l[n]];
    }
  }

  lemma {:induction false} NoSymbols(s: nat)
    requires 1 <= s
    ensures FirstSymbol([], s) == 0
  {
    if s > 1 { NoSymbols(s - 1); }
  }

  lemma IndexInRange(l: seq<nat>, i: nat)
    requires i < |l| && 1 <= l[i]
    ensures FirstSymbol(l, l[i]) <= Index(l, i) < FirstSymbol(l, l[i] + 1) <= |l|
  {
    RankInRange(l, i);
    FirstSymbolBound(l, l[i] + 1);
  }

  lemma IndexIsUnique(l: seq<nat>, i: nat, j: nat)
    requires i < |l| && j < |l| && 1 <= l[i] && 1 <= l[j] && i != j
    ensures Index(l, i) != Index(l, j)
  {
    IndexInRange(l, i);
    IndexInRange(l, j);
    if l[i] < l[j] {
      FirstSymbolGrows(l, l[i], l[j]);
    } else if l[j] < l[i] {
      FirstSymbolGrows(l, l[j], l[i]);
    } else if i < j {
      RanksDiffer(l, i, j);
    } else {
      RanksDiffer(l, j, i);
    }
  }

  // ----- entries of the fast table -----

  /** What an entry says, when the symbols before n have been entered. */
  ghost predicate FastEntry(l: seq<nat>, n: nat, window: nat, entry: nat)
    requires n <= |l|
  {
    if entry == 0 then
      forall j :: 0 <= j < n && l[j] <= FAST_BITS ==> !Matches(l, j, window)
    else
      var i, s := entry % FAST_SIZE, entry / FAST_SIZE;
      i < n && l[i] == s <= FAST_BITS && Matches(l, i, window)
  }

  /** A window whose low bits are the reversed code is a window that matches. */
  lemma MatchesByLow(l: seq<nat>, i: nat, w: nat)
    requires Lengths(l) && Fits(l) && i < |l| && 1 <= l[i]
    ensures Matches(l, i, w) <==> Low(w, l[i]) == Reverse(CodeOf(l, i), l[i])
  {
    if Low(w, l[i]) == Reverse(CodeOf(l, i), l[i]) { SentIsRead(l, i, w); }
    if Matches(l, i, w) { ReverseTwice(w, l[i]); }
  }

  lemma {:induction false} LowRepeats(w: nat, s: nat)
    ensures Low(w + Pow2(s), s) == Low(w, s)
  {
    if s > 0 { LowRepeats(w / 2, s - 1); }
  }

  lemma {:induction false} LowDiffers(w: nat, d: nat, s: nat)
    requires 0 < d < Pow2(s)
    ensures Low(w + d, s) != Low(w, s)
  {
    if d % 2 == 0 {
      LowDiffers(w / 2, d / 2, s - 1);
      assert (w + d) / 2 == w / 2 + d / 2;
    }
  }

  // ----- the tables -----

  class Table {
    const fast: array<nat>
    const firstCode: array<nat>
    const maxCode: array<nat>
    const firstSymbol: array<nat>
    const size: array<nat>
    const value: array<nat>

    constructor ()
      ensures Shape()
      ensures fresh(fast) && fresh(firstCode) && fresh(maxCode) && fresh(firstSymbol) && fresh(size) && fresh(value)
    {
      fast := new nat[FAST_SIZE](_ => 0);
      firstCode := new nat[16](_ => 0);
      maxCode := new nat[17](_ => 0);
      firstSymbol := new nat[16](_ => 0);
      size := new nat[SYMBOLS](_ => 0);
      value := new nat[SYMBOLS](_ => 0);
    }

    ghost predicate Shape()
    {
      && fast.Length == FAST_SIZE && firstCode.Length == 16 && maxCode.Length == 17
      && firstSymbol.Length == 16 && size.Length == SYMBOLS && value.Length == SYMBOLS
      && fast != firstCode && fast != maxCode && fast != firstSymbol && fast != size && fast != value
      && firstCode != maxCode && firstCode != firstSymbol && firstCode != size && firstCode != value
      && maxCode != firstSymbol && maxCode != size && maxCode != value
      && firstSymbol != size && firstSymbol != value && size != value
    }

    ghost predicate FastOk(l: seq<nat>, n: nat)
      requires Shape() && n <= |l|
      reads fast
    {
      forall w :: 0 <= w < FAST_SIZE ==> FastEntry(l, n, w, fast[w])
    }

    ghost predicate CodesOk(l: seq<nat>, n: nat)
      requires Shape() && n <= 16
      reads firstCode, maxCode, firstSymbol
    {
      forall s :: 1 <= s < n ==>
        firstCode[s] == FirstCode(l, s) && maxCode[s] == Top(l, s) && firstSymbol[s] == FirstSymbol(l, s)
    }

    ghost predicate SymbolsOk(l: seq<nat>, n: nat)
      requires Shape() && n <= |l| <= SYMBOLS
      reads size, value
    {
      forall i :: 0 <= i < n && 1 <= l[i] ==> SymbolOk(l, i)
    }

    ghost predicate SymbolOk(l: seq<nat>, i: nat)
      requires Shape() && i < |l| <= SYMBOLS && 1 <= l[i]
      reads size, value
    {
      Index(l, i) < SYMBOLS && size[Index(l, i)] == l[i] && value[Index(l, i)] == i
    }

    /** The tables were built for these lengths. */
    ghost predicate Built(l: seq<nat>)
      reads fast, firstCode, maxCode, firstSymbol, size, value
    {
      && Shape() && |l| <= SYMBOLS && Lengths(l) && Fits(l)
      && FastOk(l, |l|) && CodesOk(l, 16) && SymbolsOk(l, |l|) && maxCode[16] == 0x10000
    }

    /** z->fast[j] for every j that ends in the reversed code. */
    method FillFast(start: nat, s: nat, entry: nat)
      requires Shape() && s <= FAST_BITS && start < Pow2(s)
      modifies fast
      ensures forall w :: 0 <= w < FAST_SIZE ==>
        fast[w] == if Low(w, s) == start then entry else old(fast[w])
    {
      var j := start;
      var step := Shl(1, s);
      ShlIsPow2(s);
      Pow2Grows(s, FAST_BITS);
      assert Pow2(4) == 16 && Pow2(FAST_BITS) == 512;
      LowBound(start, s);
      forall w | 0 <= w < start ensures Low(w, s) != start { LowBound(w, s); }
      while j < FAST_SIZE
        invariant Low(j, s) == start
        invariant forall w :: 0 <= w < j && w < FAST_SIZE ==>
          fast[w] == if Low(w, s) == start then entry else old(fast[w])
        invariant forall w :: j <= w < FAST_SIZE ==> fast[w] == old(fast[w])
      {
        fast[j] := entry;
        forall w | j < w < j + step ensures Low(w, s) != start { LowDiffers(j, w - j, s); }
        LowRepeats(j, s);
        j := j + step;
      }
    }

    method CountSizes(sizeList: seq<nat>, sizes: array<nat>)
      requires Lengths(sizeList) && sizes.Length == 17
      requires forall s :: 0 <= s < 17 ==> sizes[s] == 0
      modifies sizes
      ensures forall s :: 0 <= s < 17 ==> sizes[s] == CountOf(sizeList, s)
    {
      for i := 0 to |sizeList|
        invariant forall s :: 0 <= s < 17 ==> sizes[s] == CountOf(sizeList[..i], s)
      {
        assert sizeList[..i + 1][..i] == sizeList[..i];
        sizes[sizeList[i]] := sizes[sizeList[i]] + 1;
      }
      assert sizeList[..|sizeList|] == sizeList;
    }

    ghost predicate FirstCodesCopied(l: seq<nat>, i: nat, nextCode: array<nat>)
      requires i <= 16 && nextCode.Length == 16
      reads nextCode
    {
      forall s :: 1 <= s < i ==> nextCode[s] == FirstCode(l, s)
    }

    /** One turn of the second loop: the first code and symbol of length i, and its limit. */
    method EnterLength(ghost l: seq<nat>, i: nat, code: nat, k: nat, count: nat, nextCode: array<nat>)
        returns (ok: bool)
      requires Shape() && 1 <= i < 16 && CodesOk(l, i) && count == CountOf(l, i)
      requires code == FirstCode(l, i) && k == FirstSymbol(l, i)
      requires nextCode.Length == 16 && FirstCodesCopied(l, i, nextCode)
      requires nextCode != firstCode && nextCode != maxCode && nextCode != firstSymbol
      modifies nextCode, firstCode, maxCode, firstSymbol
      ensures ok <==> LengthFits(l, i)
      ensures ok ==> CodesOk(l, i + 1) && FirstCodesCopied(l, i + 1, nextCode)
    {
      nextCode[i] := code;
      firstCode[i] := code;
      firstSymbol[i] := k;
      if count > 0 && Overflows(code + count, i) {
        return false;
      }
      maxCode[i] := Shl(code + count, 16 - i);
      ok := true;
    }

    /** First codes, first symbols and limits per length, and whether the codes fit. */
    method FirstCodes(ghost l: seq<nat>, sizes: array<nat>, nextCode: array<nat>) returns (ok: bool)
      requires Shape() && sizes.Length == 17 && nextCode.Length == 16
      requires forall s :: 1 <= s < 16 ==> sizes[s] == CountOf(l, s)
      requires nextCode != firstCode && nextCode != maxCode && nextCode != firstSymbol
      requires sizes != firstCode && sizes != maxCode && sizes != firstSymbol && sizes != nextCode
      modifies nextCode, firstCode, maxCode, firstSymbol
      ensures ok <==> Fits(l)
      ensures ok ==> CodesOk(l, 16) && maxCode[16] == 0x10000 && FirstCodesCopied(l, 16, nextCode)
    {
      var code, k := 0, 0;
      for i := 1 to 16
        invariant code == FirstCode(l, i) && k == FirstSymbol(l, i)
        invariant CodesOk(l, i) && FirstCodesCopied(l, i, nextCode)
        invariant forall s :: 1 <= s < i ==> LengthFits(l, s)
      {
        ok := EnterLength(l, i, code, k, sizes[i], nextCode);
        if !ok { return; }
        assert Shl(code + sizes[i], 0) == code + sizes[i];
        code := Shl(code + sizes[i], 1);
        k := k + sizes[i];
      }
      maxCode[16] := 0x10000;
      ok := true;
    }

    /** code - 1 >= (1 << i) */
    static function Overflows(code: nat, i: nat): (r: bool)
      ensures r <==> code > Pow2(i)
    {
      ShlIsPow2(i);
      code - 1 >= Shl(1, i)
    }

    lemma FastGrows(l: seq<nat>, i: nat, w: nat, entry: nat)
      requires Lengths(l) && i < |l| <= SYMBOLS && FastEntry(l, i, w, entry)
      ensures l[i] == 0 || l[i] > FAST_BITS ==> FastEntry(l, i + 1, w, entry)
      ensures 1 <= l[i] <= FAST_BITS ==>
        FastEntry(l, i + 1, w, if Matches(l, i, w) then l[i] * FAST_SIZE + i else entry)
    {
    }

    /** The symbol's entries: its place in the order of codes, and the fast table if its code
        is short. */
    method EnterSymbol(l: seq<nat>, i: nat, nextCode: array<nat>)
      requires Shape() && Lengths(l) && Fits(l) && i < |l| <= SYMBOLS && 1 <= l[i]
      requires CodesOk(l, 16) && SymbolsOk(l, i) && FastOk(l, i)
      requires nextCode.Length == 16 && nextCode[l[i]] == FirstCode(l, l[i]) + CountOf(l[..i], l[i])
      requires nextCode != fast && nextCode != size && nextCode != value
      modifies fast, size, value
      ensures SymbolsOk(l, i + 1) && FastOk(l, i + 1)
    {
      var s := l[i];
      var c := nextCode[s] - firstCode[s] + firstSymbol[s];
      IndexInRange(l, i);
      forall j | 0 <= j < i && 1 <= l[j] ensures Index(l, j) != c && SymbolOk(l, j) { IndexIsUnique(l, i, j); }
      size[c] := s;
      value[c] := i;
      EnterFast(l, i, nextCode[s]);
    }

    method EnterFast(l: seq<nat>, i: nat, code: nat)
      requires Shape() && Lengths(l) && Fits(l) && i < |l| <= SYMBOLS && 1 <= l[i] && FastOk(l, i)
      requires code == CodeOf(l, i)
      modifies fast
      ensures FastOk(l, i + 1)
    {
      var s := l[i];
      ghost var before := fast[..];
      if s <= FAST_BITS {
        BitReverseNReverses(code, s);
        ReverseBits(code, s);
        FillFast(BitReverseN(code, s), s, s * FAST_SIZE + i);
      }
      forall w | 0 <= w < FAST_SIZE ensures FastEntry(l, i + 1, w, fast[w]) {
        assert FastEntry(l, i, w, before[w]);
        MatchesByLow(l, i, w);
        FastGrows(l, i, w, before[w]);
      }
    }

    ghost predicate NextCodesOk(l: seq<nat>, i: nat, nextCode: array<nat>)
      requires i <= |l| && nextCode.Length == 16
      reads nextCode
    {
      forall s :: 1 <= s < 16 ==> nextCode[s] == FirstCode(l, s) + CountOf(l[..i], s)
    }

    /** One turn of the last loop. */
    method EnterNext(l: seq<nat>, i: nat, nextCode: array<nat>)
      requires Shape() && Lengths(l) && Fits(l) && i < |l| <= SYMBOLS
      requires CodesOk(l, 16) && SymbolsOk(l, i) && FastOk(l, i)
      requires nextCode.Length == 16 && NextCodesOk(l, i, nextCode)
      requires nextCode != fast && nextCode != size && nextCode != value
      modifies fast, size, value, nextCode
      ensures SymbolsOk(l, i + 1) && FastOk(l, i + 1) && NextCodesOk(l, i + 1, nextCode)
    {
      assert l[..i + 1][..i] == l[..i];
      var s := l[i];
      if s > 0 {
        EnterSymbol(l, i, nextCode);
        nextCode[s] := nextCode[s] + 1;
      } else {
        Skip(l, i);
      }
    }

    method EnterSymbols(l: seq<nat>, nextCode: array<nat>)
      requires Shape() && Lengths(l) && Fits(l) && |l| <= SYMBOLS && CodesOk(l, 16)
      requires forall w :: 0 <= w < FAST_SIZE ==> fast[w] == 0
      requires nextCode.Length == 16 && FirstCodesCopied(l, 16, nextCode)
      requires nextCode != fast && nextCode != size && nextCode != value
      requires nextCode != firstCode && nextCode != maxCode && nextCode != firstSymbol
      modifies fast, size, value, nextCode
      ensures SymbolsOk(l, |l|) && FastOk(l, |l|)
    {
      for i := 0 to |l|
        invariant CodesOk(l, 16) && SymbolsOk(l, i) && FastOk(l, i) && NextCodesOk(l, i, nextCode)
      {
        EnterNext(l, i, nextCode);
      }
    }

    lemma Skip(l: seq<nat>, i: nat)
      requires Shape() && Lengths(l) && i < |l| <= SYMBOLS && l[i] == 0 && SymbolsOk(l, i) && FastOk(l, i)
      ensures SymbolsOk(l, i + 1) && FastOk(l, i + 1)
    {
      forall w | 0 <= w < FAST_SIZE ensures FastEntry(l, i + 1, w, fast[w]) {
        FastGrows(l, i, w, fast[w]);
      }
    }

    /** The first check: no length has more codes than there are numbers of that length. */
    static method SizesFit(sizes: array<nat>) returns (ok: bool)
      requires sizes.Length == 17
      ensures ok <==> forall s :: 1 <= s < 16 ==> sizes[s] <= Pow2(s)
    {
      hide Pow2, Shl;
      for i := 1 to 16
        invariant forall s :: 1 <= s < i ==> sizes[s] <= Pow2(s)
      {
        ShlIsPow2(i);
        if sizes[i] > Shl(1, i) { return false; }
      }
      ok := true;
    }

    /** stbi__zbuild_huffman: accepts exactly the lengths that fit, and builds the tables. */
    method Build(sizeList: seq<nat>) returns (ok: bool)
      requires Shape() && Lengths(sizeList) && |sizeList| <= SYMBOLS
      modifies fast, firstCode, maxCode, firstSymbol, size, value
      ensures ok <==> Fits(sizeList)
      ensures ok ==> Built(sizeList)
    {
      var sizes := new nat[17](_ => 0);
      var nextCode := new nat[16](_ => 0);
      forall w | 0 <= w < FAST_SIZE { fast[w] := 0; }
      CountSizes(sizeList, sizes);
      sizes[0] := 0;
      ok := SizesFit(sizes);
      if !ok {
        ghost var s: nat :| 1 <= s < 16 && sizes[s] > Pow2(s);
        assert !LengthFits(sizeList, s);
        return false;
      }
      ok := FirstCodes(sizeList, sizes, nextCode);
      if ok {
        EnterSymbols(sizeList, nextCode);
      }
    }

    // ----- what the tables tell -----

    /** The entry of the fast table is the symbol that matches, if its code is short. */
    lemma FastTells(l: seq<nat>, w: nat)
      requires Built(l)
      ensures Low(w, FAST_BITS) < FAST_SIZE
      ensures var entry := fast[Low(w, FAST_BITS)];
        if entry == 0 then forall i :: 0 <= i < |l| && l[i] <= FAST_BITS ==> !Matches(l, i, w)
        else Matches(l, entry % FAST_SIZE, w) && l[entry % FAST_SIZE] == entry / FAST_SIZE
    {
      LowBound(w, FAST_BITS);
      assert Pow2(4) == 16 && Pow2(FAST_BITS) == 512;
      var low := Low(w, FAST_BITS);
      assert FastEntry(l, |l|, low, fast[low]);
      forall i | 0 <= i < |l| && l[i] <= FAST_BITS ensures Matches(l, i, low) == Matches(l, i, w) {
        MatchesLow(l, i, w, FAST_BITS);
      }
    }

    /** Without a short code the search may start beyond the short lengths. */
    lemma BeyondShort(l: seq<nat>, w: nat)
      requires Built(l) && Low(w, FAST_BITS) < FAST_SIZE && fast[Low(w, FAST_BITS)] == 0
      ensures Reverse(w, 16) >= Top(l, FAST_BITS)
    {
      if Reverse(w, 16) < Top(l, FAST_BITS) {
        FastTells(l, w);
        var t := InSomeTile(l, FAST_BITS, w);
        var i := TileHasSymbol(l, t, w);
      }
    }

    /** The first limit above the reversed window belongs to the length of the code. */
    lemma SlowTells(l: seq<nat>, w: nat, s: nat)
      requires Built(l) && FAST_BITS < s <= MAX_BITS && Top(l, s - 1) <= Reverse(w, 16) < maxCode[s]
      ensures var b := Shr(Reverse(w, 16), 16 - s) - firstCode[s] + firstSymbol[s];
        0 <= b < SYMBOLS && size[b] == s && Matches(l, value[b], w) && l[value[b]] == s
    {
      TopStarts(l, s - 1);
      var i := TileHasSymbol(l, s, w);
      ReverseTop(w, s, 16 - s);
      assert SymbolOk(l, i);
    }
  }
}
