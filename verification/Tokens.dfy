// Literals and matches: what they expand to, the bits they are written as, and that a decoder
// reads back from those bits exactly the tokens.
module Tokens {
  import opened Base
  import opened Binary
  import opened Canonical
  import opened Deflate
  import opened FixedCode

  datatype Token = Literal(b: Byte) | Match(len: nat, dist: nat)

  /** What the format allows after so many bytes, short of the full window. */
  predicate Allowed(t: Token, produced: nat)
  {
    t.Match? ==> 3 <= t.len <= 258 && 1 <= t.dist <= 32767 && t.dist <= produced
  }

  function Emit(out: seq<Byte>, t: Token): seq<Byte>
    requires Allowed(t, |out|)
  {
    match t
    case Literal(b) => out + [b]
    case Match(len, dist) => Copy(out, len, dist)
  }

  predicate AllAllowed(out: seq<Byte>, ts: seq<Token>)
    decreases |ts|
  {
    ts == [] || (Allowed(ts[0], |out|) && AllAllowed(Emit(out, ts[0]), ts[1..]))
  }

  function Expand(out: seq<Byte>, ts: seq<Token>): seq<Byte>
    requires AllAllowed(out, ts)
    decreases |ts|
  {
    if ts == [] then out else Expand(Emit(out, ts[0]), ts[1..])
  }

  lemma {:induction false} ExpandMore(out: seq<Byte>, ts: seq<Token>, t: Token)
    requires AllAllowed(out, ts) && Allowed(t, |Expand(out, ts)|)
    ensures AllAllowed(out, ts + [t]) && Expand(out, ts + [t]) == Emit(Expand(out, ts), t)
    decreases |ts|
  {
    if ts == [] {
      assert [t][1..] == [] && ts + [t] == [t];
    } else {
      assert (ts + [t])[1..] == ts[1..] + [t];
      ExpandMore(Emit(out, ts[0]), ts[1..], t);
    }
  }

  lemma {:induction false} ExpandGrows(out: seq<Byte>, ts: seq<Token>)
    requires AllAllowed(out, ts)
    ensures |out| <= |Expand(out, ts)|
    decreases |ts|
  {
    if ts != [] { ExpandGrows(Emit(out, ts[0]), ts[1..]); }
  }

  // ----- the writer's tables -----

  const LENGTHC: seq<nat> := [
    3, 4, 5, 6, 7, 8, 9, 10, 11, 13, 15, 17, 19, 23, 27, 31, 35, 43, 51, 59,
    67, 83, 99, 115, 131, 163, 195, 227, 258, 259]

  const LENGTHEB: seq<nat> := [
    0, 0, 0, 0, 0, 0, 0, 0, 1, 1, 1, 1, 2, 2, 2, 2, 3, 3, 3, 3, 4, 4, 4, 4, 5, 5, 5, 5, 0]

  const DISTC: seq<nat> := [
    1, 2, 3, 4, 5, 7, 9, 13, 17, 25, 33, 49, 65, 97, 129, 193,
    257, 385, 513, 769, 1025, 1537, 2049, 3073, 4097, 6145, 8193, 12289, 16385, 24577, 32768]

  const DISTEB: seq<nat> := [
    0, 0, 0, 0, 1, 1, 2, 2, 3, 3, 4, 4, 5, 5, 6, 6, 7, 7, 8, 8, 9, 9, 10, 10, 11, 11, 12, 12, 13, 13]

  function Lengthc(j: nat): nat
    requires j < 30
  {
    LENGTHC[j]
  }

  function Lengtheb(j: nat): nat
    requires j < 29
  {
    LENGTHEB[j]
  }

  function Distc(j: nat): nat
    requires j < 31
  {
    DISTC[j]
  }

  function Disteb(j: nat): nat
    requires j < 30
  {
    DISTEB[j]
  }

  /** for (j = from; len > lengthc[j + 1] - 1; ++j) */
  function LengthCode(len: nat, from: nat): (j: nat)
    requires from <= 28 && Lengthc(from) <= len <= 258
    ensures from <= j <= 28 && Lengthc(j) <= len < Lengthc(j + 1)
    decreases 28 - from
  {
    if len > Lengthc(from + 1) - 1 then LengthCode(len, from + 1) else from
  }

  /** for (j = from; dist > distc[j + 1] - 1; ++j) */
  function DistCode(dist: nat, from: nat): (j: nat)
    requires from <= 29 && Distc(from) <= dist <= 32767
    ensures from <= j <= 29 && Distc(j) <= dist < Distc(j + 1)
    decreases 29 - from
  {
    if dist > Distc(from + 1) - 1 then DistCode(dist, from + 1) else from
  }

  function LengthSymbol(len: nat): (j: nat)
    requires 3 <= len <= 258
    ensures j <= 28 && Lengthc(j) <= len < Lengthc(j + 1)
  {
    LengthCode(len, 0)
  }

  function DistSymbol(dist: nat): (j: nat)
    requires 1 <= dist <= 32767
    ensures j <= 29 && Distc(j) <= dist < Distc(j + 1)
  {
    DistCode(dist, 0)
  }

  /** The writer and the reader have the same tables, and the extra bits span each range. */
  lemma LengthTablesAgree(j: nat)
    requires j <= 28
    ensures Lengthc(j) == LengthBase(j) && Lengtheb(j) == LengthExtra(j)
    ensures Lengthc(j + 1) - Lengthc(j) <= Pow2(Lengtheb(j))
  {
    SmallPowers();
  }

  lemma DistanceTablesAgree(j: nat)
    requires j <= 29
    ensures Distc(j) == DistBase(j) && Disteb(j) == DistExtra(j)
    ensures Distc(j + 1) - Distc(j) <= Pow2(Disteb(j))
  {
    SmallPowers();
  }

  // ----- bits -----

  function SymbolBits(n: nat): (bits: Bits)
    requires n < 288
    ensures |bits| == HuffBits(n)
  {
    BitsOf(Reverse(HuffCode(n), HuffBits(n)), HuffBits(n))
  }

  function DistanceBits(d: nat): (bits: Bits)
    ensures |bits| == 5
  {
    BitsOf(Reverse(d, 5), 5)
  }

  /** A length: its symbol, then how far it is past the first length of that symbol. */
  function LengthBits(len: nat): Bits
    requires 3 <= len <= 258
  {
    var j := LengthSymbol(len);
    SymbolBits(257 + j) + BitsOf(len - Lengthc(j), Lengtheb(j))
  }

  function DistBits(dist: nat): Bits
    requires 1 <= dist <= 32767
  {
    var j := DistSymbol(dist);
    DistanceBits(j) + BitsOf(dist - Distc(j), Disteb(j))
  }

  function TokenBits(t: Token): Bits
    requires t.Match? ==> 3 <= t.len <= 258 && 1 <= t.dist <= 32767
  {
    match t
    case Literal(b) => SymbolBits(b)
    case Match(len, dist) => LengthBits(len) + DistBits(dist)
  }

  function TokensBits(out: seq<Byte>, ts: seq<Token>): Bits
    requires AllAllowed(out, ts)
    decreases |ts|
  {
    if ts == [] then [] else TokenBits(ts[0]) + TokensBits(Emit(out, ts[0]), ts[1..])
  }

  lemma {:induction false} TokensBitsMore(out: seq<Byte>, ts: seq<Token>, t: Token)
    requires AllAllowed(out, ts) && Allowed(t, |Expand(out, ts)|)
    ensures AllAllowed(out, ts + [t])
    ensures TokensBits(out, ts + [t]) == TokensBits(out, ts) + TokenBits(t)
    decreases |ts|
  {
    ExpandMore(out, ts, t);
    if ts == [] {
      assert [t][1..] == [] && ts + [t] == [t];
    } else {
      assert (ts + [t])[1..] == ts[1..] + [t];
      TokensBitsMore(Emit(out, ts[0]), ts[1..], t);
    }
  }

  // ----- how many bits they take -----

  lemma LongLengths(j: nat)
    requires j <= 28
    ensures Lengtheb(j) <= 5 && (Lengtheb(j) > 0 || j > 22 ==> Lengthc(j) >= 11)
  {
  }

  lemma LengthCost(len: nat)
    requires 3 <= len <= 258
    ensures |LengthBits(len)| + 18 <= 9 * len
  {
    hide Lengthc, Lengtheb, SymbolBits;
    LongLengths(LengthSymbol(len));
  }

  lemma DistCost(dist: nat)
    requires 1 <= dist <= 32767
    ensures |DistBits(dist)| <= 18
  {
    var j := DistSymbol(dist);
    DistanceTablesAgree(j);
    DistanceTable(j);
  }

  /** No token takes more than nine bits for a byte. */
  lemma {:induction false} TokensCost(out: seq<Byte>, ts: seq<Token>)
    requires AllAllowed(out, ts)
    ensures |TokensBits(out, ts)| <= 9 * (|Expand(out, ts)| - |out|)
    decreases |ts|
  {
    hide LengthBits, DistBits;
    if ts != [] {
      if ts[0].Match? {
        LengthCost(ts[0].len);
        DistCost(ts[0].dist);
      }
      TokensCost(Emit(out, ts[0]), ts[1..]);
    }
  }

  // ----- reading them back -----

  /** What was sent for a symbol is read as that symbol, whatever comes behind it. */
  lemma SymbolReadBack(l: seq<nat>, i: nat, rest: Bits)
    requires Lengths(l) && Fits(l) && i < |l| && 1 <= l[i]
    ensures ReadSymbol(l, CodeBits(l, i) + rest) == Got(i, rest, Symbol(l[i]))
  {
    var bits := CodeBits(l, i) + rest;
    var w, seen := Ahead(bits, 16), if 16 <= |bits| then bits[..16] else bits;
    var sent := Reverse(CodeOf(l, i), l[i]);
    BitsOfValue(seen);
    BitsSplit(w, l[i], |seen| - l[i]);
    assert BitsOf(w, l[i]) == BitsOf(w, |seen|)[..l[i]] == seen[..l[i]] == CodeBits(l, i);
    BitsOfLow(w, l[i]);
    LowBound(w, l[i]);
    ReverseBits(CodeOf(l, i), l[i]);
    BitsUnique(Low(w, l[i]), sent, l[i]);
    SentIsRead(l, i, w);
    MatchIsUnique(l, i, MatchOf(l, w).value, w);
    assert bits[l[i]..] == rest;
  }

  lemma HuffReadBack(n: nat, rest: Bits)
    requires n < 288
    ensures ReadSymbol(FixedLengths(), SymbolBits(n) + rest) == Got(n, rest, Symbol(HuffBits(n)))
  {
    FixedFits();
    HuffIsCanonical(n);
    assert SymbolBits(n) == CodeBits(FixedLengths(), n);
    SymbolReadBack(FixedLengths(), n, rest);
  }

  lemma DistanceReadBack(d: nat, rest: Bits)
    requires d < 30
    ensures ReadSymbol(FixedDistances(), DistanceBits(d) + rest) == Got(d, rest, Symbol(5))
  {
    DistancesFit();
    DistanceIsCanonical(d);
    assert DistanceBits(d) == CodeBits(FixedDistances(), d);
    SymbolReadBack(FixedDistances(), d, rest);
  }

  lemma NumberReadBack(x: nat, n: nat, rest: Bits)
    requires x < Pow2(n)
    ensures Ahead(BitsOf(x, n) + rest, n) == x && Beyond(BitsOf(x, n) + rest, n) == rest
  {
    var bits := BitsOf(x, n) + rest;
    assert bits[..n] == BitsOf(x, n) && bits[n..] == rest;
    ValueOfBits(x, n);
    LowBound(x, n);
  }

  /** The step goes on with this output and this rest. */
  predicate GoesOn(step: Step, out: seq<Byte>, rest: Bits)
  {
    step.Next? && step.out == out && step.rest == rest
  }

  lemma DistanceStep(len: nat, d: nat, more: nat, out: seq<Byte>, room: nat, rest: Bits)
    requires 1 <= len && d < 30 && more < Pow2(DistExtra(d))
    requires DistBase(d) + more <= |out| && |out| + len <= room
    ensures DistBase(d) >= 1
    ensures GoesOn(ReadDistance(len, d, BitsOf(more, DistExtra(d)) + rest, out, room),
                   Copy(out, len, DistBase(d) + more), rest)
  {
    hide Copy, DistBase, DistExtra;
    DistanceTable(d);
    NumberReadBack(more, DistExtra(d), rest);
  }

  lemma TailStep(dl: seq<nat>, len: nat, d: nat, item: Item, bits: Bits, rest: Bits, out: seq<Byte>, room: nat)
    requires Lengths(dl) && 1 <= len && ReadSymbol(dl, bits) == Got(d, rest, item)
    ensures ReadTail(dl, len, bits, out, room) == Behind(item, ReadDistance(len, d, rest, out, room))
  {
    hide ReadDistance;
  }

  lemma DistReadBack(len: nat, dist: nat, out: seq<Byte>, room: nat, rest: Bits)
    requires 1 <= len && 1 <= dist <= 32767 && dist <= |out| && |out| + len <= room
    ensures GoesOn(ReadTail(FixedDistances(), len, DistBits(dist) + rest, out, room), Copy(out, len, dist), rest)
  {
    hide ReadTail, ReadDistance, Copy, Distc, Disteb, DistBase, DistExtra;
    hide DistanceBits, FixedDistances, BitsOf, ReadSymbol, DistCode, Pow2;
    var j := DistSymbol(dist);
    DistanceTablesAgree(j);
    var extra := BitsOf(dist - Distc(j), Disteb(j));
    Associate(DistanceBits(j), extra, rest);
    DistanceReadBack(j, extra + rest);
    DistanceStep(len, j, dist - Distc(j), out, room, rest);
    TailStep(FixedDistances(), len, j, Symbol(5), DistBits(dist) + rest, extra + rest, out, room);
  }

  lemma LengthStep(dl: seq<nat>, base: nat, extra: nat, more: nat, out: seq<Byte>, room: nat, rest: Bits)
    requires Lengths(dl) && 1 <= base && more < Pow2(extra)
    ensures ReadLength(dl, base, extra, BitsOf(more, extra) + rest, out, room)
      == Behind(Number(extra), ReadTail(dl, base + more, rest, out, room))
  {
    hide ReadTail;
    NumberReadBack(more, extra, rest);
  }

  lemma LengthReadBack(len: nat, out: seq<Byte>, room: nat, rest: Bits)
    requires 3 <= len <= 258
    ensures var j := LengthSymbol(len);
      var bits := BitsOf(len - Lengthc(j), Lengtheb(j)) + rest;
      ReadMatch(FixedDistances(), j, bits, out, room)
        == Behind(Number(Lengtheb(j)), ReadTail(FixedDistances(), len, rest, out, room))
  {
    hide ReadTail, ReadLength, Lengthc, Lengtheb, LengthBase, LengthExtra;
    var j := LengthSymbol(len);
    LengthTable(j);
    LengthTablesAgree(j);
    LengthStep(FixedDistances(), Lengthc(j), Lengtheb(j), len - Lengthc(j), out, room, rest);
  }

  lemma LiteralReadBack(b: Byte, out: seq<Byte>, room: nat, rest: Bits)
    requires |out| + 1 <= room
    ensures GoesOn(BlockStep(FixedLengths(), FixedDistances(), SymbolBits(b) + rest, out, room), out + [b], rest)
  {
    HuffReadBack(b, rest);
  }

  lemma MatchReadBack(len: nat, dist: nat, out: seq<Byte>, room: nat, rest: Bits)
    requires 3 <= len <= 258 && 1 <= dist <= 32767 && dist <= |out| && |out| + len <= room
    ensures GoesOn(BlockStep(FixedLengths(), FixedDistances(), LengthBits(len) + DistBits(dist) + rest, out, room),
                   Copy(out, len, dist), rest)
  {
    hide ReadMatch, ReadTail, Copy, Lengthc, Lengtheb;
    hide SymbolBits, DistBits, FixedLengths, FixedDistances, BitsOf, HuffBits;
    var j := LengthSymbol(len);
    var extra := BitsOf(len - Lengthc(j), Lengtheb(j));
    var tail := DistBits(dist) + rest;
    Associate(SymbolBits(257 + j) + extra, DistBits(dist), rest);
    Associate(SymbolBits(257 + j), extra, tail);
    HuffReadBack(257 + j, extra + tail);
    LengthReadBack(len, out, room, tail);
    DistReadBack(len, dist, out, room, rest);
  }

  /** The step of the decoder on a written token is the token. */
  lemma TokenReadBack(t: Token, out: seq<Byte>, room: nat, rest: Bits)
    requires Allowed(t, |out|) && |Emit(out, t)| <= room
    ensures GoesOn(BlockStep(FixedLengths(), FixedDistances(), TokenBits(t) + rest, out, room), Emit(out, t), rest)
  {
    hide BlockStep;
    match t
    case Literal(b) => LiteralReadBack(b, out, room, rest);
    case Match(len, dist) => MatchReadBack(len, dist, out, room, rest);
  }

  lemma EndReadBack(out: seq<Byte>, room: nat, rest: Bits)
    ensures BlockStep(FixedLengths(), FixedDistances(), SymbolBits(256) + rest, out, room)
      == Stop(Done(out, rest, [Symbol(7), Finish]))
  {
    HuffReadBack(256, rest);
  }

  /** A block written from tokens decodes to what the tokens expand to. */
  lemma {:induction false} BlockReadBack(out: seq<Byte>, ts: seq<Token>, room: nat, rest: Bits)
    requires AllAllowed(out, ts) && |Expand(out, ts)| <= room
    ensures var bits := TokensBits(out, ts) + SymbolBits(256) + rest;
      Yields(HuffmanBlock(FixedLengths(), FixedDistances(), bits, out, room), Expand(out, ts), rest)
    decreases |ts|
  {
    hide BlockStep, TokenBits, SymbolBits, Copy;
    var bits := TokensBits(out, ts) + SymbolBits(256) + rest;
    if ts == [] {
      assert bits == SymbolBits(256) + rest;
      EndReadBack(out, room, rest);
    } else {
      var out' := Emit(out, ts[0]);
      var tail := TokensBits(out', ts[1..]) + SymbolBits(256) + rest;
      assert bits == TokenBits(ts[0]) + tail;
      ExpandGrows(out', ts[1..]);
      TokenReadBack(ts[0], out, room, tail);
      BlockReadBack(out', ts[1..], room, rest);
    }
  }
}
