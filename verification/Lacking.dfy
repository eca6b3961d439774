// How much an accepted stream can lack. Zeros from behind the end are read as the end of a block, so
// that only the last match or literal can reach beyond it; and of its bits there, and those of the
// end of the block, stbi__fill_bits must have supplied all.
module Lacking {
  import opened Base
  import opened Binary
  import opened Canonical
  import opened Deflate
  import opened FixedCode
  import opened Supply
  import opened Truncation
  import BitStream
  import Tokens
  import ZCompress
  import Z = ZBuf
  import T = ZlibRoundTrip

  // ----- codes that reach beyond the end -----

  /** Bits that are not there are zeros, and so are the last bits of the code read from them. */
  lemma {:induction false} ReverseOfShort(w: nat, r: nat, k: nat)
    requires w < Pow2(r)
    ensures Reverse(w, r + k) == Shl(Reverse(w, r), k)
    decreases k
  {
    if k > 0 {
      ReverseOfShort(w, r, k - 1);
      ReverseNext(w, r + k - 1);
      Pow2Grows(r, r + k - 1);
      ShrBound(w, r + k - 1, 0);
    }
  }

  /** What is read of so few bits is a number of so many bits. */
  lemma ValueAtEnd(bits: Bits, r: nat)
    requires |bits| <= r <= 16
    ensures Ahead(bits, 16) < Pow2(r)
  {
    BitsOfValue(bits);
    Pow2Grows(|bits|, r);
    assert bits[..|bits|] == bits;
  }

  /** From at most one bit only the codes are read that have zeros behind their first bit. */
  lemma CodeOfOneBit(w: nat, n: nat)
    requires w < 2 && 1 <= n
    ensures Reverse(w, n) == 0 || Reverse(w, n) == Pow2(n - 1)
  {
    ReverseOfShort(w, 1, n - 1);
    ReverseBits(w, 1);
    ShlIsPow2(n - 1);
    ShlOfZero(n - 1);
  }

  /** From at most five bits only the codes of eight bits that end in three zeros. */
  lemma CodeOfFiveBits(w: nat)
    requires w < 32
    ensures Reverse(w, 8) % 8 == 0
  {
    hide Reverse;
    assert Pow2(5) == 32;
    ReverseOfShort(w, 5, 3);
    var code := Reverse(w, 5);
    assert Shl(code, 1) == 2 * code;
    assert Shl(code, 2) == 4 * code;
    assert Shl(code, 3) == 8 * code;
  }

  /** What comes of a match that is read with r real bits left: codes of n and 5 bits with x and y
      extra bits. */
  predicate MatchEnds(r: nat, n: nat, x: nat, y: nat)
  {
    && 7 <= n <= 8 && x <= 5 && y <= 13
    && (r < n ==> 2 <= r && n - r + x <= if r < 5 then 10 else 7)
    && (r <= n + x ==> y == 0)
    && (r == n + x + 1 ==> y <= 7)
  }

  lemma LengthNumbers(z: nat, r: nat)
    requires 256 < z < 286
    requires r <= 1 ==> HuffCode(z) == 0 || HuffCode(z) == Pow2(HuffBits(z) - 1)
    requires r <= 5 && HuffBits(z) == 8 ==> HuffCode(z) % 8 == 0
    ensures var n, x := HuffBits(z), LengthExtra(z - 257);
      && 7 <= n <= 8 && x <= 5
      && (r < n ==> 2 <= r && n - r + x <= if r < 5 then 10 else 7)
  {
    assert Pow2(6) == 64 && Pow2(7) == 128;
    assert z - 257 < 23 ==> LengthExtra(z - 257) <= 4;
    assert LengthExtra(280 - 257) == 4;
    LengthTable(z - 257);
  }

  lemma LengthAtEnd(bits: Bits)
    requires var read := ReadSymbol(FixedLengths(), bits); read.Got? && 256 < read.value < 286
    ensures var z := ReadSymbol(FixedLengths(), bits).value;
      var r, n, x := |bits|, HuffBits(z), LengthExtra(z - 257);
      && ReadSymbol(FixedLengths(), bits).item == Symbol(n) && 7 <= n <= 8 && x <= 5
      && (r < n ==> 2 <= r && n - r + x <= if r < 5 then 10 else 7)
  {
    hide Ahead, LengthExtra, HuffCode, Reverse, Pow2;
    var z, w := ReadSymbol(FixedLengths(), bits).value, Ahead(bits, 16);
    HuffIsCanonical(z);
    SmallPowers();
    if |bits| <= 1 {
      ValueAtEnd(bits, 1);
      CodeOfOneBit(w, HuffBits(z));
    }
    if |bits| <= 5 && HuffBits(z) == 8 {
      ValueAtEnd(bits, 5);
      CodeOfFiveBits(w);
    }
    LengthNumbers(z, |bits|);
  }

  lemma DistanceAtEnd(bits: Bits)
    requires var read := ReadSymbol(FixedDistances(), bits); read.Got? && read.value < 30
    ensures var d := ReadSymbol(FixedDistances(), bits).value;
      && ReadSymbol(FixedDistances(), bits).item == Symbol(5) && DistExtra(d) <= 13
      && (|bits| == 0 ==> DistExtra(d) == 0) && (|bits| == 1 ==> DistExtra(d) <= 7)
  {
    var d, w := ReadSymbol(FixedDistances(), bits).value, Ahead(bits, 16);
    DistanceIsCanonical(d);
    DistanceTable(d);
    SmallPowers();
    if |bits| == 0 {
      ValueAtEnd(bits, 0);
      ReverseOfShort(0, 0, 5);
      ShlOfZero(5);
      assert Reverse(0, 0) == 0;
    }
    if |bits| == 1 {
      ValueAtEnd(bits, 1);
      CodeOfOneBit(w, 5);
    }
  }

  /** A literal, or a match, or the end of the block. */
  ghost predicate Shape(r: nat, items: seq<Item>)
  {
    || (r >= 1 && |items| == 1 && items[0].Symbol? && 8 <= items[0].n <= 9)
    || (r >= 1 && exists n, x, y :: MatchEnds(r, n, x, y) && items == [Symbol(n), Number(x), Symbol(5), Number(y)])
  }

  lemma StepShape(bits: Bits, out: seq<Byte>, room: nat)
    ensures var step := BlockStep(FixedLengths(), FixedDistances(), bits, out, room);
      && (step.Next? ==> Shape(|bits|, step.items))
      && (step.Stop? && step.verdict.Done? ==> step.verdict.trace == [Symbol(7), Finish])
  {
    hide ReadMatch, ReadSymbol, Matches, FixedLengths, FixedDistances, LengthExtra, MatchEnds;
    var read := ReadSymbol(FixedLengths(), bits);
    if read.Got? { HuffIsCanonical(read.value); }
    if |bits| == 0 {
      ZerosEndTheBlock(0);
      assert bits == BitStream.Zeros(0);
    }
    if read.Got? && 256 < read.value < 286 {
      LengthAtEnd(bits);
      MatchShape(read.value - 257, HuffBits(read.value), bits, read.rest, out, room);
    }
  }

  lemma MatchShape(z: nat, n: nat, bits: Bits, rest: Bits, out: seq<Byte>, room: nat)
    requires z < 29 && rest == Beyond(bits, n) && 7 <= n <= 8
    requires |bits| < n ==> 2 <= |bits| && n - |bits| + LengthExtra(z) <= if |bits| < 5 then 10 else 7
    ensures var step := Behind(Symbol(n), ReadMatch(FixedDistances(), z, rest, out, room));
      step.Next? ==> |bits| >= 1 && Shape(|bits|, step.items)
  {
    LengthTable(z);
    var x := LengthExtra(z);
    var behind := Beyond(rest, x);
    var read := ReadSymbol(FixedDistances(), behind);
    if read.Got? && read.value < 30 {
      DistanceAtEnd(behind);
      var y := DistExtra(read.value);
      assert MatchEnds(|bits|, n, x, y);
      var step := Behind(Symbol(n), ReadMatch(FixedDistances(), z, rest, out, room));
      if step.Next? { assert step.items == [Symbol(n), Number(x), Symbol(5), Number(y)]; }
    }
  }

  // ----- the supply -----

  /** How many real bits are left; if there are none, how many are lacking, as a negative number. */
  function Real(s: Supply): int { s.total - s.pos }

  /** How many bits from behind the end have been supplied. */
  function Padding(s: Supply): int { s.loaded - s.total }

  /** The buffer is loaded byte by byte, and the sixteen bits are granted only at the end. */
  predicate Bytewise(s: Supply)
  {
    Padding(s) % 8 == 0 && Sound(s)
  }

  /** At the beginning of a symbol. More than two bytes of zeros have been supplied only if that
      happened near the end, and in places from which no long code reaches far beyond it. */
  predicate AtSymbol(s: Supply)
  {
    && Bytewise(s)
    && (Padding(s) <= 16 || Real(s) <= 1 || 5 <= Real(s) <= 8)
    && (Padding(s) <= 16 || Real(s) >= -12)
  }

  /** Between blocks: behind a Huffman block, or with an empty buffer. */
  predicate AtBlock(s: Supply)
  {
    && Bytewise(s)
    && (s.pos == s.loaded || (Buffered(s) >= 9 && (Padding(s) <= 16 || Real(s) <= 1)))
  }

  lemma LoadIs(count: int)
    requires 0 <= count <= 24
    ensures Load(count) == if count == 0 then 32 else if count <= 8 then 24 else if count <= 16 then 16 else 8
  {
    assert count <= 16 ==> Load(count) == 8 + Load(count + 8);
    assert count <= 8 ==> Load(count + 8) == 8 + Load(count + 16);
    assert count == 0 ==> Load(count + 16) == 8 + Load(count + 24);
  }

  lemma LiteralLacks(s: Supply, n: nat)
    requires AtSymbol(s) && Real(s) >= 1 && 8 <= n <= 9 && !Overdrawn(s)
    ensures AtSymbol(Advance(Ready(s), n))
  {
    if Buffered(s) < 16 { LoadIs(Buffered(s)); }
  }

  /** The four items of a match, one after the other. */
  lemma ThroughMatch(s: Supply, n: nat, x: nat, y: nat)
    ensures Through(s, [Symbol(n), Number(x), Symbol(5), Number(y)])
      == match Through(s, [Symbol(n), Number(x)])
         case None => None
         case Some(s') => Through(s', [Symbol(5), Number(y)])
  {
    assert [Symbol(n), Number(x), Symbol(5), Number(y)] == [Symbol(n), Number(x)] + [Symbol(5), Number(y)];
    ThroughJoin(s, [Symbol(n), Number(x)], [Symbol(5), Number(y)]);
  }

  lemma LengthLacks(s: Supply, n: nat, x: nat)
    requires AtSymbol(s) && Real(s) >= 1 && 7 <= n <= 8 && x <= 5 && !Overdrawn(s)
    ensures var s' := Advance(Advance(Ready(s), n), x);
      && Through(s, [Symbol(n), Number(x)]) == Some(s') && Bytewise(s') && Buffered(s') >= 3
      && (Padding(s') <= 16 || (Real(s') <= 1 && Real(s) <= 8 && !(2 <= Real(s) <= 4)))
  {
    ThroughTwo(s, Symbol(n), Number(x));
    if Buffered(s) < 16 { LoadIs(Buffered(s)); }
  }

  /** The code of a distance. */
  lemma DistanceCodeLacks(s: Supply)
    requires Bytewise(s) && Buffered(s) >= 3 && !Overdrawn(s) && (Padding(s) <= 16 || Real(s) <= 1)
    ensures var s' := Advance(Ready(s), 5);
      && Bytewise(s') && Buffered(s') >= 11 && Real(s') == Real(s) - 5
      && (Padding(s') <= 16 || s'.loaded == s.loaded)
  {
    if Buffered(s) < 16 { LoadIs(Buffered(s)); }
  }

  /** Its extra bits. */
  lemma DistanceExtraLacks(s: Supply, y: nat)
    requires Bytewise(s) && Buffered(s) >= 11 && y <= 13 && (y >= 12 ==> Real(s) >= -3)
    requires Padding(s) <= 16 || (Real(s) <= 1 && Real(s) - y >= -12)
    ensures AtSymbol(Advance(if Buffered(s) < y then Fill(s) else s, y))
  {
    if Buffered(s) < y { LoadIs(Buffered(s)); }
  }

  /** The distance of a match, behind its length. */
  lemma DistanceLacks(s: Supply, y: nat)
    requires Bytewise(s) && Buffered(s) >= 3 && y <= 13 && (Padding(s) <= 16 || Real(s) <= 1)
    requires Real(s) <= 0 ==> y == 0 && (Padding(s) <= 16 || Real(s) >= -7)
    requires Real(s) == 1 ==> y <= 7
    ensures var end := Through(s, [Symbol(5), Number(y)]); end.Some? ==> AtSymbol(end.value)
  {
    hide Load, AtSymbol, Bytewise;
    ThroughTwo(s, Symbol(5), Number(y));
    if !Overdrawn(s) {
      DistanceCodeLacks(s);
      DistanceExtraLacks(Advance(Ready(s), 5), y);
    }
  }

  lemma MatchLacks(s: Supply, n: nat, x: nat, y: nat)
    requires AtSymbol(s) && Real(s) >= 1 && MatchEnds(Real(s), n, x, y)
    ensures var end := Through(s, [Symbol(n), Number(x), Symbol(5), Number(y)]);
      end.Some? ==> AtSymbol(end.value)
  {
    hide Through;
    ThroughMatch(s, n, x, y);
    if Overdrawn(s) {
      ThroughTwo(s, Symbol(n), Number(x));
    } else {
      LengthLacks(s, n, x);
      DistanceLacks(Advance(Advance(Ready(s), n), x), y);
    }
  }

  lemma EndLacks(s: Supply)
    requires AtSymbol(s)
    ensures var end := Through(s, [Symbol(7), Finish]);
      end.Some? ==> AtBlock(end.value) && Real(end.value) >= -19
  {
    ThroughTwo(s, Symbol(7), Finish);
    if !Overdrawn(s) && Buffered(s) < 16 { LoadIs(Buffered(s)); }
  }

  lemma HeaderLacks(s: Supply)
    requires AtBlock(s) && Real(s) >= 1
    ensures var s' := Through(s, BLOCK_HEADER); s'.Some? && AtSymbol(s'.value)
  {
    ThroughTwo(s, Number(1), Number(2));
    if s.pos == s.loaded { LoadIs(0); }
  }

  // ----- whole streams -----

  /** These bits are what is left at this point. */
  predicate Here(s: Supply, bits: Bits)
  {
    |bits| == if Real(s) > 0 then Real(s) else 0
  }

  lemma StillHere(s: Supply, bits: Bits, items: seq<Item>, rest: Bits)
    requires Here(s, bits) && Took(bits, items, rest) && Through(s, items).Some?
    ensures Here(Through(s, items).value, rest)
  {
    PassesTo(s, items);
  }

  /** If the reading is not refused by then, the next symbol begins here. */
  predicate GoesOnHere(s: Supply, items: seq<Item>, rest: Bits)
  {
    Through(s, items).Some? ==> AtSymbol(Through(s, items).value) && Here(Through(s, items).value, rest)
  }

  /** If the reading is not refused by its end, it lacks at most nineteen bits. */
  predicate EndsHere(s: Supply, v: Verdict)
  {
    v.Done? && Through(s, v.trace).Some? ==>
      var end := Through(s, v.trace).value;
      AtBlock(end) && Real(end) >= -19 && Here(end, v.rest)
  }

  lemma StepLacks(bits: Bits, out: seq<Byte>, room: nat, s: Supply)
    requires AtSymbol(s) && Here(s, bits)
    ensures var step := BlockStep(FixedLengths(), FixedDistances(), bits, out, room);
      && (step.Next? ==> GoesOnHere(s, step.items, step.rest))
      && (step.Stop? ==> EndsHere(s, step.verdict))
  {
    hide BlockStep, Through, AtSymbol, AtBlock, Took;
    StepShape(bits, out, room);
    StepTook(FixedLengths(), FixedDistances(), bits, out, room);
    var step := BlockStep(FixedLengths(), FixedDistances(), bits, out, room);
    if step.Next? {
      ShapeLacks(s, |bits|, step.items);
      if Through(s, step.items).Some? { StillHere(s, bits, step.items, step.rest); }
    } else if step.verdict.Done? {
      EndLacks(s);
      if Through(s, step.verdict.trace).Some? { StillHere(s, bits, step.verdict.trace, step.verdict.rest); }
    }
  }

  lemma ShapeLacks(s: Supply, r: nat, items: seq<Item>)
    requires AtSymbol(s) && Shape(r, items) && r == Real(s)
    ensures Through(s, items).Some? ==> AtSymbol(Through(s, items).value)
  {
    hide AtSymbol, MatchEnds;
    if |items| == 1 {
      assert items == [items[0]];
      ThroughOne(s, items[0]);
      if !Overdrawn(s) { LiteralLacks(s, items[0].n); }
    } else {
      var n, x, y :| MatchEnds(r, n, x, y) && items == [Symbol(n), Number(x), Symbol(5), Number(y)];
      MatchLacks(s, n, x, y);
    }
  }

  lemma {:induction false} BlockLacks(bits: Bits, out: seq<Byte>, room: nat, s: Supply)
    requires AtSymbol(s) && Here(s, bits)
    ensures EndsHere(s, HuffmanBlock(FixedLengths(), FixedDistances(), bits, out, room))
    decreases room - |out|
  {
    hide BlockStep, Through, AtSymbol, AtBlock, Here;
    StepLacks(bits, out, room, s);
    match BlockStep(FixedLengths(), FixedDistances(), bits, out, room)
    case Stop(_) =>
    case Next(out', rest, items) =>
      var v := HuffmanBlock(FixedLengths(), FixedDistances(), rest, out', room);
      if v.Done? {
        ThroughJoin(s, items, v.trace);
        if Through(s, items).Some? { BlockLacks(rest, out', room, Through(s, items).value); }
      }
  }

  lemma StoredLacks(bits: Bits, out: seq<Byte>, room: nat, s: Supply)
    requires Bytewise(s) && Here(s, bits)
    ensures EndsHere(s, StoredBlock(bits, out, room))
  {
    var v := StoredBlock(bits, out, room);
    StoredTook(bits, out, room);
    StoredIsAligned(bits, out, room);
    if v.Done? {
      ThroughOne(s, v.trace[0]);
      StillHere(s, bits, v.trace, v.rest);
    }
  }

  lemma StoredIsAligned(bits: Bits, out: seq<Byte>, room: nat)
    ensures var v := StoredBlock(bits, out, room); v.Done? ==> |v.rest| % 8 == 0
  {
    HeaderAtEnd(bits[|bits| % 8..]);
  }

  lemma OneBlockLacks(kind: nat, bits: Bits, out: seq<Byte>, room: nat, s: Supply)
    requires AtSymbol(s) && Here(s, bits)
    ensures EndsHere(s, OneBlock(kind, bits, out, room))
  {
    hide HuffmanBlock, StoredBlock, AtBlock;
    BlockLacks(bits, out, room, s);
    StoredLacks(bits, out, room, s);
  }

  lemma HeadedLacks(bits: Bits, out: seq<Byte>, room: nat, s: Supply)
    requires AtBlock(s) && Here(s, bits) && bits != []
    ensures EndsHere(s, HeadedBlock(bits, out, room))
  {
    hide OneBlock, AtBlock, AtSymbol, Through;
    var kind, rest := Ahead(Beyond(bits, 1), 2), Beyond(bits, 3);
    HeaderLacks(s);
    HeaderTook(bits);
    StillHere(s, bits, BLOCK_HEADER, rest);
    OneBlockLacks(kind, rest, out, room, Through(s, BLOCK_HEADER).value);
    var v := OneBlock(kind, rest, out, room);
    if v.Done? { ThroughJoin(s, BLOCK_HEADER, v.trace); }
  }

  lemma {:induction false} InflateLacks(bits: Bits, out: seq<Byte>, room: nat, s: Supply)
    requires AtBlock(s) && Here(s, bits)
    ensures var v := Inflate(bits, out, room);
      v.Done? && Through(s, v.trace).Some? ==> Real(Through(s, v.trace).value) >= -19
    decreases |bits|
  {
    hide HeadedBlock, AtBlock, Here, Through;
    if bits != [] {
      HeadedLacks(bits, out, room, s);
      BlockRest(bits, out, room);
      var v := HeadedBlock(bits, out, room);
      if v.Done? && !bits[0] {
        var w := Inflate(v.rest, v.out, room);
        if w.Done? {
          ThroughJoin(s, v.trace, w.trace);
          if Through(s, v.trace).Some? { InflateLacks(v.rest, v.out, room, Through(s, v.trace).value); }
        }
      }
    }
  }

  /** An accepted stream of bytes lacks at most nineteen bits. */
  lemma AcceptedLacksLittle(bytes: seq<Byte>, room: nat)
    requires Accepted(BytesBits(bytes), room)
    ensures Needs(Inflate(BytesBits(bytes), [], room).trace) <= 8 * |bytes| + 19
  {
    hide Inflate, Through, BytesBits;
    var bits := BytesBits(bytes);
    InflateLacks(bits, [], room, Start(|bits|));
    PassesTo(Start(|bits|), Inflate(bits, [], room).trace);
  }

  // ----- a stream that lacks as many -----

  /** Five bits of a code and nothing behind them: the first symbol whose length has four extra bits. */
  lemma FiveBits(bits: Bits)
    requires bits == [true, true] + BitStream.Zeros(3)
    ensures ReadSymbol(FixedLengths(), bits) == Got(280, [], Symbol(8))
  {
    hide ReadSymbol, Matches, FixedLengths;
    var code := Tokens.SymbolBits(280);
    Tokens.HuffReadBack(280, []);
    assert code + [] == code;
    CodeOf280();
    AheadOfTwo(bits, 3);
    AheadOfTwo(code, 6);
    SameRead(FixedLengths(), bits, code);
  }

  lemma AheadOfTwo(bits: Bits, n: nat)
    requires bits == [true, true] + BitStream.Zeros(n) && n <= 14
    ensures Ahead(bits, 16) == ValueOf([true, true])
  {
    BitStream.ZerosAddNothing([true, true], n);
    if n == 14 { assert bits[..16] == bits; }
  }

  /** The same symbol is read where the same number lies ahead. */
  lemma SameRead(l: seq<nat>, bits: Bits, code: Bits)
    requires Lengths(l) && Ahead(bits, 16) == Ahead(code, 16) && ReadSymbol(l, code).Got?
    ensures var read := ReadSymbol(l, code);
      ReadSymbol(l, bits) == Got(read.value, Beyond(bits, l[read.value]), read.item)
  {
    var i := ReadSymbol(l, code).value;
    MatchIsUnique(l, i, MatchOf(l, Ahead(bits, 16)).value, Ahead(bits, 16));
  }

  lemma CodeOf280()
    ensures Tokens.SymbolBits(280) == [true, true] + BitStream.Zeros(6)
  {
    BitStream.ZeroBitsOf(6);
    ReverseBits(0xC0, 8);
    assert HuffCode(280) == 0xC0;
  }

  /** Nothing is read as the distance 1. */
  lemma NoBitsDistance()
    ensures ReadSymbol(FixedDistances(), []) == Got(0, [], Symbol(5))
  {
    hide ReadSymbol, Matches, FixedDistances;
    var code := Tokens.DistanceBits(0);
    Tokens.DistanceReadBack(0, []);
    assert code + [] == code;
    ReverseOfZero(5);
    BitStream.ZeroBitsOf(5);
    assert code == [] + BitStream.Zeros(5);
    BitStream.ZerosAddNothing([], 5);
    SameRead(FixedDistances(), [], code);
  }

  const LAST_MATCH: seq<Item> := [Symbol(8), Number(4), Symbol(5), Number(0)]

  /** So those five bits are a match of length 115 and distance 1, and the end of the block. */
  lemma LastMatch(bits: Bits, x: Byte, room: nat)
    requires bits == [true, true] + BitStream.Zeros(3) && 116 <= room
    ensures HuffmanBlock(FixedLengths(), FixedDistances(), bits, [x], room)
      == Done(Copy([x], 115, 1), [], LAST_MATCH + [Symbol(7), Finish])
  {
    hide ReadSymbol, Copy;
    FiveBits(bits);
    LastMatchStep(x, room);
    ZerosEndTheBlock(0);
    assert BitStream.Zeros(0) == [];
    var out := Copy([x], 115, 1);
    assert BlockStep(FixedLengths(), FixedDistances(), bits, [x], room) == Next(out, [], LAST_MATCH);
    assert BlockStep(FixedLengths(), FixedDistances(), [], out, room) == Stop(Done(out, [], [Symbol(7), Finish]));
  }

  lemma LastMatchStep(x: Byte, room: nat)
    requires 116 <= room
    ensures ReadMatch(FixedDistances(), 23, [], [x], room)
      == Next(Copy([x], 115, 1), [], [Number(4), Symbol(5), Number(0)])
  {
    hide ReadSymbol, Copy;
    NoBitsDistance();
  }

  lemma LastByteBits()
    ensures BitsOf(0x1B, 8) == [true, true, false] + ([true, true] + BitStream.Zeros(3))
  {
    BitStream.ZeroBitsOf(3);
    assert BitsOf(3, 5) == [true] + BitsOf(1, 4) == [true] + ([true] + BitsOf(0, 3));
    assert BitsOf(0x1B, 8) == [true] + BitsOf(13, 7) == [true] + ([true] + BitsOf(6, 6));
    assert BitsOf(6, 6) == [false] + BitsOf(3, 5);
  }

  /** The last byte of the stream: a final block with fixed codes, and the five bits. */
  lemma LastByte()
    ensures var bits := BytesBits([0x1B]);
      && |bits| == 8 && bits[0] && Ahead(Beyond(bits, 1), 2) == 1
      && Beyond(bits, 3) == [true, true] + BitStream.Zeros(3)
  {
    hide BitsOf;
    assert [0x1B][1..] == [] && BytesBits([0x1B]) == BitsOf(0x1B, 8) + [];
    LastByteBits();
    var bits := BytesBits([0x1B]);
    assert bits == [true, true, false] + ([true, true] + BitStream.Zeros(3));
    assert bits[1..][..2] == [true, false] && [true, false][1..] == [false] && [false][1..] == [];
    assert ValueOf([false]) == 0;
  }

  /** A stored block with the byte x, before what follows. */
  lemma FirstBlock(x: Byte, room: nat)
    requires 116 <= room
    ensures var bits := BytesBits([0, 1, 0, 254, 255, x, 0x1B]);
      && |bits| == 56 && !bits[0]
      && HeadedBlock(bits, [], room) == Done([x], BytesBits([0x1B]), BLOCK_HEADER + [Stored(45)])
  {
    hide BytesBits, StoredBody, Ahead, Beyond;
    var more: seq<Byte> := [1, 0, 254, 255] + ([x] + [0x1B]);
    assert [0] + more == [0, 1, 0, 254, 255, x, 0x1B];
    ZCompress.FlagByte(0, more);
    ZCompress.StoredBodyReadBack([x], [0x1B], [], room);
    assert [] + [x] == [x];
  }

  /** The bound is reached: these seven bytes lack nineteen bits, and are accepted. */
  lemma NineteenAreLacking(x: Byte, room: nat)
    requires 116 <= room
    ensures var bytes: seq<Byte> := [0, 1, 0, 254, 255, x, 0x1B];
      var v := Inflate(BytesBits(bytes), [], room);
      && Accepted(BytesBits(bytes), room) && v.Done? && v.out == Copy([x], 115, 1)
      && Needs(v.trace) == 8 * |bytes| + 19
  {
    hide BytesBits, HuffmanBlock, Copy, Inflate;
    FirstBlock(x, room);
    LastByte();
    var last := BytesBits([0x1B]);
    LastMatch(Beyond(last, 3), x, room);
    var tail := BLOCK_HEADER + (LAST_MATCH + [Symbol(7), Finish]);
    assert HeadedBlock(last, [x], room) == Done(Copy([x], 115, 1), [], tail);
    TwoBlocks([0, 1, 0, 254, 255, x, 0x1B], last, [x], Copy([x], 115, 1), tail, room);
    SuppliedToTheEnd();
  }

  lemma TwoBlocks(bytes: seq<Byte>, last: Bits, between: seq<Byte>, out: seq<Byte>, tail: seq<Item>, room: nat)
    requires BytesBits(bytes) != [] && !BytesBits(bytes)[0] && last != [] && last[0]
    requires HeadedBlock(BytesBits(bytes), [], room) == Done(between, last, BLOCK_HEADER + [Stored(45)])
    requires HeadedBlock(last, between, room) == Done(out, [], tail)
    ensures Inflate(BytesBits(bytes), [], room) == Done(out, [], BLOCK_HEADER + [Stored(45)] + tail)
  {
    hide HeadedBlock, BytesBits;
    BlockRest(BytesBits(bytes), [], room);
  }

  lemma SuppliedToTheEnd()
    ensures var items := BLOCK_HEADER + [Stored(45)] + (BLOCK_HEADER + (LAST_MATCH + [Symbol(7), Finish]));
      Through(Start(56), items).Some? && Needs(items) == 75
  {
    var items := BLOCK_HEADER + [Stored(45)] + (BLOCK_HEADER + (LAST_MATCH + [Symbol(7), Finish]));
    var s1 := Supply(56, 3, 32, false);
    ThroughTwo(Start(56), Number(1), Number(2));
    LoadIs(0);
    assert Through(Start(56), BLOCK_HEADER) == Some(s1);
    var s2 := Supply(56, 48, 48, false);
    ThroughOne(s1, Stored(45));
    ThroughJoin(Start(56), BLOCK_HEADER, [Stored(45)]);
    var s3 := Supply(56, 51, 80, false);
    ThroughTwo(s2, Number(1), Number(2));
    assert Through(s2, BLOCK_HEADER) == Some(s3);
    var s4 := Supply(56, 63, 80, false);
    ThroughTwo(s3, Symbol(8), Number(4));
    var s5 := Supply(56, 68, 80, false);
    ThroughMatch(s3, 8, 4, 0);
    ThroughTwo(s4, Symbol(5), Number(0));
    var s6 := Supply(56, 75, 80, true);
    ThroughTwo(s5, Symbol(7), Finish);
    ThroughJoin(s3, LAST_MATCH, [Symbol(7), Finish]);
    ThroughJoin(s2, BLOCK_HEADER, LAST_MATCH + [Symbol(7), Finish]);
    ThroughJoin(Start(56), BLOCK_HEADER + [Stored(45)], BLOCK_HEADER + (LAST_MATCH + [Symbol(7), Finish]));
    assert Through(Start(56), items) == Some(s6);
    PassesTo(Start(56), items);
  }

  /** The decoder on those bytes. */
  method DecodeSevenBytes(x: Byte) returns (status: Z.Status, out: seq<Byte>)
    ensures status == Z.Ok && out == Copy([x], 115, 1)
  {
    NineteenAreLacking(x, 116);
    status, out := T.Decode([0, 1, 0, 254, 255, x, 0x1B], 116, false, false);
  }
}
