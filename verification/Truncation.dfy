// Streams that end too early. The decoder means to refuse a stream that used bits from behind its
// end, and does not always: zeros that stbi__fill_bits supplied are taken for real ones.
module Truncation {
  import opened Base
  import opened Binary
  import opened Canonical
  import opened Deflate
  import opened Supply
  import BitStream
  import Tokens
  import Z = ZBuf
  import T = ZlibRoundTrip

  /** The decoder accepts these bits as a headerless stream. */
  ghost predicate Accepted(bits: Bits, room: nat)
  {
    var v := Inflate(bits, [], room);
    v.Done? && Through(Start(|bits|), v.trace).Some?
  }

  /** Bits from behind the end are refused. */
  ghost predicate PaddingIsRefused(bits: Bits, room: nat)
  {
    Accepted(bits, room) ==> Whole(Inflate(bits, [], room), bits)
  }

  /** At some symbol, or at the end of a Huffman block, more has been used than stbi__fill_bits has
      supplied. */
  predicate RunsShort(bits: Bits, items: seq<Item>)
  {
    exists k :: 0 <= k < |items| && OverdrawnAt(Start(|bits|), items, k)
  }

  /** Streams that have all their bits are accepted; of the others exactly those that do not run
      short, so that for these alone the refusal fails. */
  lemma RefusedExactly(bits: Bits, room: nat)
    requires Inflate(bits, [], room).Done?
    ensures var v := Inflate(bits, [], room);
      && (Accepted(bits, room) <==> !RunsShort(bits, v.trace))
      && (Whole(v, bits) ==> Accepted(bits, room))
      && (PaddingIsRefused(bits, room) <==> Whole(v, bits) || RunsShort(bits, v.trace))
  {
    hide Inflate, OverdrawnAt;
    var v := Inflate(bits, [], room);
    RefusedIffOverdrawn(Start(|bits|), v.trace);
    if Whole(v, bits) { T.WholeIsAccepted(bits, room); }
  }

  /** A stream that is accepted ended within the zeros that stbi__fill_bits supplied, at the latest:
      where it supplied none, all bits were there. */
  lemma AcceptedWithinSupply(bits: Bits, room: nat)
    requires Accepted(bits, room)
    ensures var v := Inflate(bits, [], room);
      var end := Through(Start(|bits|), v.trace).value;
      && end.pos == Needs(v.trace) && end.pos <= end.loaded
      && (end.loaded <= |bits| ==> Whole(v, bits))
  {
    hide Inflate;
    var v := Inflate(bits, [], room);
    PassesTo(Start(|bits|), v.trace);
    InflateEnds(bits, [], room);
    EndsWithinSupply(Start(|bits|), v.trace);
  }

  /** The last item is the end of a Huffman block, or a stored block. */
  predicate Ends(items: seq<Item>)
  {
    items != [] && (items[|items| - 1].Finish? || items[|items| - 1].Stored?)
  }

  lemma EndsWithinSupply(s: Supply, items: seq<Item>)
    requires Ends(items) && Through(s, items).Some?
    ensures !Overdrawn(Through(s, items).value)
  {
    var n := |items| - 1;
    assert items[..n] + [items[n]] == items;
    ThroughJoin(s, items[..n], [items[n]]);
    var between := Through(s, items[..n]).value;
    ThroughOne(between, items[n]);
  }

  lemma EndsBehind(a: seq<Item>, b: seq<Item>)
    requires Ends(b)
    ensures Ends(a + b)
  {
  }

  lemma {:induction false} InflateEnds(bits: Bits, out: seq<Byte>, room: nat)
    ensures var v := Inflate(bits, out, room); v.Done? ==> Ends(v.trace)
    decreases |bits|
  {
    hide HuffmanBlock, StoredBlock, Ends;
    if bits != [] {
      var kind, rest := Ahead(Beyond(bits, 1), 2), Beyond(bits, 3);
      BlockEnds(kind, rest, out, room);
      BlockRest(bits, out, room);
      var v, w := OneBlock(kind, rest, out, room), HeadedBlock(bits, out, room);
      if w.Done? {
        EndsBehind(BLOCK_HEADER, v.trace);
        if !bits[0] {
          InflateEnds(w.rest, w.out, room);
          var u := Inflate(w.rest, w.out, room);
          if u.Done? { EndsBehind(w.trace, u.trace); }
        }
      }
    }
  }

  lemma BlockEnds(kind: nat, bits: Bits, out: seq<Byte>, room: nat)
    ensures var v := OneBlock(kind, bits, out, room); v.Done? ==> Ends(v.trace)
  {
    HuffmanTook(FixedLengths(), FixedDistances(), bits, out, room);
  }

  // ----- a stream of one byte -----

  /** Zeros alone are read as the end of a fixed block. */
  lemma ZerosEndTheBlock(n: nat)
    ensures ReadSymbol(FixedLengths(), BitStream.Zeros(n)) == Got(256, Beyond(BitStream.Zeros(n), 7), Symbol(7))
  {
    var bits := BitStream.Zeros(n);
    var seen := if 16 <= n then 16 else n;
    assert (if 16 <= |bits| then bits[..16] else bits) == [] + BitStream.Zeros(seen);
    BitStream.ZerosAddNothing([], seen);
    assert Ahead(bits, 16) == 0;
    Tokens.HuffReadBack(256, []);
    var code := Tokens.SymbolBits(256) + [];
    assert code == Tokens.SymbolBits(256);
    assert Reverse(0, 7) == 0 by { ReverseOfZero(7); }
    BitStream.ZeroBitsOf(7);
    assert code == [] + BitStream.Zeros(7);
    BitStream.ZerosAddNothing([], 7);
    assert Matches(FixedLengths(), 256, Ahead(code, 16));
    MatchIsUnique(FixedLengths(), 256, MatchOf(FixedLengths(), 0).value, 0);
  }

  lemma {:induction false} ReverseOfZero(n: nat)
    ensures Reverse(0, n) == 0
  {
    if n > 0 {
      ReverseOfZero(n - 1);
      ShlOfZero(n - 1);
    }
  }

  /** The byte 3: a final block with fixed codes, and then only five of the seven bits of its end.
      What was read of it takes ten bits, and is all the same accepted, as an empty stream. */
  lemma CutOffEndIsAccepted(room: nat)
    ensures var bits := BytesBits([3]);
      && Inflate(bits, [], room) == Done([], [], BLOCK_HEADER + [Symbol(7), Finish])
      && |bits| == 8 && Needs(BLOCK_HEADER + [Symbol(7), Finish]) == 10
      && Accepted(bits, room) && !PaddingIsRefused(bits, room)
  {
    hide ReadSymbol, BytesBits;
    var bits := BytesBits([3]);
    ByteThree();
    var five := BitStream.Zeros(5);
    ZerosEndTheBlock(5);
    assert BlockStep(FixedLengths(), FixedDistances(), five, [], room) == Stop(Done([], [], [Symbol(7), Finish]));
    HeaderTook(bits);
    NeedsJoin(BLOCK_HEADER, [Symbol(7), Finish]);
    assert [Symbol(7), Finish][1..] == [Finish];
    assert Needs([Finish]) == 0 && Needs([Symbol(7), Finish]) == 7;
    ThroughTwo(Start(8), Number(1), Number(2));
    ThroughJoin(Start(8), BLOCK_HEADER, [Symbol(7), Finish]);
    ThroughTwo(Through(Start(8), BLOCK_HEADER).value, Symbol(7), Finish);
  }

  lemma ByteThree()
    ensures BytesBits([3]) == [true, true] + BitStream.Zeros(6)
    ensures var bits := BytesBits([3]);
      bits[0] && Ahead(Beyond(bits, 1), 2) == 1 && Beyond(bits, 3) == BitStream.Zeros(5)
  {
    assert [3][1..] == [] && BytesBits([3]) == BitsOf(3, 8) + [];
    BitStream.ZeroBitsOf(6);
    assert BitsOf(3, 8) == [true] + BitsOf(1, 7) && BitsOf(1, 7) == [true] + BitsOf(0, 6);
    var bits := BytesBits([3]);
    assert bits[1..][..2] == [true, false] && [true, false][1..] == [false] && [false][1..] == [];
    assert ValueOf([false]) == 0;
  }

  /** The decoder on that byte. */
  method DecodeByteThree() returns (status: Z.Status, out: seq<Byte>)
    ensures status == Z.Ok && out == []
  {
    CutOffEndIsAccepted(Z.RoomOf(1));
    status, out := T.Decode([3], 1, true, false);
  }
}
