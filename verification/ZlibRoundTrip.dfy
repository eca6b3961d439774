// The compressor and the decoder are inverse: what one writes the other reads back, on both of
// its branches, unless there is nothing to write.
module ZlibRoundTrip {
  import opened Base
  import opened Binary
  import opened Deflate
  import opened BitStream
  import opened Supply
  import opened StretchyBuffer
  import opened FixedCode
  import opened Tokens
  import opened ZCompress
  import opened Lz77
  import Adler32
  import Z = ZBuf

  // ----- the fixed-Huffman branch -----

  /** The stream starts with its two header bytes; the block follows. */
  lemma AfterHeader(out: seq<Byte>, block: Bits)
    requires BytesBits(out) == BytesBits([0x78, 0x5E]) + block
    ensures |out| >= 2 && out[..2] == [0x78, 0x5E] && BytesBits(out[2..]) == block
  {
    BytesAhead(out, 2);
    BytesOfBytesBits([0x78, 0x5E], block);
    assert BytesBits(out)[16..] == block;
  }

  /** One final block with fixed codes. */
  lemma FixedBlockHeader(block: Bits)
    ensures var bits := BitsOf(1, 1) + BitsOf(1, 2) + block;
      bits[0] && Ahead(Beyond(bits, 1), 2) == 1 && Beyond(bits, 3) == block
  {
    var bits := BitsOf(1, 1) + BitsOf(1, 2) + block;
    assert BitsOf(1, 1) == [true] && BitsOf(1, 2) == [true, false];
    assert bits[1..][..2] == [true, false] && bits[3..] == block;
    assert [true, false][1..] == [false] && [false][1..] == [] && ValueOf([false]) == 0;
  }

  lemma FixedInflates(ts: seq<Token>, rest: Bits, room: nat)
    requires AllAllowed([], ts) && |Expand([], ts)| <= room
    ensures Yields(Inflate(BitsOf(1, 1) + BitsOf(1, 2) + (TokensBits([], ts) + SymbolBits(256) + rest), [], room),
                   Expand([], ts), rest)
  {
    hide TokensBits, SymbolBits, BytesBits, HuffmanBlock, Ahead, Beyond, BitsOf;
    var block := TokensBits([], ts) + SymbolBits(256) + rest;
    FixedBlockHeader(block);
    BlockReadBack([], ts, room, rest);
  }

  /** What the decoder finds behind the two header bytes. */
  lemma FixedStreamBits(out: seq<Byte>, data: seq<Byte>, ts: seq<Token>, zeros: Bits, sum: seq<Byte>)
    requires FixedStream(out, data, ts, zeros)
    ensures |out| >= 2 && out[..2] == [0x78, 0x5E]
    ensures BytesBits((out + sum)[2..])
      == BitsOf(1, 1) + BitsOf(1, 2) + (TokensBits([], ts) + SymbolBits(256) + (zeros + BytesBits(sum)))
  {
    hide TokensBits, SymbolBits, BytesBits, BitsOf, AllAllowed, Expand;
    var tokens := TokensBits([], ts) + SymbolBits(256);
    var block := BitsOf(1, 1) + BitsOf(1, 2) + (tokens + zeros);
    assert BytesBits(out) == BytesBits([0x78, 0x5E]) + block;
    AfterHeader(out, block);
    BytesBitsJoin(out[2..], sum);
    assert (out + sum)[2..] == out[2..] + sum;
  }

  lemma FixedReadBack(out: seq<Byte>, data: seq<Byte>, ts: seq<Token>, zeros: Bits, sum: seq<Byte>, room: nat)
    requires FixedStream(out, data, ts, zeros) && |sum| == 4 && |data| <= room
    ensures Yields(InflateZlib(out + sum, room), data, zeros + BytesBits(sum))
  {
    hide TokensBits, SymbolBits, BytesBits, BitsOf, Inflate, AllAllowed, Expand;
    FixedStreamBits(out, data, ts, zeros, sum);
    FixedInflates(ts, zeros + BytesBits(sum), room);
    assert out[0] == 0x78 && out[1] == 0x5E by { assert out[..2][0] == 0x78 && out[..2][1] == 0x5E; }
  }

  // ----- the stored branch -----

  lemma StoredStreamReadBack(data: seq<Byte>, sum: seq<Byte>, room: nat)
    requires data != [] && |data| <= room && |sum| == 4
    ensures Yields(InflateZlib([0x78, 0x5E] + StoredFrom(data, 0) + sum, room), data, BytesBits(sum))
  {
    hide BytesBits, Inflate, StoredFrom;
    var out := [0x78, 0x5E] + StoredFrom(data, 0) + sum;
    assert out[2..] == StoredFrom(data, 0) + sum && data[..0] == [];
    StoredReadBack(data, 0, sum, room);
  }

  /** Nothing stored at all: the checksum is taken for a block, and its length is wrong. */
  lemma EmptyStreamFails(room: nat)
    ensures InflateZlib([0x78, 0x5E, 0, 0, 0, 1], room) == Corrupt
  {
    hide BytesBits, StoredBody, HeaderBytes, Skip, Ahead, Beyond;
    var out: seq<Byte> := [0x78, 0x5E, 0, 0, 0, 1];
    assert out[2..] == [0] + [0, 0, 1];
    FlagByte(0, [0, 0, 1]);
    ShortHeaderFails([], room);
  }

  /** Three bytes 0, 0, 1 are read as length 0 with complement 1. */
  lemma ShortHeaderFails(out: seq<Byte>, room: nat)
    ensures StoredBody(BytesBits([0, 0, 1]), out, room) == Corrupt
  {
    hide BytesBits, Ahead, Beyond;
    var body := BytesBits([0, 0, 1]);
    assert [0, 0, 1][1..] == [0, 1] && [0, 1][1..] == [1] && [1][1..] == [];
    ByteAhead([0, 0, 1]);
    ByteAhead([0, 1]);
    ByteAhead([1]);
    NextByte([]);
    assert Skip(body, 0) == body;
    assert Skip(body, 1) == BytesBits([0, 1]);
    assert Skip(body, 2) == BytesBits([1]);
    assert Skip(body, 3) == BytesBits([]);
    assert HeaderBytes(body, 0) == [];
    assert HeaderBytes(body, 1) == [0];
    assert HeaderBytes(body, 2) == [0, 0];
    assert HeaderBytes(body, 3) == [0, 0, 1];
    assert HeaderBytes(body, 4) == [0, 0, 1, 0];
  }

  // ----- the compressor -----

  /** The most stored blocks can cost: five bytes each. */
  function StoredBound(n: nat): nat
  {
    n + 2 + (n + 32766) / 32767 * 5
  }

  lemma {:induction false} StoredSize(data: seq<Byte>, j: nat)
    requires j <= |data|
    ensures |StoredFrom(data, j)| == |data| - j + (|data| - j + 32766) / 32767 * 5
    decreases |data| - j
  {
    if j < |data| {
      var len := StoredLength(data, j);
      StoredSize(data, j + len);
      assert (|data| - j + 32766) / 32767 == (|data| - (j + len) + 32766) / 32767 + 1;
    }
  }

  /** The bits of a zlib stream behind its header. */
  function ZlibBits(stream: seq<Byte>): Bits
  {
    if |stream| >= 2 then BytesBits(stream[2..]) else []
  }

  /** The stream has every bit it needs, and decoding gives the data, in any output buffer that can
      hold it. */
  ghost predicate DecodesTo(out: seq<Byte>, data: seq<Byte>)
  {
    forall room: nat :: |data| <= room ==>
      var v := InflateZlib(out, room); Whole(v, ZlibBits(out)) && v.out == data
  }

  /** Where something is left over, nothing was missing. */
  lemma YieldsWhole(out: seq<Byte>, data: seq<Byte>, rest: Bits, room: nat)
    requires Yields(InflateZlib(out, room), data, rest) && rest != []
    ensures Whole(InflateZlib(out, room), ZlibBits(out))
  {
    RestMeansWhole(BytesBits(out[2..]), [], room);
  }

  // ----- ints -----

  /** What quality counts as. */
  function Depth(quality: int): (depth: nat)
    ensures depth >= 5 && depth >= quality && (depth == 5 || depth == quality)
  {
    if quality < 5 then 5 else quality
  }

  /** Every int that the compressor computes on its way to these tokens and to this capacity of the
      output is in range: the size of the stored form, the capacity of the output, the capacity of
      every hash bucket in bytes of pointers, and the size of a full bucket, which is computed only
      when a bucket is entered again. Capacities never shrink, so the last ones tell. */
  ghost predicate IntsInRange(data: seq<Byte>, quality: int, ts: seq<Token>, capacity: nat)
    requires Lazily(data, Depth(quality), ts) && Covered(ts) == |data|
  {
    LazyPositions(data, Depth(quality), ts);
    var starts := Starts(ts, |data|);
    && |data| + 32766 <= INT_MAX && StoredBound(|data|) <= INT_MAX && capacity <= INT_MAX
    && (forall h :: 0 <= h < BUCKETS ==> 8 * Filled(data, Depth(quality), h, starts).capacity <= INT_MAX)
    && (Deepest(data, Depth(quality), starts) >= 2 ==> 2 * Depth(quality) <= INT_MAX)
  }

  /** The most data whose stored form can be an int. */
  const MAX_STORABLE: nat := 2_147_156_000

  lemma StoredBoundFits(n: nat)
    ensures StoredBound(n) <= INT_MAX <==> n <= MAX_STORABLE
  {
  }

  /** The ints are in range exactly if these sizes are: of the data, of the output at its largest, and
      of the fullest bucket. */
  lemma IntsExactly(data: seq<Byte>, quality: int, ts: seq<Token>, peak: nat)
    requires Lazily(data, Depth(quality), ts) && Covered(ts) == |data|
    ensures Positions(data, Starts(ts, |data|), |data|)
    ensures var deepest := Deepest(data, Depth(quality), Starts(ts, |data|));
      IntsInRange(data, quality, ts, Capacity(peak)) <==>
        && |data| <= MAX_STORABLE && peak <= MAX_BYTES && deepest <= MAX_POINTERS
        && (deepest >= 2 ==> 2 * Depth(quality) <= INT_MAX)
  {
    hide Filled, Deepest, Lazily, Capacity;
    var depth, starts := Depth(quality), Starts(ts, |data|);
    LazyPositions(data, depth, ts);
    var deepest := Deepest(data, depth, starts);
    StoredBoundFits(|data|);
    BytesFit(peak);
    PointersFit(deepest);
    forall h | 0 <= h < BUCKETS ensures Filled(data, depth, h, starts).capacity <= Capacity(deepest) {
      FilledCapacity(data, depth, h, starts);
      PeakAtMostDeepest(data, depth, h, starts);
      CapacityGrows(Peak(data, depth, h, starts), deepest);
    }
    var fullest := DeepestIsReached(data, depth, starts);
    FilledCapacity(data, depth, fullest, starts);
  }

  /** The most data for which nine bits a byte cannot take the output beyond what ints can count. */
  const MAX_DATA: nat := 1_431_655_757

  /** Sizes that are small enough, whatever the data: a bucket holds at most 2 * quality positions
      and at most one for every byte. */
  predicate IntsFit(n: nat, quality: int)
  {
    && n <= MAX_DATA && 2 * Depth(quality) <= INT_MAX
    && (n <= MAX_POINTERS || 2 * Depth(quality) <= MAX_POINTERS)
  }

  lemma SmallIsInRange(data: seq<Byte>, quality: int, ts: seq<Token>, fixedSize: nat, size: nat)
    requires IntsFit(|data|, quality) && Lazily(data, Depth(quality), ts) && Covered(ts) == |data|
    requires 8 * fixedSize <= 9 * |data| + 33 && (size <= fixedSize + 4 || size <= StoredBound(|data|) + 4)
    ensures IntsInRange(data, quality, ts, Capacity(Max(fixedSize, size)))
  {
    hide IntsInRange, Deepest, Lazily, Capacity;
    IntsExactly(data, quality, ts, Max(fixedSize, size));
    DeepestBounds(data, Depth(quality), Starts(ts, |data|));
  }

  /** The stored blocks are copied into a buffer that has room for them: it held more before. */
  lemma StoredBlocksHaveRoom(data: seq<Byte>, fixedSize: nat)
    requires fixedSize > StoredBound(|data|)
    ensures 2 + |StoredFrom(data, 0)| <= StoredBound(|data|) < Capacity(fixedSize)
  {
    StoredSize(data, 0);
    var k := CapacityForm(fixedSize);
  }

  // ----- the whole compressor -----

  function Checksum(s1: nat, s2: nat): (sum: seq<Byte>)
    ensures |sum| == 4
  {
    [s2 / 256 % 256, s2 % 256, s1 / 256 % 256, s1 % 256]
  }

  lemma FixedStreamIsLong(out: seq<Byte>, data: seq<Byte>, ts: seq<Token>, zeros: Bits)
    requires FixedStream(out, data, ts, zeros)
    ensures |out| >= 4 && out[..2] == [0x78, 0x5E]
  {
    hide TokensBits, SymbolBits, BytesBits, BitsOf;
    var block := BitsOf(1, 1) + BitsOf(1, 2) + (TokensBits([], ts) + SymbolBits(256) + zeros);
    assert BytesBits(out) == BytesBits([0x78, 0x5E]) + block;
    AfterHeader(out, block);
    assert |BytesBits(out)| >= 16 + |block| && |block| >= 3 + HuffBits(256);
  }

  /** The four bytes at the end of the stream. */
  function Trailer(data: seq<Byte>): (sum: seq<Byte>)
    ensures |sum| == 4
  {
    Checksum(Adler32.SumA(data, |data|) % Adler32.MOD, Adler32.SumB(data, |data|) % Adler32.MOD)
  }

  /** The stream for the data: the fixed-Huffman form of the tokens chosen lazily, or stored blocks
      if that is longer than they can be, and the checksum. */
  ghost predicate Compressed(data: seq<Byte>, quality: int, out: seq<Byte>,
                             fixed: seq<Byte>, ts: seq<Token>, zeros: Bits)
  {
    && FixedStream(fixed, data, ts, zeros) && Lazily(data, Depth(quality), ts) && Covered(ts) == |data|
    && out == (if |fixed| > StoredBound(|data|) then [0x78, 0x5E] + StoredFrom(data, 0) else fixed) + Trailer(data)
  }

  /** Four bytes as a number, the most significant one first. */
  function BigEndian(bytes: seq<Byte>): int
    requires |bytes| == 4
  {
    var a: int, b: int, c: int, d: int := bytes[0], bytes[1], bytes[2], bytes[3];
    a * 0x100_0000 + b * 0x1_0000 + c * 0x100 + d
  }

  lemma HighAndLow(s: nat)
    requires s < 65536
    ensures s / 256 % 256 * 256 + s % 256 == s
  {
  }

  /** The trailer is the Adler-32 checksum: the second sum, then the first, both reduced. */
  lemma TrailerIsAdler(data: seq<Byte>)
    ensures BigEndian(Trailer(data))
      == Adler32.SumB(data, |data|) % Adler32.MOD * 65536 + Adler32.SumA(data, |data|) % Adler32.MOD
  {
    hide Adler32.SumA, Adler32.SumB;
    HighAndLow(Adler32.SumA(data, |data|) % Adler32.MOD);
    HighAndLow(Adler32.SumB(data, |data|) % Adler32.MOD);
  }

  /** stbi_zlib_compress. What it writes decodes to the data, unless there is no data. */
  method Compress(data: seq<Byte>, quality: int)
      returns (out: seq<Byte>, capacity: nat, ghost fixed: seq<Byte>, ghost ts: seq<Token>, ghost zeros: Bits)
    ensures Compressed(data, quality, out, fixed, ts, zeros)
    ensures data != [] ==> DecodesTo(out, data)
    ensures data == [] ==> forall room: nat :: InflateZlib(out, room) == Corrupt
    ensures |out| <= StoredBound(|data|) + 4 && 8 * |fixed| <= 9 * |data| + 33
    ensures capacity == Capacity(Max(|fixed|, |out|))
    ensures IntsFit(|data|, quality) ==> IntsInRange(data, quality, ts, capacity)
  {
    hide InflateZlib, DecodesTo, FixedStream, StoredFrom, IntsFit, IntsInRange, Lazily, Capacity;
    out, capacity, ts, zeros := CompressFixed(data, if quality < 5 then 5 else quality);
    fixed := out;
    FixedStreamIsLong(out, data, ts, zeros);
    FixedSize(out, data, ts, zeros);
    var s1, s2 := Adler32.Adler(data);
    var sum := Checksum(s1, s2);
    if data == [] { ChecksumOfNothing(s1, s2); }
    if |out| > |data| + 2 + (|data| + 32766) / 32767 * 5 {
      StoredBlocksHaveRoom(data, |out|);
      out := StoreBlocks(out[..2], capacity, data);
      StoredSize(data, 0);
      StoredDecodes(data, sum);
    } else {
      FixedDecodes(out, data, ts, zeros, sum);
    }
    out, capacity := PushSum(out, capacity, sum, |fixed|);
    if IntsFit(|data|, quality) { SmallIsInRange(data, quality, ts, |fixed|, |out|); }
  }

  method PushSum(out: seq<Byte>, capacity: nat, sum: seq<Byte>, ghost peak: nat)
      returns (out': seq<Byte>, capacity': nat)
    requires |sum| == 4 && |out| <= peak && capacity == Capacity(peak)
    ensures out' == out + sum && capacity' == Capacity(Max(peak, |out'|))
  {
    hide Capacity, Grown;
    PushedAfterCut(peak, |out|);
    PushedAfterCut(Max(peak, |out| + 1), |out| + 1);
    PushedAfterCut(Max(peak, |out| + 2), |out| + 2);
    PushedAfterCut(Max(peak, |out| + 3), |out| + 3);
    out', capacity' := Push(out, capacity, sum[0]);
    out', capacity' := Push(out', capacity', sum[1]);
    out', capacity' := Push(out', capacity', sum[2]);
    out', capacity' := Push(out', capacity', sum[3]);
  }

  lemma ChecksumOfNothing(s1: nat, s2: nat)
    requires s1 == Adler32.SumA([], 0) % Adler32.MOD && s2 == Adler32.SumB([], 0) % Adler32.MOD
    ensures Checksum(s1, s2) == [0, 0, 0, 1]
  {
    assert Adler32.SumA([], 0) == 1 && Adler32.SumB([], 0) == 0;
    assert s1 == 1 && s2 == 0;
  }

  lemma FixedDecodes(out: seq<Byte>, data: seq<Byte>, ts: seq<Token>, zeros: Bits, sum: seq<Byte>)
    requires FixedStream(out, data, ts, zeros) && |sum| == 4
    ensures DecodesTo(out + sum, data)
  {
    forall room: nat | |data| <= room
      ensures var v := InflateZlib(out + sum, room); Whole(v, ZlibBits(out + sum)) && v.out == data
    {
      FixedReadBack(out, data, ts, zeros, sum, room);
      YieldsWhole(out + sum, data, zeros + BytesBits(sum), room);
    }
  }

  lemma StoredDecodes(data: seq<Byte>, sum: seq<Byte>)
    requires |sum| == 4
    ensures data != [] ==> DecodesTo([0x78, 0x5E] + StoredFrom(data, 0) + sum, data)
    ensures data == [] && sum == [0, 0, 0, 1] ==>
      forall room: nat :: InflateZlib([0x78, 0x5E] + StoredFrom(data, 0) + sum, room) == Corrupt
  {
    var out := [0x78, 0x5E] + StoredFrom(data, 0) + sum;
    forall room: nat | |data| <= room && data != []
      ensures var v := InflateZlib(out, room); Whole(v, ZlibBits(out)) && v.out == data
    {
      StoredStreamReadBack(data, sum, room);
      YieldsWhole(out, data, BytesBits(sum), room);
    }
    if data == [] && sum == [0, 0, 0, 1] {
      assert out == [0x78, 0x5E, 0, 0, 0, 1];
      forall room: nat ensures InflateZlib(out, room) == Corrupt { EmptyStreamFails(room); }
    }
  }

  // ----- the decoder -----

  /** A fresh decoder run over the whole input: its answer is the meaning of the stream, read as if
      zeros followed; an error if it has none, or if more zeros are used than stbi__fill_bits
      supplies. */
  method Decode(data: seq<Byte>, size: nat, expandable: bool, header: bool) returns (status: Z.Status, out: seq<Byte>)
    requires size <= Z.UINT_MAX && (expandable ==> 1 <= size)
    ensures var room := if expandable then Z.RoomOf(size) else size;
      match if header then InflateZlib(data, room) else Inflate(BytesBits(data), [], room)
      case Done(result, _, trace) =>
        if Through(Z.StartOf(|data|, header), trace).Some? then status == Z.Ok && out == result else status == Z.Error
      case Dynamic(trace) =>
        status == if Through(Z.StartOf(|data|, header), trace).Some? then Z.Unsupported else Z.Error
      case _ => status == Z.Error
  {
    var z := new Z.Decoder(data, size, expandable);
    status := z.ParseZlib(header);
    out := z.zout;
  }

  /** The doubling buffer holds anything whose size fits in an int. */
  lemma RoomHoldsInts(size: nat)
    requires 1 <= size <= Z.UINT_MAX
    ensures Z.RoomOf(size) >= INT_MAX
  {
  }

  /** A stream that has all its bits is never refused for the lack of some. */
  lemma WholeIsAccepted(bits: Bits, room: nat)
    requires Whole(Inflate(bits, [], room), bits)
    ensures Through(Start(|bits|), Inflate(bits, [], room).trace).Some?
  {
    InflateTook(bits, [], room);
    StartIsSound(|bits|);
    WholePasses(Start(|bits|), Inflate(bits, [], room).trace);
  }

  /** Compress, then decode into a growing buffer: the data come back exactly if there are any, for
      all data and qualities with which the compressor computes within the range of int. */
  method RoundTrip(data: seq<Byte>, quality: int, size: nat)
      returns (status: Z.Status, back: seq<Byte>,
               ghost sent: seq<Byte>, ghost fixed: seq<Byte>, ghost ts: seq<Token>, ghost zeros: Bits)
    requires |data| <= INT_MAX && 1 <= size <= Z.UINT_MAX
    ensures Compressed(data, quality, sent, fixed, ts, zeros)
    ensures IntsInRange(data, quality, ts, Capacity(Max(|fixed|, |sent|))) ==>
      ((status == Z.Ok && back == data) <==> data != [])
    ensures IntsFit(|data|, quality) ==> IntsInRange(data, quality, ts, Capacity(Max(|fixed|, |sent|)))
  {
    hide InflateZlib, DecodesTo, IntsFit, IntsInRange, Through, FixedStream, Lazily, StoredFrom, Trailer, Capacity;
    var out, capacity;
    out, capacity, fixed, ts, zeros := Compress(data, quality);
    sent := out;
    RoomHoldsInts(size);
    if data != [] { DecodesAccepted(out, data, Z.RoomOf(size)); }
    status, back := Decode(out, size, true, true);
  }

  lemma DecodesAccepted(out: seq<Byte>, data: seq<Byte>, room: nat)
    requires DecodesTo(out, data) && |data| <= room
    ensures var v := InflateZlib(out, room);
      v.Done? && v.out == data && Through(Z.StartOf(|out|, true), v.trace).Some?
  {
    hide Inflate, Through;
    assert Whole(InflateZlib(out, room), ZlibBits(out));
    WholeIsAccepted(BytesBits(out[2..]), room);
  }
}
