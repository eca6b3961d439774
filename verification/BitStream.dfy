// How the reader's bit buffer and the bytes not yet read stand for the bits still to come. Past
// the end of the input the reader supplies zero bits; these are told apart from the real ones.
module BitStream {
  import opened Base
  import opened Binary
  import opened Deflate

  function Zeros(n: nat): (bits: Bits)
    ensures |bits| == n
  {
    seq(n, i => false)
  }

  /** The buffer, then the bytes: the real bits, then zeros. */
  ghost predicate Streams(buffer: nat, count: nat, unread: seq<Byte>, left: Bits, padding: nat)
  {
    && buffer < Pow2(count)
    && BitsOf(buffer, count) + BytesBits(unread) == left + Zeros(padding)
    && (padding > 0 ==> unread == [])
    && (left != [] ==> padding % 8 == 0)
  }

  lemma RealWhileUnread(buffer: nat, count: nat, unread: seq<Byte>, left: Bits, padding: nat)
    requires Streams(buffer, count, unread, left, padding)
    ensures count + 8 * |unread| == |left| + padding
    ensures |left| > count ==> padding == 0 && unread != []
  {
    assert |BitsOf(buffer, count) + BytesBits(unread)| == |left + Zeros(padding)|;
  }

  /** Bytes end where the bits in the buffer say. */
  lemma ByteEnds(buffer: nat, count: nat, unread: seq<Byte>, left: Bits, padding: nat)
    requires Streams(buffer, count, unread, left, padding)
    ensures Beyond(left, count % 8) == left[|left| % 8..]
    ensures left != [] ==> count % 8 == |left| % 8
  {
    RealWhileUnread(buffer, count, unread, left, padding);
    if left != [] {
      assert |left| % 8 == (count + 8 * |unread| - padding) % 8 == count % 8;
    }
  }

  lemma {:induction false} ZerosAddNothing(bits: Bits, n: nat)
    ensures ValueOf(bits + Zeros(n)) == ValueOf(bits)
    decreases |bits| + n
  {
    if bits != [] {
      ZerosAddNothing(bits[1..], n);
      assert (bits + Zeros(n))[1..] == bits[1..] + Zeros(n);
    } else if n > 0 {
      assert Zeros(n)[1..] == Zeros(n - 1) == [] + Zeros(n - 1);
      assert bits + Zeros(n) == Zeros(n);
      ZerosAddNothing([], n - 1);
    }
  }

  lemma {:induction false} ZeroBitsOf(n: nat)
    ensures BitsOf(0, n) == Zeros(n)
  {
    if n > 0 {
      ZeroBitsOf(n - 1);
      assert Zeros(n) == [false] + Zeros(n - 1);
    }
  }

  lemma ByteIsSmall(b: Byte)
    ensures b < Pow2(8)
  {
    assert Pow2(4) == 16 && Pow2(8) == 256;
  }

  /** One byte of input goes into the buffer. */
  lemma FillReal(buffer: nat, count: nat, unread: seq<Byte>, left: Bits, padding: nat)
    requires Streams(buffer, count, unread, left, padding) && unread != []
    ensures Streams(BitOr(buffer, Shl(unread[0], count)), count + 8, unread[1..], left, padding)
  {
    ByteIsSmall(unread[0]);
    BitsJoin(buffer, unread[0], count, 8);
    var or := BitOr(buffer, Shl(unread[0], count));
    assert BitsOf(or, count + 8) + BytesBits(unread[1..])
      == BitsOf(buffer, count) + (BitsOf(unread[0], 8) + BytesBits(unread[1..]));
  }

  /** Zero bits are supplied at the end of the input. */
  lemma FillZeros(buffer: nat, count: nat, left: Bits, padding: nat, n: nat)
    requires Streams(buffer, count, [], left, padding) && n % 8 == 0
    ensures Streams(buffer, count + n, [], left, padding + n)
  {
    Pow2Grows(count, count + n);
    BitsSplit(buffer, count, n);
    ShrToZero(buffer, count);
    ZeroBitsOf(n);
    assert left + Zeros(padding + n) == (left + Zeros(padding)) + Zeros(n);
    assert BitsOf(buffer, count) + BytesBits([]) == BitsOf(buffer, count);
  }

  lemma {:induction false} ShrToZero(x: nat, n: nat)
    requires x < Pow2(n)
    ensures Shr(x, n) == 0
  {
    if n > 0 { ShrToZero(x / 2, n - 1); }
  }

  /** Bits leave the buffer. */
  lemma TakeBits(buffer: nat, count: nat, unread: seq<Byte>, left: Bits, padding: nat, n: nat)
      returns (padding': nat)
    requires Streams(buffer, count, unread, left, padding) && n <= count
    ensures Low(buffer, n) == Ahead(left, n)
    ensures Streams(Shr(buffer, n), count - n, unread, Beyond(left, n), padding')
    ensures n <= |left| ==> padding' == padding
  {
    var all := left + Zeros(padding);
    BitsSplit(buffer, n, count - n);
    ShrBound(buffer, n, count - n);
    ValueOfBits(buffer, n);
    RealWhileUnread(buffer, count, unread, left, padding);
    assert BitsOf(buffer, n) == all[..n];
    assert BitsOf(Shr(buffer, n), count - n) + BytesBits(unread) == all[n..];
    if n <= |left| {
      padding' := padding;
      assert all[..n] == left[..n];
      assert all[n..] == left[n..] + Zeros(padding);
    } else {
      padding' := padding - (n - |left|);
      assert all[..n] == left + Zeros(n - |left|);
      ZerosAddNothing(left, n - |left|);
      assert all[n..] == [] + Zeros(padding');
    }
  }

  /** The low sixteen bits of the buffer are the next bits, with zeros where there are too few. */
  lemma BufferIsWindow(buffer: nat, count: nat, unread: seq<Byte>, left: Bits, padding: nat)
    requires Streams(buffer, count, unread, left, padding) && 16 <= count
    ensures Low(buffer, 16) == Ahead(left, 16)
  {
    var padding' := TakeBits(buffer, count, unread, left, padding, 16);
  }

  /** With an empty buffer what is left are the bytes not yet read. */
  lemma EmptyBuffer(buffer: nat, unread: seq<Byte>, left: Bits, padding: nat)
    requires Streams(buffer, 0, unread, left, padding)
    ensures left == BytesBits(unread) && padding == 0 && buffer == 0
  {
    assert BitsOf(buffer, 0) + BytesBits(unread) == BytesBits(unread);
    RealWhileUnread(buffer, 0, unread, left, padding);
    assert left + Zeros(0) == left;
  }

  lemma FromBytes(unread: seq<Byte>)
    ensures Streams(0, 0, unread, BytesBits(unread), 0)
  {
    assert BitsOf(0, 0) + BytesBits(unread) == BytesBits(unread);
    assert BytesBits(unread) + Zeros(0) == BytesBits(unread);
  }

  lemma OneBit(left: Bits)
    requires left != []
    ensures Ahead(left, 1) == if left[0] then 1 else 0
  {
    var first := left[..1];
    assert first[0] == left[0] && first[1..] == [] && ValueOf(first[1..]) == 0;
  }

  /** The next byte read with an empty buffer. */
  lemma NextByte(unread: seq<Byte>)
    ensures Ahead(BytesBits(unread), 8) == if unread == [] then 0 else unread[0]
    ensures Beyond(BytesBits(unread), 8) == BytesBits(if unread == [] then [] else unread[1..])
  {
    var bits := BytesBits(unread);
    if unread != [] {
      assert bits[..8] == BitsOf(unread[0], 8) && bits[8..] == BytesBits(unread[1..]);
      ByteIsSmall(unread[0]);
      ValueOfBits(unread[0], 8);
      LowBound(unread[0], 8);
    }
  }

  /** Whole bytes of the input, skipped and copied. */
  lemma {:induction false} BytesAhead(unread: seq<Byte>, n: nat)
    requires n <= |unread|
    ensures BytesOf(BytesBits(unread), n) == unread[..n]
    ensures BytesBits(unread)[8 * n..] == BytesBits(unread[n..])
    decreases n
  {
    if n > 0 {
      NextByte(unread);
      BytesAhead(unread[1..], n - 1);
      assert BytesBits(unread)[8..] == BytesBits(unread[1..]);
      assert BytesBits(unread)[8 * n..] == BytesBits(unread)[8..][8 * (n - 1)..];
      assert unread[n..] == unread[1..][n - 1..];
    }
  }
}
