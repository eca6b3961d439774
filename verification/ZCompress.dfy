// stbi_zlib_compress: a zlib stream with one fixed-Huffman block, or stored blocks if that is
// shorter.
module ZCompress {
  import opened Base
  import opened Binary
  import opened Deflate
  import opened Tokens
  import opened Lz77
  import opened BitWriter
  import opened StretchyBuffer

  /** What is written before the tokens: the zlib header, BFINAL and BTYPE. */
  function Prelude(): Bits
  {
    BytesBits([0x78, 0x5E]) + BitsOf(1, 1) + BitsOf(1, 2)
  }

  /** The tokens written so far are the first i bytes of the data. */
  ghost predicate Written(w: Writer, data: seq<Byte>, i: nat, ts: seq<Token>)
    reads w
  {
    && w.Valid() && i <= |data|
    && AllAllowed([], ts) && Expand([], ts) == data[..i]
    && w.Emitted() == Prelude() + TokensBits([], ts)
  }

  /** A token was written. */
  lemma OneMore(data: seq<Byte>, i: nat, ts: seq<Token>, t: Token, i': nat)
    requires i <= i' <= |data| && AllAllowed([], ts) && Expand([], ts) == data[..i]
    requires Allowed(t, i) && Emit(data[..i], t) == data[..i']
    ensures AllAllowed([], ts + [t]) && Expand([], ts + [t]) == data[..i']
    ensures Prelude() + TokensBits([], ts + [t]) == Prelude() + TokensBits([], ts) + TokenBits(t)
  {
    ExpandMore([], ts, t);
    TokensBitsMore([], ts, t);
    Associate(Prelude(), TokensBits([], ts), TokenBits(t));
  }

  method WriteLiteral(w: Writer, data: seq<Byte>, i: nat, ghost ts: seq<Token>) returns (ghost ts': seq<Token>)
    requires i < |data| && Written(w, data, i, ts)
    modifies w
    ensures Written(w, data, i + 1, ts') && ts' == ts + [Literal(data[i])]
  {
    hide Prelude, TokensBits, SymbolBits, BytesBits, BitsOf;
    ghost var t := Literal(data[i]);
    assert data[..i + 1] == data[..i] + [data[i]];
    OneMore(data, i, ts, t, i + 1);
    w.HuffB(data[i]);
    ts' := ts + [t];
  }

  method WriteMatchAt(w: Writer, data: seq<Byte>, i: nat, best: nat, loc: nat, ghost ts: seq<Token>)
      returns (ghost ts': seq<Token>)
    requires i < |data| && IsMatch(data, loc, i, best) && Written(w, data, i, ts)
    modifies w
    ensures Written(w, data, i + best, ts') && ts' == ts + [Match(best, i - loc)]
  {
    hide Prelude, TokensBits, LengthBits, DistBits, BytesBits, BitsOf, Copy;
    var d := i - loc;
    assert best <= 258;
    ghost var t := Match(best, d);
    CopyReproduces(data, loc, i, best, 0);
    OneMore(data, i, ts, t, i + best);
    w.WriteMatch(best, d);
    ts' := ts + [t];
  }

  /** The header of the stream and of its one block. */
  method Begin() returns (w: Writer)
    ensures fresh(w) && w.Valid() && w.Emitted() == Prelude()
  {
    w := new Writer();
    w.Push(0x78);
    w.Push(0x5E);
    TwoBytes(0x78, 0x5E);
    SmallPowers();
    w.Add(1, 1);
    w.Add(1, 2);
  }

  lemma TwoBytes(a: Byte, b: Byte)
    ensures BytesBits([a, b]) == [] + BitsOf(a, 8) + BitsOf(b, 8)
  {
    assert [a, b][1..] == [b] && [b][1..] == [];
    assert BytesBits([b]) == BitsOf(b, 8) + BytesBits([]);
  }

  /** The token for position i: the match chosen, or the literal. */
  function TokenAt(data: seq<Byte>, i: nat, best: nat, bestloc: Option<nat>): Token
    requires i < |data| && (bestloc.Some? ==> bestloc.value <= i)
  {
    match bestloc
    case Some(loc) => Match(best, i - loc)
    case None => Literal(data[i])
  }

  /** How many bytes the tokens stand for. */
  function Covered(ts: seq<Token>): nat
  {
    if ts == [] then 0
    else Covered(ts[..|ts| - 1]) + if ts[|ts| - 1].Match? then ts[|ts| - 1].len else 1
  }

  /** The positions that the main loop has entered into the hash table: those of tokens with at least
      four bytes of n left. */
  function Starts(ts: seq<Token>, n: nat): seq<nat>
  {
    if ts == [] then []
    else
      var before := ts[..|ts| - 1];
      Starts(before, n) + if Covered(before) + 3 < n then [Covered(before)] else []
  }

  /** Every token is the lazy choice with the hash table of that moment, and the last three bytes are
      literals. */
  ghost predicate Lazily(data: seq<Byte>, quality: nat, ts: seq<Token>)
  {
    ts == [] ||
    var before, t := ts[..|ts| - 1], ts[|ts| - 1];
    Lazily(data, quality, before) && LazyNext(data, quality, before, t)
  }

  ghost predicate LazyNext(data: seq<Byte>, quality: nat, before: seq<Token>, t: Token)
  {
    var i := Covered(before);
    && i < |data|
    && if i + 3 < |data| then
         exists best, bestloc ::
           ChoiceAt(data, quality, Starts(before, |data|), i, best, bestloc) && t == TokenAt(data, i, best, bestloc)
       else t == Literal(data[i])
  }

  lemma LazilyMore(data: seq<Byte>, quality: nat, ts: seq<Token>, t: Token)
    requires Lazily(data, quality, ts) && LazyNext(data, quality, ts, t)
    ensures Lazily(data, quality, ts + [t])
    ensures Covered(ts + [t]) == Covered(ts) + if t.Match? then t.len else 1
    ensures Starts(ts + [t], |data|)
      == Starts(ts, |data|) + if Covered(ts) + 3 < |data| then [Covered(ts)] else []
  {
    assert (ts + [t])[..|ts|] == ts;
  }

  /** One turn of the main loop: the lazy choice is written, a match or a literal. */
  method WriteNext(w: Writer, table: array<Hlist>, data: seq<Byte>, quality: nat, i: nat, ghost ts: seq<Token>)
      returns (i': nat, ghost ts': seq<Token>)
    requires i + 3 < |data| && 1 <= quality && Written(w, data, i, ts) && Lazily(data, quality, ts) && i == Covered(ts)
    requires TableOk(table, data, quality, Starts(ts, |data|)) && Positions(data, Starts(ts, |data|), i)
    modifies w, table
    ensures i < i' && Written(w, data, i', ts') && Lazily(data, quality, ts') && i' == Covered(ts')
    ensures TableOk(table, data, quality, Starts(ts', |data|)) && Positions(data, Starts(ts', |data|), i')
  {
    hide ChoiceAt, Bucket, Written, Lazily, Covered, Starts, Filled;
    ghost var starts := Starts(ts, |data|);
    var best, bestloc := Choose(table, data, quality, i, starts);
    ChosenLazily(data, quality, ts, best, bestloc);
    match bestloc
    case Some(from) =>
      ts' := WriteMatchAt(w, data, i, best, from, ts);
      i' := i + best;
    case None =>
      ts' := WriteLiteral(w, data, i, ts);
      i' := i + 1;
  }

  lemma ChosenLazily(data: seq<Byte>, quality: nat, ts: seq<Token>, best: nat, bestloc: Option<nat>)
    requires Lazily(data, quality, ts) && ChoiceAt(data, quality, Starts(ts, |data|), Covered(ts), best, bestloc)
    ensures bestloc.Some? ==> IsMatch(data, bestloc.value, Covered(ts), best)
    ensures var t := TokenAt(data, Covered(ts), best, bestloc);
      && Lazily(data, quality, ts + [t])
      && Covered(ts + [t]) == Covered(ts) + (if bestloc.Some? then best else 1)
      && Starts(ts + [t], |data|) == Starts(ts, |data|) + [Covered(ts)]
  {
    hide Lazily, LazyChoice;
    LazilyMore(data, quality, ts, TokenAt(data, Covered(ts), best, bestloc));
  }

  lemma NextIsDetermined(data: seq<Byte>, quality: nat, ts: seq<Token>, t: Token, t': Token)
    requires LazyNext(data, quality, ts, t) && LazyNext(data, quality, ts, t')
    ensures t == t'
  {
    hide ChoiceAt;
    var i, starts := Covered(ts), Starts(ts, |data|);
    if i + 3 < |data| {
      var best, loc :| ChoiceAt(data, quality, starts, i, best, loc) && t == TokenAt(data, i, best, loc);
      var best', loc' :| ChoiceAt(data, quality, starts, i, best', loc') && t' == TokenAt(data, i, best', loc');
      ChoiceIsDetermined(data, quality, starts, i, best, loc, best', loc');
    }
  }

  lemma {:induction false} LazyAt(data: seq<Byte>, quality: nat, ts: seq<Token>, n: nat)
    requires Lazily(data, quality, ts) && n < |ts|
    ensures LazyNext(data, quality, ts[..n], ts[n]) && Covered(ts[..n]) < Covered(ts)
    decreases |ts|
  {
    hide ChoiceAt;
    var k := |ts| - 1;
    LazySpan(data, quality, ts[..k], ts[k]);
    if n < k {
      LazyAt(data, quality, ts[..k], n);
      assert ts[..k][..n] == ts[..n];
    }
  }

  lemma {:induction false} LazyPositions(data: seq<Byte>, quality: nat, ts: seq<Token>)
    requires Lazily(data, quality, ts)
    ensures Covered(ts) >= |ts| && Positions(data, Starts(ts, |data|), Covered(ts))
    decreases |ts|
  {
    hide LazyNext, Bucket;
    if ts != [] {
      var k := |ts| - 1;
      LazyPositions(data, quality, ts[..k]);
      LazySpan(data, quality, ts[..k], ts[k]);
    }
  }

  lemma LazySpan(data: seq<Byte>, quality: nat, ts: seq<Token>, t: Token)
    requires LazyNext(data, quality, ts, t)
    ensures Covered(ts) < |data| && (t.Match? ==> 3 <= t.len)
  {
  }

  lemma {:induction false} SameBegin(data: seq<Byte>, quality: nat, ts: seq<Token>, ts': seq<Token>, n: nat)
    requires Lazily(data, quality, ts) && Lazily(data, quality, ts') && n <= |ts| && n <= |ts'|
    ensures ts[..n] == ts'[..n]
  {
    hide LazyNext, Lazily;
    if n > 0 {
      SameBegin(data, quality, ts, ts', n - 1);
      LazyAt(data, quality, ts, n - 1);
      LazyAt(data, quality, ts', n - 1);
      NextIsDetermined(data, quality, ts[..n - 1], ts[n - 1], ts'[n - 1]);
      assert ts[..n] == ts[..n - 1] + [ts[n - 1]] && ts'[..n] == ts'[..n - 1] + [ts'[n - 1]];
    }
  }

  /** Data and quality determine the tokens. */
  lemma TokensAreDetermined(data: seq<Byte>, quality: nat, ts: seq<Token>, ts': seq<Token>)
    requires Lazily(data, quality, ts) && Lazily(data, quality, ts') && Covered(ts) == Covered(ts')
    ensures ts == ts'
  {
    hide LazyNext, Lazily;
    var n := if |ts| < |ts'| then |ts| else |ts'|;
    SameBegin(data, quality, ts, ts', n);
    assert ts[..|ts|] == ts && ts'[..|ts'|] == ts';
    if n < |ts| { LazyAt(data, quality, ts, n); }
    if n < |ts'| { LazyAt(data, quality, ts', n); }
  }

  /** The whole data as one block, every token chosen lazily. */
  method WriteTokens(w: Writer, data: seq<Byte>, quality: nat) returns (ghost ts: seq<Token>)
    requires w.Valid() && w.Emitted() == Prelude() && 1 <= quality
    modifies w
    ensures Written(w, data, |data|, ts) && Lazily(data, quality, ts) && Covered(ts) == |data|
  {
    hide Bucket, ChoiceAt, SymbolBits, BytesBits, BitsOf;
    ts := [];
    var table := new Hlist[BUCKETS](_ => Hlist([], 0));
    var i := 0;
    while i < |data| - 3
      invariant Written(w, data, i, ts) && Lazily(data, quality, ts) && i == Covered(ts) && fresh(table)
      invariant TableOk(table, data, quality, Starts(ts, |data|)) && Positions(data, Starts(ts, |data|), i)
      decreases |data| - i
    {
      i, ts := WriteNext(w, table, data, quality, i, ts);
    }
    while i < |data|
      invariant Written(w, data, i, ts) && Lazily(data, quality, ts) && i == Covered(ts) && |data| <= i + 3
    {
      LazilyMore(data, quality, ts, Literal(data[i]));
      ts := WriteLiteral(w, data, i, ts);
      i := i + 1;
    }
  }

  /** What a fixed-Huffman stream looks like, short of the checksum. */
  ghost predicate FixedStream(out: seq<Byte>, data: seq<Byte>, ts: seq<Token>, zeros: Bits)
  {
    && AllAllowed([], ts) && Expand([], ts) == data
    && BytesBits(out) == Prelude() + TokensBits([], ts) + SymbolBits(256) + zeros
    && |zeros| < 8 && forall i :: 0 <= i < |zeros| ==> !zeros[i]
  }

  /** Nine bits a byte at most, and what stands before and after them. */
  lemma FixedSize(out: seq<Byte>, data: seq<Byte>, ts: seq<Token>, zeros: Bits)
    requires FixedStream(out, data, ts, zeros)
    ensures 8 * |out| <= 9 * |data| + 33
  {
    hide TokensBits, SymbolBits, BytesBits, BitsOf;
    TokensCost([], ts);
  }

  /** One block with the tokens chosen lazily. The capacity is that of the buffer, which is kept. */
  method CompressFixed(data: seq<Byte>, quality: nat)
      returns (out: seq<Byte>, capacity: nat, ghost ts: seq<Token>, ghost zeros: Bits)
    requires 1 <= quality
    ensures FixedStream(out, data, ts, zeros) && Lazily(data, quality, ts) && Covered(ts) == |data|
    ensures exists tokens, padding :: FixedStream(out, data, tokens, padding) && Lazily(data, quality, tokens)
    ensures capacity == Capacity(|out|)
  {
    hide Prelude, TokensBits, SymbolBits, BytesBits, Lazily, Capacity;
    var w := Begin();
    ts := WriteTokens(w, data, quality);
    w.Huff(256);
    zeros := w.Pad();
    out, capacity := w.out, w.capacity;
    assert BitsOf(w.bitBuf, 0) == [];
    assert BytesBits(out) + [] == BytesBits(out);
    assert data[..|data|] == data;
  }

  // ----- stored blocks -----

  const MAX_STORED: nat := 32767

  function StoredLength(data: seq<Byte>, j: nat): (len: nat)
    requires j < |data|
    ensures 1 <= len <= MAX_STORED && j + len <= |data|
  {
    if |data| - j > MAX_STORED then MAX_STORED else |data| - j
  }

  /** One stored block: BFINAL and BTYPE in a byte of their own, the length, its complement, and
      the bytes. */
  function StoredChunk(data: seq<Byte>, j: nat): seq<Byte>
    requires j < |data|
  {
    var len := StoredLength(data, j);
    [if |data| - j == len then 1 else 0, len % 256, len / 256, 255 - len % 256, 255 - len / 256]
      + data[j..j + len]
  }

  function StoredFrom(data: seq<Byte>, j: nat): seq<Byte>
    requires j <= |data|
    decreases |data| - j
  {
    if j == |data| then [] else StoredChunk(data, j) + StoredFrom(data, j + StoredLength(data, j))
  }

  /** stbiw__sbpush */
  method Push(out: seq<Byte>, capacity: nat, b: Byte) returns (out': seq<Byte>, capacity': nat)
    ensures out' == out + [b] && capacity' == Grown(capacity, |out|)
  {
    capacity' := Grown(capacity, |out|);
    out' := out + [b];
  }

  /** The five bytes before a stored block; there is room for them. */
  method PushStoredHeader(out: seq<Byte>, capacity: nat, blocklen: nat, last: bool) returns (out': seq<Byte>)
    requires blocklen <= MAX_STORED && |out| + 5 < capacity
    ensures out' == out
      + [if last then 1 else 0, blocklen % 256, blocklen / 256, 255 - blocklen % 256, 255 - blocklen / 256]
  {
    var room;
    out', room := Push(out, capacity, if last then 1 else 0);
    out', room := Push(out', room, blocklen % 256);
    out', room := Push(out', room, blocklen / 256);
    out', room := Push(out', room, 255 - blocklen % 256);
    out', room := Push(out', room, 255 - blocklen / 256);
    assert room == capacity;
  }

  /** The fallback: the two bytes of the header stay, stored blocks follow. They are copied into the
      buffer as it is, which is large enough. */
  method StoreBlocks(header: seq<Byte>, capacity: nat, data: seq<Byte>) returns (out: seq<Byte>)
    requires |header| + |StoredFrom(data, 0)| < capacity
    ensures out == header + StoredFrom(data, 0)
  {
    out := header;
    var j := 0;
    while j < |data|
      invariant j <= |data| && out + StoredFrom(data, j) == header + StoredFrom(data, 0)
    {
      var blocklen := |data| - j;
      if blocklen > 32767 { blocklen := 32767; }
      ghost var before := out;
      assert StoredFrom(data, j) == StoredChunk(data, j) + StoredFrom(data, j + blocklen);
      assert |out + StoredFrom(data, j)| < capacity;
      out := PushStoredHeader(out, capacity, blocklen, |data| - j == blocklen);
      assert |out| + blocklen <= capacity;
      out := out + data[j..j + blocklen];
      assert out == before + StoredChunk(data, j);
      Associate(before, StoredChunk(data, j), StoredFrom(data, j + blocklen));
      j := j + blocklen;
    }
  }

  // ----- reading stored blocks back -----

  /** The header of a stored block, read from whole bytes. */
  lemma HeaderOfBytes(a: Byte, b: Byte, c: Byte, d: Byte, more: seq<Byte>)
    ensures HeaderBytes(BytesBits([a, b, c, d] + more), 4) == [a, b, c, d]
    ensures Skip(BytesBits([a, b, c, d] + more), 4) == BytesBits(more)
  {
    hide BytesBits, Ahead, Beyond;
    var s0 := [a, b, c, d] + more;
    var s1, s2, s3 := s0[1..], s0[2..], s0[3..];
    ByteAhead(s0);
    ByteAhead(s1);
    ByteAhead(s2);
    ByteAhead(s3);
    assert s1[1..] == s2 && s2[1..] == s3 && s3[1..] == more;
    var bits := BytesBits(s0);
    assert Skip(bits, 0) == bits;
    assert Skip(bits, 1) == BytesBits(s1);
    assert Skip(bits, 2) == BytesBits(s2);
    assert Skip(bits, 3) == BytesBits(s3);
    assert HeaderBytes(bits, 0) == [];
    assert HeaderBytes(bits, 1) == [a];
    assert HeaderBytes(bits, 2) == [a, b];
    assert HeaderBytes(bits, 3) == [a, b, c];
  }

  lemma ByteAhead(bytes: seq<Byte>)
    requires bytes != []
    ensures Ahead(BytesBits(bytes), 8) == bytes[0] && Beyond(BytesBits(bytes), 8) == BytesBits(bytes[1..])
  {
    var bits := BytesBits(bytes);
    assert bits[..8] == BitsOf(bytes[0], 8) && bits[8..] == BytesBits(bytes[1..]);
    ValueOfBits(bytes[0], 8);
    LowBound(bytes[0], 8);
    SmallPowers();
  }

  /** The first byte of a stored block: three bits of it count, five are skipped. */
  lemma FlagByte(flag: Byte, more: seq<Byte>)
    requires flag <= 1
    ensures var bits := BytesBits([flag] + more);
      && bits[0] == (flag == 1) && Ahead(Beyond(bits, 1), 2) == 0
      && var rest := Beyond(bits, 3); rest[|rest| % 8..] == BytesBits(more)
  {
    var bits := BytesBits([flag] + more);
    assert ([flag] + more)[1..] == more;
    var first := BitsOf(flag, 8);
    assert bits == first + BytesBits(more);
    assert first[0] == (flag == 1) && first[1..] == BitsOf(flag / 2, 7) && flag / 2 == 0;
    assert BitsOf(0, 7)[..2] == [false, false];
    assert bits[1..][..2] == [false, false];
    assert [false, false][1..] == [false] && [false][1..] == [] && ValueOf([false]) == 0;
    var rest := bits[3..];
    assert |rest| == 8 * |more| + 5 && |rest| % 8 == 5;
    assert rest[5..] == BytesBits(more);
  }

  /** Length, complement and bytes of a stored block. */
  lemma StoredBodyReadBack(body: seq<Byte>, more: seq<Byte>, out: seq<Byte>, room: nat)
    requires |body| <= MAX_STORED && |out| + |body| <= room
    ensures var len := |body|;
      var header := [len % 256, len / 256, 255 - len % 256, 255 - len / 256];
      StoredBody(BytesBits(header + (body + more)), out, room) == Done(out + body, BytesBits(more), [])
  {
    hide BytesBits, HeaderBytes, Skip, BytesOf;
    var len := |body|;
    HeaderOfBytes(len % 256, len / 256, 255 - len % 256, 255 - len / 256, body + more);
    BytesBitsJoin(body, more);
    BytesOfBytesBits(body, BytesBits(more));
    assert BytesBits(body + more)[8 * len..] == BytesBits(more);
  }

  lemma StoredBlockReadBack(data: seq<Byte>, j: nat, more: seq<Byte>, room: nat)
    requires j < |data| <= room
    ensures var len := StoredLength(data, j);
      var bits := BytesBits(StoredChunk(data, j) + more);
      && bits != [] && bits[0] == (j + len == |data|)
      && Yields(HeadedBlock(bits, data[..j], room), data[..j + len], BytesBits(more))
  {
    hide StoredBody, BytesBits, Ahead, Beyond;
    var len := StoredLength(data, j);
    var body := data[j..j + len];
    var flag: Byte := if |data| - j == len then 1 else 0;
    var header := [len % 256, len / 256, 255 - len % 256, 255 - len / 256];
    assert StoredChunk(data, j) + more == [flag] + (header + (body + more));
    FlagByte(flag, header + (body + more));
    StoredBodyReadBack(body, more, data[..j], room);
    assert data[..j] + body == data[..j + len];
  }

  lemma {:induction false} StoredReadBack(data: seq<Byte>, j: nat, more: seq<Byte>, room: nat)
    requires j < |data| <= room
    ensures Yields(Inflate(BytesBits(StoredFrom(data, j) + more), data[..j], room), data, BytesBits(more))
    decreases |data| - j
  {
    hide HeadedBlock;
    var len := StoredLength(data, j);
    var rest := StoredFrom(data, j + len) + more;
    assert StoredFrom(data, j) + more == StoredChunk(data, j) + rest;
    StoredBlockReadBack(data, j, rest, room);
    if j + len < |data| {
      StoredReadBack(data, j + len, more, room);
    } else {
      assert rest == more && data[..j + len] == data;
    }
  }
}
