// The DEFLATE format of RFC 1951 as a meaning for bit sequences: what a decoder makes of a
// stream, up to the point where it would run out of bits.
module Deflate {
  import opened Base
  import opened Binary
  import opened Canonical

  type Bits = seq<bool>

  // ----- bytes and bits -----

  /** Bytes in order, each from its least significant bit on. */
  function BytesBits(bytes: seq<Byte>): (bits: Bits)
    ensures |bits| == 8 * |bytes|
  {
    if bytes == [] then [] else BitsOf(bytes[0], 8) + BytesBits(bytes[1..])
  }

  lemma {:induction false} BytesBitsJoin(a: seq<Byte>, b: seq<Byte>)
    ensures BytesBits(a + b) == BytesBits(a) + BytesBits(b)
    decreases |a|
  {
    if a == [] {
      assert a + b == b;
    } else {
      assert (a + b)[1..] == a[1..] + b;
      BytesBitsJoin(a[1..], b);
    }
  }

  /** The first n whole bytes of the bits. */
  function BytesOf(bits: Bits, n: nat): (bytes: seq<Byte>)
    requires 8 * n <= |bits|
    ensures |bytes| == n
  {
    if n == 0 then []
    else
      BitsOfValue(bits[..8]);
      assert Pow2(4) == 16 && Pow2(8) == 256;
      [ValueOf(bits[..8])] + BytesOf(bits[8..], n - 1)
  }

  lemma {:induction false} BytesOfBytesBits(bytes: seq<Byte>, rest: Bits)
    ensures BytesOf(BytesBits(bytes) + rest, |bytes|) == bytes
    decreases |bytes|
  {
    var bits := BytesBits(bytes) + rest;
    if bytes != [] {
      var first := BitsOf(bytes[0], 8);
      assert bits[..8] == first && bits[8..] == BytesBits(bytes[1..]) + rest;
      BytesOfBytesBits(bytes[1..], rest);
      ValueOfBits(bytes[0], 8);
      assert Pow2(4) == 16 && Pow2(8) == 256;
      LowBound(bytes[0], 8);
    }
  }

  // ----- lengths and distances, section 3.2.5 -----

  const LENGTH_BASE: seq<nat> := [
    3, 4, 5, 6, 7, 8, 9, 10, 11, 13, 15, 17, 19, 23, 27, 31, 35, 43, 51, 59,
    67, 83, 99, 115, 131, 163, 195, 227, 258, 0, 0]

  const LENGTH_EXTRA: seq<nat> := [
    0, 0, 0, 0, 0, 0, 0, 0, 1, 1, 1, 1, 2, 2, 2, 2, 3, 3, 3, 3, 4, 4, 4, 4, 5, 5, 5, 5, 0, 0, 0]

  const DIST_BASE: seq<nat> := [
    1, 2, 3, 4, 5, 7, 9, 13, 17, 25, 33, 49, 65, 97, 129, 193,
    257, 385, 513, 769, 1025, 1537, 2049, 3073, 4097, 6145, 8193, 12289, 16385, 24577, 0, 0]

  const DIST_EXTRA: seq<nat> := [
    0, 0, 0, 0, 1, 1, 2, 2, 3, 3, 4, 4, 5, 5, 6, 6, 7, 7, 8, 8, 9, 9, 10, 10, 11, 11, 12, 12, 13, 13]

  function LengthBase(z: nat): (base: nat)
    requires z < 29
  {
    LENGTH_BASE[z]
  }

  function LengthExtra(z: nat): (bits: nat)
    requires z < 29
  {
    LENGTH_EXTRA[z]
  }

  function DistBase(d: nat): (base: nat)
    requires d < 30
  {
    DIST_BASE[d]
  }

  function DistExtra(d: nat): (bits: nat)
    requires d < 30
  {
    DIST_EXTRA[d]
  }

  /** The lengths: each range follows on the one before it, and the longest length has a symbol of
      its own. */
  lemma LengthLaw(z: nat)
    requires z < 29
    ensures LengthBase(0) == 3 && LengthBase(28) == 258
    ensures z < 27 ==> LengthBase(z + 1) == LengthBase(z) + Pow2(LengthExtra(z))
  {
    hide Pow2;
    SmallPowers();
  }

  /** Four ranges to each number of extra bits, from one on. */
  lemma LengthExtraLaw(z: nat)
    requires z < 29
    ensures LengthExtra(z) == if z < 8 || z == 28 then 0 else (z - 4) / 4
  {
  }

  /** The distances: the same with two ranges to each number. */
  lemma DistanceLaw(d: nat)
    requires d < 30
    ensures DistBase(0) == 1
    ensures d < 29 ==> DistBase(d + 1) == DistBase(d) + Pow2(DistExtra(d))
  {
    hide Pow2;
    SmallPowers();
  }

  lemma DistanceExtraLaw(d: nat)
    requires d < 30
    ensures DistExtra(d) == if d < 4 then 0 else (d - 2) / 2
  {
  }

  lemma SmallPowers()
    ensures Pow2(0) == 1 && Pow2(1) == 2 && Pow2(2) == 4 && Pow2(3) == 8 && Pow2(4) == 16 && Pow2(5) == 32
    ensures Pow2(6) == 64 && Pow2(7) == 128 && Pow2(8) == 256 && Pow2(9) == 512 && Pow2(10) == 1024
    ensures Pow2(11) == 2048 && Pow2(12) == 4096 && Pow2(13) == 8192
  {
  }

  lemma LengthTable(z: nat)
    requires z < 29
    ensures LengthBase(z) >= 3 && LengthExtra(z) <= 5
  {
  }

  lemma DistanceTable(d: nat)
    requires d < 30
    ensures DistBase(d) >= 1 && DistExtra(d) <= 13
  {
  }

  // ----- the fixed code, section 3.2.6 -----

  function FixedLength(i: nat): (s: nat)
    ensures 1 <= s <= MAX_BITS
  {
    if i <= 143 then 8 else if i <= 255 then 9 else if i <= 279 then 7 else 8
  }

  const SYMBOLS: nat := 288
  const DISTANCES: nat := 32

  function FixedLengths(): (l: seq<nat>)
    ensures |l| == SYMBOLS && Lengths(l)
  {
    seq(SYMBOLS, i requires 0 <= i < SYMBOLS => FixedLength(i))
  }

  function FixedDistances(): (l: seq<nat>)
    ensures |l| == DISTANCES && Lengths(l)
  {
    seq(DISTANCES, i => 5)
  }

  // ----- reading; where there are too few bits, zeros are read -----

  /** The symbol whose code the next bits start with. */
  ghost function MatchOf(l: seq<nat>, w: nat): (m: Option<nat>)
    ensures m.Some? ==> Matches(l, m.value, w)
    ensures m.None? ==> forall i: nat :: !Matches(l, i, w)
  {
    if i: nat :| Matches(l, i, w) then Some(i) else None
  }

  /** What n bits read from here amount to. */
  function Ahead(left: Bits, n: nat): nat
  {
    ValueOf(if n <= |left| then left[..n] else left)
  }

  function Beyond(left: Bits, n: nat): (rest: Bits)
    ensures |rest| == if n <= |left| then |left| - n else 0
  {
    if n <= |left| then left[n..] else []
  }

  lemma AheadBound(left: Bits)
    ensures Ahead(left, 8) < 256
  {
    BitsOfValue(if 8 <= |left| then left[..8] else left);
    Pow2Grows(if 8 <= |left| then 8 else |left|, 8);
    assert Pow2(4) == 16 && Pow2(8) == 256;
  }

  /** What was read, and how many bits it took: a code, a number, the end of a Huffman block, or a
      stored block. */
  datatype Item = Symbol(n: nat) | Number(n: nat) | Finish | Stored(n: nat)

  function Size(item: Item): nat
  {
    if item.Finish? then 0 else item.n
  }

  /** All bits that the items took, those behind the end of the stream included. */
  function Needs(items: seq<Item>): nat
  {
    if items == [] then 0 else Size(items[0]) + Needs(items[1..])
  }

  lemma {:induction false} NeedsJoin(a: seq<Item>, b: seq<Item>)
    ensures Needs(a + b) == Needs(a) + Needs(b)
    decreases |a|
  {
    if a == [] {
      assert a + b == b;
    } else {
      assert (a + b)[1..] == a[1..] + b;
      NeedsJoin(a[1..], b);
    }
  }

  /** Codes and numbers are short, and a stored block has a header of four bytes. */
  predicate Proper(items: seq<Item>)
  {
    forall k :: 0 <= k < |items| ==>
      match items[k]
      case Symbol(n) => n <= MAX_BITS
      case Number(n) => n <= MAX_BITS
      case Finish => true
      case Stored(n) => 32 <= n
  }

  /** How many bits are left behind the items. */
  function LeftBehind(bits: Bits, items: seq<Item>): nat
  {
    if Needs(items) <= |bits| then |bits| - Needs(items) else 0
  }

  datatype Read = Got(value: nat, rest: Bits, item: Item) | Wrong

  /** One symbol; decoders look sixteen bits ahead. */
  ghost function ReadSymbol(l: seq<nat>, bits: Bits): (r: Read)
    requires Lengths(l)
    ensures r.Got? ==> r.value < |l| && Matches(l, r.value, Ahead(bits, 16))
    ensures r.Got? ==> r.item == Symbol(l[r.value]) && 1 <= l[r.value] && r.rest == Beyond(bits, l[r.value])
    ensures r.Wrong? ==> forall i: nat :: !Matches(l, i, Ahead(bits, 16))
  {
    match MatchOf(l, Ahead(bits, 16))
    case None => Wrong
    case Some(i) => Got(i, Beyond(bits, l[i]), Symbol(l[i]))
  }

  // ----- copies -----

  /** len bytes from dist bytes back, one by one: the source may overlap what is written. */
  function Copy(out: seq<Byte>, len: nat, dist: nat): (r: seq<Byte>)
    requires 1 <= dist <= |out|
    ensures |r| == |out| + len
    decreases len
  {
    if len == 0 then out else Copy(out + [out[|out| - dist]], len - 1, dist)
  }

  /** What was there stays, and every byte behind it is the one dist bytes before it. */
  lemma {:induction false} CopyAt(out: seq<Byte>, len: nat, dist: nat, k: nat)
    requires 1 <= dist <= |out| && k < |out| + len
    ensures Copy(out, len, dist)[k] == if k < |out| then out[k] else Copy(out, len, dist)[k - dist]
    decreases len
  {
    if len > 0 {
      var more := out + [out[|out| - dist]];
      CopyAt(more, len - 1, dist, k);
      if k >= dist { CopyAt(more, len - 1, dist, k - dist); }
    }
  }

  /** The bits of a stream: bit k is bit k % 8 of byte k / 8, counted from the least significant. */
  lemma {:induction false} BitAt(bytes: seq<Byte>, k: nat)
    requires k < 8 * |bytes|
    ensures BytesBits(bytes)[k] == (Shr(bytes[k / 8], k % 8) % 2 == 1)
    decreases |bytes|
  {
    if k < 8 {
      BitOfNumber(bytes[0], 8, k);
    } else {
      BitAt(bytes[1..], k - 8);
      assert (k - 8) / 8 == k / 8 - 1 && (k - 8) % 8 == k % 8;
    }
  }

  lemma {:induction false} BitOfNumber(x: nat, n: nat, k: nat)
    requires k < n
    ensures BitsOf(x, n)[k] == (Shr(x, k) % 2 == 1)
  {
    if k > 0 { BitOfNumber(x / 2, n - 1, k - 1); }
  }

  // ----- blocks -----

  /** What comes of a stream. The trace tells what was read; the stream is whole if it has all the
      bits for it. */
  datatype Verdict =
    | Done(out: seq<Byte>, rest: Bits, trace: seq<Item>)
    | Corrupt
    | Full                          // the output buffer cannot grow that far
    | Dynamic(trace: seq<Item>)     // a block with its own code lengths, which is not modelled here

  datatype Step = Next(out: seq<Byte>, rest: Bits, items: seq<Item>) | Stop(verdict: Verdict)

  /** The output of a step that goes on has grown, within the room. */
  predicate Grows(step: Step, out: seq<Byte>, room: nat)
  {
    if step.Next? then |out| < |step.out| <= room else step.verdict == Corrupt || step.verdict == Full
  }

  /** The items were read before what the verdict is about. */
  function Prefixed(items: seq<Item>, v: Verdict): (v': Verdict)
    ensures v.Done? ==> v'.Done? && v'.out == v.out && v'.rest == v.rest
    ensures v == Corrupt || v == Full ==> v' == v
    ensures v.Dynamic? ==> v'.Dynamic?
  {
    match v
    case Done(out, rest, trace) => Done(out, rest, items + trace)
    case Dynamic(trace) => Dynamic(items + trace)
    case _ => v
  }

  /** The same with one more item read before. */
  function Behind(item: Item, step: Step): (step': Step)
    ensures step.Stop? ==> step'.Stop? && step'.verdict == Prefixed([item], step.verdict)
    ensures step.Next? ==> step'.Next? && step'.out == step.out
  {
    match step
    case Next(out, rest, items) => Next(out, rest, [item] + items)
    case Stop(v) => Stop(Prefixed([item], v))
  }

  /** The length symbol z was read: the rest of the match. */
  ghost function ReadMatch(dl: seq<nat>, z: nat, bits: Bits, out: seq<Byte>, room: nat): (step: Step)
    requires Lengths(dl) && z < 286 - 257
    ensures Grows(step, out, room)
  {
    LengthTable(z);
    ReadLength(dl, LengthBase(z), LengthExtra(z), bits, out, room)
  }

  ghost function ReadLength(dl: seq<nat>, base: nat, extra: nat, bits: Bits, out: seq<Byte>, room: nat): (step: Step)
    requires Lengths(dl) && 1 <= base
    ensures Grows(step, out, room)
  {
    Behind(Number(extra), ReadTail(dl, base + Ahead(bits, extra), Beyond(bits, extra), out, room))
  }

  /** The length is known: the distance, and the copy. */
  ghost function ReadTail(dl: seq<nat>, len: nat, bits: Bits, out: seq<Byte>, room: nat): (step: Step)
    requires Lengths(dl) && 1 <= len
    ensures Grows(step, out, room)
  {
    match ReadSymbol(dl, bits)
    case Wrong => Stop(Corrupt)
    case Got(d, rest, item) => Behind(item, ReadDistance(len, d, rest, out, room))
  }

  function ReadDistance(len: nat, d: nat, bits: Bits, out: seq<Byte>, room: nat): (step: Step)
    requires 1 <= len
    ensures Grows(step, out, room)
  {
    if d >= 30 then Stop(Corrupt)
    else
      DistanceTable(d);
      var dist := DistBase(d) + Ahead(bits, DistExtra(d));
      if |out| < dist then Stop(Corrupt)
      else if |out| + len > room then Stop(Full)
      else Next(Copy(out, len, dist), Beyond(bits, DistExtra(d)), [Number(DistExtra(d))])
  }

  /** The symbol z was read: a literal, the end of the block, or the rest of a match. */
  ghost function SymbolStep(dl: seq<nat>, z: nat, bits: Bits, out: seq<Byte>, room: nat): (step: Step)
    requires Lengths(dl)
    ensures Grows(step, out, room) || (step.Stop? && step.verdict.Done?)
  {
    if z < 256 then (if |out| + 1 > room then Stop(Full) else Next(out + [z], bits, []))
    else if z == 256 then Stop(Done(out, bits, [Finish]))
    else if z >= 286 then Stop(Corrupt)
    else ReadMatch(dl, z - 257, bits, out, room)
  }

  /** One literal, one match, or the end of the block. */
  ghost function BlockStep(ll: seq<nat>, dl: seq<nat>, bits: Bits, out: seq<Byte>, room: nat): (step: Step)
    requires Lengths(ll) && Lengths(dl)
    ensures Grows(step, out, room) || (step.Stop? && step.verdict.Done?)
  {
    match ReadSymbol(ll, bits)
    case Wrong => Stop(Corrupt)
    case Got(z, rest, item) => Behind(item, SymbolStep(dl, z, rest, out, room))
  }

  ghost function HuffmanBlock(ll: seq<nat>, dl: seq<nat>, bits: Bits, out: seq<Byte>, room: nat): (v: Verdict)
    requires Lengths(ll) && Lengths(dl)
    ensures !v.Dynamic?
    decreases room - |out|
  {
    match BlockStep(ll, dl, bits, out, room)
    case Stop(v) => v
    case Next(out', rest, items) => Prefixed(items, HuffmanBlock(ll, dl, rest, out', room))
  }

  /** A stored block starts at the next byte. */
  function StoredBlock(bits: Bits, out: seq<Byte>, room: nat): (v: Verdict)
    ensures v.Done? ==> |v.rest| <= |bits| && v.trace == [Stored(|bits| - |v.rest|)]
    ensures !v.Dynamic?
  {
    var v := StoredBody(bits[|bits| % 8..], out, room);
    if v.Done? then Done(v.out, v.rest, [Stored(|bits| - |v.rest|)]) else v
  }

  /** Its length, the complement, and the bytes. */
  function StoredBody(bits: Bits, out: seq<Byte>, room: nat): (v: Verdict)
    ensures v.Done? ==> |v.rest| <= |bits|
    ensures !v.Dynamic?
  {
    var header, rest := HeaderBytes(bits, 4), Skip(bits, 4);
    var len: nat := header[1] as int * 256 + header[0];
    var nlen: nat := header[3] as int * 256 + header[2];
    if nlen != 0xFFFF - len then Corrupt
    else if 8 * len > |rest| then Corrupt
    else if |out| + len > room then Full
    else Done(out + BytesOf(rest, len), rest[8 * len..], [])
  }

  /** The next n bytes; past the end they are zero. */
  function HeaderBytes(bits: Bits, n: nat): (header: seq<Byte>)
    ensures |header| == n
  {
    if n == 0 then []
    else
      AheadBound(Skip(bits, n - 1));
      HeaderBytes(bits, n - 1) + [Ahead(Skip(bits, n - 1), 8)]
  }

  function Skip(bits: Bits, n: nat): (rest: Bits)
    ensures |rest| <= |bits|
  {
    if n == 0 then bits else Beyond(Skip(bits, n - 1), 8)
  }

  lemma {:induction false} HeaderOfNothing(n: nat)
    ensures Skip([], n) == [] && forall i :: 0 <= i < n ==> HeaderBytes([], n)[i] == 0
  {
    if n > 0 { HeaderOfNothing(n - 1); }
  }

  ghost function OneBlock(kind: nat, bits: Bits, out: seq<Byte>, room: nat): Verdict
  {
    if kind == 0 then StoredBlock(bits, out, room)
    else if kind == 1 then HuffmanBlock(FixedLengths(), FixedDistances(), bits, out, room)
    else if kind == 2 then Dynamic([])
    else Corrupt
  }

  /** The bits that say whether it is the last block, and of what kind. */
  const BLOCK_HEADER: seq<Item> := [Number(1), Number(2)]

  /** A block with the bits before it. */
  ghost function HeadedBlock(bits: Bits, out: seq<Byte>, room: nat): Verdict
  {
    Prefixed(BLOCK_HEADER, OneBlock(Ahead(Beyond(bits, 1), 2), Beyond(bits, 3), out, room))
  }

  /** Blocks up to and including the first one marked final. */
  ghost function Inflate(bits: Bits, out: seq<Byte>, room: nat): (v: Verdict)
    decreases |bits|
  {
    if bits == [] then Corrupt
    else
      var v := HeadedBlock(bits, out, room);
      BlockRest(bits, out, room);
      if v.Done? && !bits[0] then Prefixed(v.trace, Inflate(v.rest, v.out, room)) else v
  }

  /** The header of a zlib stream as the code tests it: the check bits, no preset dictionary, and
      the compression method. RFC 1950, section 2.2, also limits the window size, which these tests
      ignore. */
  predicate ZlibHeader(cmf: Byte, flg: Byte)
  {
    (cmf * 256 + flg) % 31 == 0 && flg / 32 % 2 == 0 && cmf % 16 == 8
  }

  /** For the usual first byte, deflate with the largest window, there are four headers without a preset
      dictionary, one for each level of compression. */
  lemma UsualHeaders(flg: Byte)
    ensures ZlibHeader(0x78, flg) <==> flg == 0x01 || flg == 0x5E || flg == 0x9C || flg == 0xDA
  {
  }

  ghost function InflateZlib(data: seq<Byte>, room: nat): Verdict
  {
    if |data| < 3 || !ZlibHeader(data[0], data[1]) then Corrupt
    else Inflate(BytesBits(data[2..]), [], room)
  }

  // ----- what a reading takes -----

  /** The items are proper and took the bits that are gone. */
  predicate Took(bits: Bits, items: seq<Item>, rest: Bits)
  {
    Proper(items) && |rest| == LeftBehind(bits, items)
  }

  lemma TookNothing(bits: Bits)
    ensures Took(bits, [], bits)
  {
  }

  lemma TookItem(bits: Bits, item: Item)
    requires Proper([item])
    ensures Took(bits, [item], Beyond(bits, Size(item)))
  {
    assert Needs([item]) == Size(item) + Needs([]);
  }

  lemma TookBoth(bits: Bits, a: seq<Item>, between: Bits, b: seq<Item>, rest: Bits)
    requires Took(bits, a, between) && Took(between, b, rest)
    ensures Took(bits, a + b, rest)
  {
    NeedsJoin(a, b);
  }

  lemma DistanceTook(len: nat, d: nat, bits: Bits, out: seq<Byte>, room: nat)
    requires 1 <= len
    ensures var step := ReadDistance(len, d, bits, out, room); step.Next? ==> Took(bits, step.items, step.rest)
  {
    if d < 30 {
      DistanceTable(d);
      TookItem(bits, Number(DistExtra(d)));
    }
  }

  lemma TailTook(dl: seq<nat>, len: nat, bits: Bits, out: seq<Byte>, room: nat)
    requires Lengths(dl) && 1 <= len
    ensures var step := ReadTail(dl, len, bits, out, room); step.Next? ==> Took(bits, step.items, step.rest)
  {
    hide ReadDistance, Took;
    match ReadSymbol(dl, bits)
    case Wrong =>
    case Got(d, rest, item) =>
      var step := ReadDistance(len, d, rest, out, room);
      DistanceTook(len, d, rest, out, room);
      TookItem(bits, item);
      if step.Next? { TookBoth(bits, [item], rest, step.items, step.rest); }
  }

  lemma MatchTook(dl: seq<nat>, z: nat, bits: Bits, out: seq<Byte>, room: nat)
    requires Lengths(dl) && z < 286 - 257
    ensures var step := ReadMatch(dl, z, bits, out, room); step.Next? ==> Took(bits, step.items, step.rest)
  {
    hide ReadTail, Took, LengthBase, LengthExtra;
    LengthTable(z);
    var item := Number(LengthExtra(z));
    var len, rest := LengthBase(z) + Ahead(bits, item.n), Beyond(bits, item.n);
    var step := ReadTail(dl, len, rest, out, room);
    TailTook(dl, len, rest, out, room);
    TookItem(bits, item);
    if step.Next? { TookBoth(bits, [item], rest, step.items, step.rest); }
  }

  lemma SymbolTook(dl: seq<nat>, z: nat, bits: Bits, out: seq<Byte>, room: nat)
    requires Lengths(dl)
    ensures var step := SymbolStep(dl, z, bits, out, room);
      && (step.Next? ==> Took(bits, step.items, step.rest))
      && (step.Stop? && step.verdict.Done? ==>
            step.verdict.trace == [Finish] && Took(bits, step.verdict.trace, step.verdict.rest))
  {
    hide ReadMatch, Took;
    TookNothing(bits);
    TookItem(bits, Finish);
    if 256 < z < 286 { MatchTook(dl, z - 257, bits, out, room); }
  }

  lemma StepTook(ll: seq<nat>, dl: seq<nat>, bits: Bits, out: seq<Byte>, room: nat)
    requires Lengths(ll) && Lengths(dl)
    ensures var step := BlockStep(ll, dl, bits, out, room);
      && (step.Next? ==> Took(bits, step.items, step.rest))
      && (step.Stop? && step.verdict.Done? ==>
            && Took(bits, step.verdict.trace, step.verdict.rest)
            && step.verdict.trace != [] && step.verdict.trace[|step.verdict.trace| - 1] == Finish)
  {
    hide SymbolStep, Took;
    match ReadSymbol(ll, bits)
    case Wrong =>
    case Got(z, rest, item) =>
      var step := SymbolStep(dl, z, rest, out, room);
      SymbolTook(dl, z, rest, out, room);
      TookItem(bits, item);
      if step.Next? { TookBoth(bits, [item], rest, step.items, step.rest); }
      if step.Stop? && step.verdict.Done? { TookBoth(bits, [item], rest, step.verdict.trace, step.verdict.rest); }
  }

  lemma {:induction false} HuffmanTook(ll: seq<nat>, dl: seq<nat>, bits: Bits, out: seq<Byte>, room: nat)
    requires Lengths(ll) && Lengths(dl)
    ensures var v := HuffmanBlock(ll, dl, bits, out, room);
      v.Done? ==> Took(bits, v.trace, v.rest) && v.trace != [] && v.trace[|v.trace| - 1] == Finish
    decreases room - |out|
  {
    hide Took;
    StepTook(ll, dl, bits, out, room);
    match BlockStep(ll, dl, bits, out, room)
    case Stop(_) =>
    case Next(out', rest, items) =>
      HuffmanTook(ll, dl, rest, out', room);
      var v := HuffmanBlock(ll, dl, rest, out', room);
      if v.Done? { TookBoth(bits, items, rest, v.trace, v.rest); }
  }

  /** A stored block needs its whole header: the last byte of one that is cut off would be zero, so
      that the length would be large, and nothing is left. */
  lemma StoredTook(bits: Bits, out: seq<Byte>, room: nat)
    ensures var v := StoredBlock(bits, out, room); v.Done? ==> 32 <= |bits| - |v.rest| && Took(bits, v.trace, v.rest)
  {
    var body := bits[|bits| % 8..];
    var v := StoredBody(body, out, room);
    HeaderAtEnd(body);
    if v.Done? { TookItem(bits, Stored(|bits| - |v.rest|)); }
  }

  lemma HeaderAtEnd(bits: Bits)
    ensures |Skip(bits, 4)| == if |bits| >= 32 then |bits| - 32 else 0
    ensures |bits| < 32 && |bits| % 8 == 0 ==> HeaderBytes(bits, 4)[3] == 0
  {
    assert |Skip(bits, 0)| == |bits|;
    assert |Skip(bits, 1)| == if |bits| >= 8 then |bits| - 8 else 0;
    assert |Skip(bits, 2)| == if |bits| >= 16 then |bits| - 16 else 0;
    assert |Skip(bits, 3)| == if |bits| >= 24 then |bits| - 24 else 0;
    if |bits| < 32 && |bits| % 8 == 0 { assert Skip(bits, 3) == []; }
  }

  lemma BlockTook(kind: nat, bits: Bits, out: seq<Byte>, room: nat)
    ensures var v := OneBlock(kind, bits, out, room);
      && (v.Done? ==> Took(bits, v.trace, v.rest))
      && (v.Dynamic? ==> v.trace == [])
  {
    StoredTook(bits, out, room);
    HuffmanTook(FixedLengths(), FixedDistances(), bits, out, room);
  }

  lemma HeadedTook(bits: Bits, out: seq<Byte>, room: nat)
    ensures var v := HeadedBlock(bits, out, room);
      && (v.Done? ==> Took(bits, v.trace, v.rest))
      && (v.Dynamic? ==> Proper(v.trace))
  {
    var kind, rest := Ahead(Beyond(bits, 1), 2), Beyond(bits, 3);
    var v := OneBlock(kind, rest, out, room);
    BlockTook(kind, rest, out, room);
    HeaderTook(bits);
    if v.Done? { TookBoth(bits, BLOCK_HEADER, rest, v.trace, v.rest); }
  }

  lemma HeaderTook(bits: Bits)
    ensures Took(bits, BLOCK_HEADER, Beyond(bits, 3))
  {
    assert BLOCK_HEADER[1..] == [Number(2)] && [Number(2)][1..] == [];
    assert Needs([Number(2)]) == 2 + Needs([]);
  }

  /** A block uses at least one bit, if there is one. */
  lemma BlockRest(bits: Bits, out: seq<Byte>, room: nat)
    requires bits != []
    ensures var v := HeadedBlock(bits, out, room); v.Done? ==> |v.rest| < |bits|
  {
    var kind, rest := Ahead(Beyond(bits, 1), 2), Beyond(bits, 3);
    BlockTook(kind, rest, out, room);
  }

  lemma {:induction false} InflateTook(bits: Bits, out: seq<Byte>, room: nat)
    ensures var v := Inflate(bits, out, room);
      && (v.Done? ==> Took(bits, v.trace, v.rest))
      && (v.Dynamic? ==> Proper(v.trace))
    decreases |bits|
  {
    hide HeadedBlock, Took;
    if bits != [] {
      var v := HeadedBlock(bits, out, room);
      HeadedTook(bits, out, room);
      BlockRest(bits, out, room);
      if v.Done? && !bits[0] {
        InflateTook(v.rest, v.out, room);
        var w := Inflate(v.rest, v.out, room);
        ProperJoin(bits, v.trace, v.rest, w);
        if w.Done? { TookBoth(bits, v.trace, v.rest, w.trace, w.rest); }
      }
    }
  }

  lemma ProperJoin(bits: Bits, items: seq<Item>, rest: Bits, w: Verdict)
    requires Took(bits, items, rest) && (w.Dynamic? ==> Proper(w.trace))
    ensures w.Dynamic? ==> Proper(Prefixed(items, w).trace)
  {
  }

  /** The outcome and what is left, whatever was read. */
  predicate Yields(v: Verdict, out: seq<Byte>, rest: Bits)
  {
    v.Done? && v.out == out && v.rest == rest
  }

  /** The stream has every bit that was read. */
  predicate Whole(v: Verdict, bits: Bits)
  {
    v.Done? && Needs(v.trace) <= |bits|
  }

  /** Where something is left over, nothing was missing. */
  lemma RestMeansWhole(bits: Bits, out: seq<Byte>, room: nat)
    ensures var v := Inflate(bits, out, room); v.Done? && v.rest != [] ==> Whole(v, bits)
  {
    InflateTook(bits, out, room);
  }
}
