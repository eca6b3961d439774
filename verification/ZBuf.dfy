// The zlib decoder of _3rd/stb/stb_image.h: a bit buffer over the input, two Huffman tables and
// an output that may grow. Blocks with their own code lengths are not decoded here.
module ZBuf {
  import opened Base
  import opened Binary
  import opened BitReverse
  import opened Canonical
  import opened Deflate
  import opened BitStream
  import opened Supply
  import H = ZHuffman
  import F = FixedCode

  const UINT_MAX: nat := 0xFFFF_FFFF

  datatype Status = Ok | Error | Unsupported

  /** How far doubling can take the size of the output buffer. */
  function RoomOf(limit: nat): (room: nat)
    requires 1 <= limit <= UINT_MAX
    ensures limit <= room <= UINT_MAX < 2 * room
    ensures exists k: nat :: room == Shl(limit, k)
    decreases UINT_MAX - limit
  {
    if limit > UINT_MAX / 2 then
      assert Shl(limit, 0) == limit;
      limit
    else
      assert exists k: nat :: RoomOf(2 * limit) == Shl(limit, k) by {
        var k: nat :| RoomOf(2 * limit) == Shl(2 * limit, k);
        ShlAgain(limit, 1, k);
        assert Shl(limit, 1) == 2 * limit;
      }
      RoomOf(2 * limit)
  }

  lemma RoomSteps(limit: nat)
    requires 1 <= limit <= UINT_MAX
    ensures RoomOf(limit) == if limit > UINT_MAX / 2 then limit else RoomOf(2 * limit)
  {
  }

  /** Where the blocks of so many bytes start: behind the two bytes of the header, if there is one. */
  function StartOf(bytes: nat, header: bool): Supply
  {
    Start(8 * if header && bytes >= 2 then bytes - 2 else bytes)
  }

  lemma {:induction false} ShlAtLeast(limit: nat, k: nat)
    requires 1 <= limit
    ensures Shl(limit, k) >= limit + k
  {
    if k > 0 { ShlAtLeast(limit, k - 1); }
  }

  /** Doubling ever reaches the size that is needed exactly if there is something to double, or
      nothing is needed: an output buffer that starts with size zero must not have to grow. */
  lemma DoublingEnds(limit: nat, needed: nat)
    ensures (exists k: nat :: Shl(limit, k) >= needed) <==> limit >= 1 || needed == 0
  {
    if limit >= 1 {
      ShlAtLeast(limit, needed);
    } else {
      forall k: nat ensures Shl(limit, k) == 0 { ShlOfZero(k); }
      assert Shl(limit, 0) == 0;
    }
  }

  class Decoder {
    const zbuffer: seq<Byte>
    var pos: nat
    var numBits: nat
    var hitZeofOnce: bool
    var codeBuffer: nat
    var zout: seq<Byte>
    var limit: nat                 // zout_end - zout_start
    const expandable: bool
    const zLength: H.Table
    const zDistance: H.Table
    ghost var left: Bits           // the bits of the input not yet used
    ghost var padding: nat         // zero bits supplied beyond them
    ghost var supply: Supply       // how far the buffer has reached

    constructor (data: seq<Byte>, size: nat, expandable: bool)
      requires size <= UINT_MAX && (expandable ==> 1 <= size)
      ensures Valid() && zbuffer == data && pos == 0 && numBits == 0 && zout == []
      ensures limit == size && this.expandable == expandable && !hitZeofOnce
      ensures supply == Start(8 * |data|) && left == BytesBits(data)
      ensures fresh(TableArrays())
    {
      zbuffer := data;
      pos, numBits, hitZeofOnce, codeBuffer := 0, 0, false, 0;
      zout, limit := [], size;
      this.expandable := expandable;
      zLength := new H.Table();
      zDistance := new H.Table();
      left, padding, supply := BytesBits(data), 0, Start(8 * |data|);
      new;
      assert zbuffer[0..] == zbuffer && left + Zeros(0) == left;
      assert BitsOf(0, 0) + BytesBits(zbuffer) == BytesBits(zbuffer);
    }

    ghost function TableArrays(): set<object>
    {
      {zLength.fast, zLength.firstCode, zLength.maxCode, zLength.firstSymbol, zLength.size, zLength.value,
       zDistance.fast, zDistance.firstCode, zDistance.maxCode, zDistance.firstSymbol, zDistance.size,
       zDistance.value}
    }

    ghost predicate TablesApart()
    {
      && zLength.Shape() && zDistance.Shape()
      && {zLength.fast, zLength.firstCode, zLength.maxCode, zLength.firstSymbol, zLength.size, zLength.value}
        !! {zDistance.fast, zDistance.firstCode, zDistance.maxCode, zDistance.firstSymbol, zDistance.size,
            zDistance.value}
    }

    ghost predicate Valid()
      reads this
    {
      && pos <= |zbuffer| && numBits <= 32
      && Streams(codeBuffer, numBits, zbuffer[pos..], left, padding)
      && Sound(supply) && Tracked()
      && limit <= UINT_MAX && (expandable ==> 1 <= limit) && |zout| <= limit
      && TablesApart()
    }

    /** The supply tells what is in the buffer, what is left, and whether the bytes have run out. */
    ghost predicate Tracked()
      reads this
    {
      && supply.granted == hitZeofOnce && Buffered(supply) == numBits
      && |left| == (if supply.pos <= supply.total then supply.total - supply.pos else 0)
      && (if pos < |zbuffer| then supply.loaded + 8 * (|zbuffer| - pos) == supply.total
          else supply.total <= supply.loaded)
    }

    function Room(): nat
      requires limit <= UINT_MAX && (expandable ==> 1 <= limit)
      reads this
    {
      if expandable then RoomOf(limit) else limit
    }

    // ----- bits -----

    predicate ZEof()
      reads this
    {
      pos >= |zbuffer|
    }

    method ZGet8() returns (b: Byte)
      requires pos <= |zbuffer|
      modifies this`pos
      ensures if old(pos) < |zbuffer| then b == zbuffer[old(pos)] && pos == old(pos) + 1
              else b == 0 && pos == old(pos)
    {
      if ZEof() {
        b := 0;
      } else {
        b := zbuffer[pos];
        pos := pos + 1;
      }
    }

    /** codeBuffer |= zget8 << numBits */
    method FillByte()
      requires Valid() && numBits <= 24
      modifies this`pos, this`codeBuffer, this`numBits, this`padding, this`supply
      ensures Valid() && numBits == old(numBits) + 8
      ensures supply == old(supply).(loaded := old(supply).loaded + 8)
    {
      hide Streams, BytesBits, BitsOf, BitOr, Shl, Pow2;
      if pos < |zbuffer| {
        FillReal(codeBuffer, numBits, zbuffer[pos..], left, padding);
        assert zbuffer[pos..][1..] == zbuffer[pos + 1..];
      } else {
        assert zbuffer[pos..] == [];
        FillZeros(codeBuffer, numBits, left, padding, 8);
        padding := padding + 8;
        OrZero(codeBuffer, numBits);
      }
      var b := ZGet8();
      codeBuffer := BitOr(codeBuffer, Shl(b, numBits));
      numBits := numBits + 8;
      supply := supply.(loaded := supply.loaded + 8);
    }

    /** stbi__fill_bits; the buffer never holds more than numBits bits. */
    method FillBits()
      requires Valid() && numBits <= 24
      modifies this`pos, this`codeBuffer, this`numBits, this`padding, this`supply
      ensures Valid() && 24 < numBits && supply == Fill(old(supply))
    {
      while true
        invariant Valid() && numBits <= 24
        invariant supply == old(supply).(loaded := supply.loaded)
        invariant supply.loaded + Load(numBits) == old(supply.loaded + Load(numBits))
        decreases 24 - numBits
      {
        if codeBuffer >= Pow2(numBits) {
          assert false;
        }
        FillByte();
        if numBits > 24 { break; }
      }
    }

    /** The low n bits leave the buffer. */
    method Take(n: nat) returns (k: nat)
      requires Valid() && n <= numBits
      modifies this`codeBuffer, this`numBits, this`padding, this`left, this`supply
      ensures Valid() && k == Ahead(old(left), n) && left == Beyond(old(left), n)
      ensures numBits == old(numBits) - n && supply == Advance(old(supply), n)
    {
      hide Streams, BitsOf, BytesBits, Pow2;
      k := Low(codeBuffer, n);
      padding := TakeBits(codeBuffer, numBits, zbuffer[pos..], left, padding, n);
      left := Beyond(left, n);
      codeBuffer := Shr(codeBuffer, n);
      numBits := numBits - n;
      supply := Advance(supply, n);
    }

    /** stbi__zreceive: a number of n bits, with zeros for bits past the end. */
    method ZReceive(n: nat) returns (k: nat)
      requires Valid() && n <= 16
      modifies this`pos, this`codeBuffer, this`numBits, this`padding, this`left, this`supply
      ensures Valid() && k == Ahead(old(left), n) && left == Beyond(old(left), n)
      ensures Pass(old(supply), Number(n)) == Some(supply)
    {
      hide Streams, Ahead, Beyond, Load;
      if numBits < n {
        FillBits();
      }
      k := Take(n);
    }

    // ----- symbols -----

    /** Sixteen bits to look at, or the end of the input was met a second time. */
    method LookAhead() returns (ok: bool)
      requires Valid()
      modifies this`pos, this`codeBuffer, this`numBits, this`padding, this`hitZeofOnce, this`supply
      ensures Valid() && ok == !Overdrawn(old(supply))
      ensures ok ==> 16 <= numBits && supply == Ready(old(supply))
    {
      hide Load;
      ok := true;
      if numBits < 16 {
        if ZEof() {
          if !hitZeofOnce {
            FillZeros(codeBuffer, numBits, left, padding, 16);
            hitZeofOnce := true;
            numBits := numBits + 16;
            padding := padding + 16;
            supply := supply.(granted := true);
          } else {
            ok := false;
          }
        } else {
          FillBits();
        }
      }
    }

    /** What a decoded symbol is: the one that the next sixteen bits match, zeros standing in for
        those that are missing, and its bits used up; or -1 if there is none. */
    ghost predicate Decoded(l: seq<nat>, before: Bits, s: Supply, r: int)
      requires Lengths(l)
      reads this`left, this`supply
    {
      match ReadSymbol(l, before)
      case Got(i, rest, item) => r == i && left == rest && supply == Advance(s, item.n)
      case Wrong => r == -1 && left == before && supply == s
    }

    /** The length of the code: the first limit beyond the reversed window. */
    method FirstLimit(z: H.Table, k: nat, ghost l: seq<nat>) returns (s: nat)
      requires z.Built(l) && Top(l, H.FAST_BITS) <= k < 0x10000
      ensures H.FAST_BITS < s <= 16 && Top(l, s - 1) <= k < z.maxCode[s]
    {
      s := H.FAST_BITS + 1;
      while k >= z.maxCode[s]
        invariant H.FAST_BITS < s <= 16 && Top(l, s - 1) <= k
        decreases 16 - s
      {
        s := s + 1;
      }
    }

    /** stbi__zhuffman_decode_slowpath */
    method DecodeSlowPath(z: H.Table, ghost l: seq<nat>) returns (r: int)
      requires Valid() && z.Built(l) && 16 <= numBits
      requires Low(codeBuffer, H.FAST_BITS) < H.FAST_SIZE && z.fast[Low(codeBuffer, H.FAST_BITS)] == 0
      modifies this`codeBuffer, this`numBits, this`padding, this`left, this`supply
      ensures Valid() && Decoded(l, old(left), old(supply), r)
    {
      hide Streams;
      var k := BitReverseN(codeBuffer, 16);
      BitReverseNReverses(codeBuffer, 16);
      z.BeyondShort(l, codeBuffer);
      WindowBound(codeBuffer);
      var s := FirstLimit(z, k, l);
      if s >= 16 {
        NothingMatches(l);
        return -1;
      }
      z.SlowTells(l, codeBuffer, s);
      var b := Shr(k, 16 - s) - z.firstCode[s] + z.firstSymbol[s];
      if b >= H.SYMBOLS {
        assert false;
      }
      if z.size[b] != s {
        assert false;
      }
      r := z.value[b];
      UseCode(s, l, r);
    }

    /** code_buffer >>= s; num_bits -= s */
    method UseCode(s: nat, ghost l: seq<nat>, ghost r: nat)
      requires Valid() && 16 <= numBits && Lengths(l) && Matches(l, r, codeBuffer) && s == l[r]
      modifies this`codeBuffer, this`numBits, this`padding, this`left, this`supply
      ensures Valid() && Decoded(l, old(left), old(supply), r)
    {
      hide Streams, Ahead, Beyond;
      BufferIsWindow(codeBuffer, numBits, zbuffer[pos..], left, padding);
      MatchesLow(l, r, codeBuffer, 16);
      MatchIsUnique(l, r, MatchOf(l, Ahead(left, 16)).value, Ahead(left, 16));
      var _ := Take(s);
    }

    lemma WindowBound(w: nat)
      ensures Reverse(w, 16) < 0x10000
    {
      ReverseBits(w, 16);
      assert Pow2(4) == 16 && Pow2(8) == 256 && Pow2(12) == 4096 && Pow2(16) == 0x10000;
    }

    lemma NothingMatches(l: seq<nat>)
      requires Valid() && 16 <= numBits && Lengths(l) && Reverse(codeBuffer, 16) >= Top(l, MAX_BITS)
      ensures Decoded(l, left, supply, -1)
    {
      hide Streams, Ahead;
      BufferIsWindow(codeBuffer, numBits, zbuffer[pos..], left, padding);
      forall i: nat ensures !Matches(l, i, Ahead(left, 16)) {
        NoMatchBeyond(l, codeBuffer, i);
        if i < |l| { MatchesLow(l, i, codeBuffer, 16); }
      }
    }

    /** stbi__zhuffman_decode: what comes next, read as if zeros followed the input, unless the
        sixteen bits granted at its end were touched. */
    method HuffmanDecode(z: H.Table, ghost l: seq<nat>) returns (r: int)
      requires Valid() && z.Built(l)
      modifies this`pos, this`codeBuffer, this`numBits, this`padding, this`left, this`hitZeofOnce, this`supply
      ensures Valid()
      ensures if Overdrawn(old(supply)) then r == -1 && left == old(left)
              else Decoded(l, old(left), Ready(old(supply)), r)
    {
      hide Streams, Load, Ahead, Beyond;
      var ok := LookAhead();
      if !ok { return -1; }
      z.FastTells(l, codeBuffer);
      var b := z.fast[Low(codeBuffer, H.FAST_BITS)];
      if b != 0 {
        UseCode(b / H.FAST_SIZE, l, b % H.FAST_SIZE);
        return b % H.FAST_SIZE;
      }
      r := DecodeSlowPath(z, l);
    }

    // ----- output -----

    /** stbi__zexpand: doubles the buffer until n more bytes fit. */
    method ZExpand(n: nat) returns (ok: bool)
      requires Valid()
      modifies this`limit
      ensures Valid() && Room() == old(Room())
      ensures if expandable then ok <==> |zout| + n <= Room() else !ok
      ensures ok ==> |zout| + n <= limit
    {
      hide RoomOf, Streams, Sound;
      if !expandable { return false; }
      RoomSteps(limit);
      var cur := |zout|;
      if UINT_MAX - cur < n { return false; }
      while cur + n > limit
        invariant Valid() && RoomOf(limit) == old(RoomOf(limit))
        decreases RoomOf(limit) - limit
      {
        RoomSteps(limit);
        if limit > UINT_MAX / 2 { return false; }
        limit := limit * 2;
      }
      ok := true;
    }

    /** Makes sure that n more bytes fit. */
    method MakeRoom(n: nat) returns (ok: bool)
      requires Valid()
      modifies this`limit
      ensures Valid() && Room() == old(Room())
      ensures ok <==> |zout| + n <= Room()
      ensures ok ==> |zout| + n <= limit
    {
      ok := true;
      if n > limit - |zout| {
        ok := ZExpand(n);
      }
    }

    /** The copy at the end of a match: len bytes from dist back. */
    method CopyBack(len: nat, dist: nat)
      requires Valid() && 1 <= dist <= |zout| && |zout| + len <= limit
      modifies this`zout
      ensures Valid() && zout == Copy(old(zout), len, dist)
    {
      var rest := len;
      if dist == 1 {
        var v := zout[|zout| - 1];
        while rest > 0
          invariant Valid() && |zout| + rest == |old(zout)| + len && zout[|zout| - 1] == v
          invariant |zout| >= 1 && Copy(zout, rest, dist) == Copy(old(zout), len, dist)
        {
          zout := zout + [v];
          rest := rest - 1;
        }
      } else {
        var p := |zout| - dist;
        while rest > 0
          invariant Valid() && |zout| + rest == |old(zout)| + len && p == |zout| - dist >= 0
          invariant Copy(zout, rest, dist) == Copy(old(zout), len, dist)
        {
          zout := zout + [zout[p]];
          p := p + 1;
          rest := rest - 1;
        }
      }
    }

    // ----- Huffman blocks -----

    /** The extra bits of a length or a distance, if it has any. */
    method ExtraBits(n: nat) returns (k: nat)
      requires Valid() && n <= 16
      modifies this`pos, this`codeBuffer, this`numBits, this`padding, this`left, this`supply
      ensures Valid() && k == Ahead(old(left), n) && left == Beyond(old(left), n)
      ensures Pass(old(supply), Number(n)) == Some(supply)
    {
      k := 0;
      if n > 0 {
        k := ZReceive(n);
      } else {
        assert left[..0] == [] && left[0..] == left;
      }
    }

    /** How a step of the format shows in the decoder: it goes on, unless the supply is overdrawn;
        and it ends with an error. */
    ghost predicate Follows(step: Step, s: Supply, ok: bool)
      reads this`zout, this`left, this`supply
    {
      match step
      case Next(out, rest, items) =>
        if Through(s, items).Some? then ok && zout == out && left == rest && Through(s, items) == Some(supply) else !ok
      case Stop(_) => !ok
    }

    /** One item was read; then the step went on. */
    lemma FollowsBehind(item: Item, step: Step, s: Supply, between: Supply, ok: bool)
      requires Pass(s, item) == Some(between) && Follows(step, between, ok)
      ensures Follows(Behind(item, step), s, ok)
    {
      if step.Next? { assert ([item] + step.items)[1..] == step.items; }
    }

    /** The item was refused. */
    lemma RefusedBehind(item: Item, step: Step, s: Supply)
      requires Pass(s, item) == None
      ensures Follows(Behind(item, step), s, false)
    {
    }

    /** From the distance symbol d on. */
    method FinishMatch(len: nat, d: int) returns (ok: bool)
      requires Valid() && 1 <= len
      modifies this`pos, this`codeBuffer, this`numBits, this`padding, this`left, this`zout, this`limit, this`supply
      ensures Valid() && Room() == old(Room())
      ensures ok ==> |zout| > |old(zout)|
      ensures d < 0 ==> !ok
      ensures d >= 0 ==> Follows(ReadDistance(len, d, old(left), old(zout), old(Room())), old(supply), ok)
    {
      hide Streams, DistBase, DistExtra, Load, Ahead, Beyond;
      if d < 0 || d >= 30 { return false; }
      DistanceTable(d);
      var more := ExtraBits(DistExtra(d));
      var dist := DistBase(d) + more;
      if |zout| < dist { return false; }
      ok := MakeRoom(len);
      if ok {
        CopyBack(len, dist);
        ThroughOne(old(supply), Number(DistExtra(d)));
      }
    }

    /** From the distance code on. */
    method ParseTail(len: nat, ghost dl: seq<nat>) returns (ok: bool)
      requires Valid() && zDistance.Built(dl) && 1 <= len
      modifies this`pos, this`codeBuffer, this`numBits, this`padding, this`left, this`hitZeofOnce,
               this`zout, this`limit, this`supply
      ensures Valid() && Room() == old(Room())
      ensures ok ==> |zout| > |old(zout)|
      ensures Follows(ReadTail(dl, len, old(left), old(zout), old(Room())), old(supply), ok)
    {
      hide Streams, ReadDistance, Load, Ahead, Beyond;
      ghost var before, s, out, room := left, supply, zout, Room();
      var d := HuffmanDecode(zDistance, dl);
      ghost var between := supply;
      ok := FinishMatch(len, d);
      match ReadSymbol(dl, before)
      case Wrong =>
      case Got(i, rest, item) =>
        if Overdrawn(s) {
          RefusedBehind(item, ReadDistance(len, i, rest, out, room), s);
        } else {
          FollowsBehind(item, ReadDistance(len, i, rest, out, room), s, between, ok);
        }
    }

    /** From the extra bits of the length on. */
    method ParseLength(base: nat, extra: nat, ghost dl: seq<nat>) returns (ok: bool)
      requires Valid() && zDistance.Built(dl) && 1 <= base && extra <= 16
      modifies this`pos, this`codeBuffer, this`numBits, this`padding, this`left, this`hitZeofOnce,
               this`zout, this`limit, this`supply
      ensures Valid() && Room() == old(Room())
      ensures ok ==> |zout| > |old(zout)|
      ensures Follows(ReadLength(dl, base, extra, old(left), old(zout), old(Room())), old(supply), ok)
    {
      hide Streams, ReadTail, Load, Ahead, Beyond, Follows, Pass;
      ghost var before, s, out, room := left, supply, zout, Room();
      var more := ExtraBits(extra);
      ghost var between := supply;
      ok := ParseTail(base + more, dl);
      FollowsBehind(Number(extra), ReadTail(dl, base + more, Beyond(before, extra), out, room), s, between, ok);
    }

    /** A match, from the length symbol on; z is the symbol less 257. */
    method ParseMatch(z: nat, ghost dl: seq<nat>) returns (ok: bool)
      requires Valid() && zDistance.Built(dl) && z < 29
      modifies this`pos, this`codeBuffer, this`numBits, this`padding, this`left, this`hitZeofOnce,
               this`zout, this`limit, this`supply
      ensures Valid() && Room() == old(Room())
      ensures ok ==> |zout| > |old(zout)|
      ensures Follows(ReadMatch(dl, z, old(left), old(zout), old(Room())), old(supply), ok)
    {
      hide ReadLength;
      LengthTable(z);
      ok := ParseLength(LengthBase(z), LengthExtra(z), dl);
    }

    /** The decoder's answer against a verdict on what it had before it, from supply s on. */
    ghost predicate Obeys(v: Verdict, s: Supply, status: Status)
      reads this`zout, this`left, this`supply
    {
      match v
      case Done(out, rest, trace) =>
        if Through(s, trace).Some?
        then status == Ok && zout == out && left == rest && Through(s, trace) == Some(supply)
        else status == Error
      case Dynamic(trace) => status == if Through(s, trace).Some? then Unsupported else Error
      case _ => status == Error
    }

    /** How one turn of the loop shows: it goes round again, or the block is over. */
    ghost predicate Turns(step: Step, s: Supply, more: bool, ok: bool)
      reads this`zout, this`left, this`supply
    {
      match step
      case Next(_, _, _) => !ok && Follows(step, s, more)
      case Stop(v) => !more && Obeys(v, s, if ok then Ok else Error)
    }

    lemma TurnsBehind(item: Item, step: Step, s: Supply, between: Supply, more: bool, ok: bool)
      requires Pass(s, item) == Some(between) && Turns(step, between, more, ok)
      ensures Turns(Behind(item, step), s, more, ok)
    {
      ThroughOne(s, item);
      match step
      case Next(_, _, _) => FollowsBehind(item, step, s, between, more);
      case Stop(v) => ObeysPrefixed([item], v, s, between, if ok then Ok else Error);
    }

    lemma RefusedTurn(item: Item, step: Step, s: Supply)
      requires Pass(s, item) == None
      ensures Turns(Behind(item, step), s, false, false)
    {
      ThroughOne(s, item);
      if step.Stop? { RefusedPrefixed([item], step.verdict, s); }
    }

    /** The symbol z was decoded. */
    method FinishTurn(z: nat, ghost dl: seq<nat>) returns (more: bool, ok: bool)
      requires Valid() && zDistance.Built(dl)
      modifies this`pos, this`codeBuffer, this`numBits, this`padding, this`left, this`hitZeofOnce,
               this`zout, this`limit, this`supply
      ensures Valid() && Room() == old(Room())
      ensures more ==> |zout| > |old(zout)|
      ensures Turns(SymbolStep(dl, z, old(left), old(zout), old(Room())), old(supply), more, ok)
    {
      hide Streams, ReadMatch;
      if z < 256 {
        more := MakeRoom(1);
        ok := false;
        if more {
          zout := zout + [z];
        }
      } else if z == 256 {
        more := false;
        ok := !(hitZeofOnce && numBits < 16);
        ThroughOne(supply, Finish);
      } else if z >= 286 {
        more, ok := false, false;
      } else {
        more := ParseMatch(z - 257, dl);
        ok := false;
      }
    }

    /** One turn of the loop of stbi__parse_huffman_block. */
    method BlockTurn(ghost ll: seq<nat>, ghost dl: seq<nat>) returns (more: bool, ok: bool)
      requires Valid() && zLength.Built(ll) && zDistance.Built(dl)
      modifies this`pos, this`codeBuffer, this`numBits, this`padding, this`left, this`hitZeofOnce,
               this`zout, this`limit, this`supply
      ensures Valid() && Room() == old(Room())
      ensures more ==> |zout| > |old(zout)|
      ensures Turns(BlockStep(ll, dl, old(left), old(zout), old(Room())), old(supply), more, ok)
    {
      hide Streams, SymbolStep, Ahead, Beyond, Load;
      ghost var read, s, out, room := ReadSymbol(ll, left), supply, zout, Room();
      var z := HuffmanDecode(zLength, ll);
      if z < 0 {
        if read.Got? { RefusedTurn(read.item, SymbolStep(dl, read.value, read.rest, out, room), s); }
        return false, false;
      }
      ghost var between := supply;
      more, ok := FinishTurn(z, dl);
      TurnsBehind(read.item, SymbolStep(dl, z, read.rest, out, room), s, between, more, ok);
    }

    lemma PrefixedTwice(a: seq<Item>, b: seq<Item>, v: Verdict)
      ensures Prefixed(a, Prefixed(b, v)) == Prefixed(a + b, v)
    {
      if v.Done? || v.Dynamic? { Associate(a, b, v.trace); }
    }

    /** The items were read; then the verdict was obeyed. */
    lemma ObeysPrefixed(items: seq<Item>, v: Verdict, s: Supply, between: Supply, status: Status)
      requires Through(s, items) == Some(between) && Obeys(v, between, status)
      ensures Obeys(Prefixed(items, v), s, status)
    {
      if v.Done? || v.Dynamic? { ThroughJoin(s, items, v.trace); }
    }

    /** The items were refused. */
    lemma RefusedPrefixed(items: seq<Item>, v: Verdict, s: Supply)
      requires Through(s, items) == None
      ensures Obeys(Prefixed(items, v), s, Error)
    {
      if v.Done? || v.Dynamic? { ThroughJoin(s, items, v.trace); }
    }

    lemma PrefixedByNothing(v: Verdict)
      ensures Prefixed([], v) == v
    {
      if v.Done? || v.Dynamic? { assert [] + v.trace == v.trace; }
    }

    /** stbi__parse_huffman_block: what the format says, unless the supply is overdrawn. */
    method ParseHuffmanBlock(ghost ll: seq<nat>, ghost dl: seq<nat>) returns (ok: bool)
      requires Valid() && zLength.Built(ll) && zDistance.Built(dl)
      modifies this`pos, this`codeBuffer, this`numBits, this`padding, this`left, this`hitZeofOnce,
               this`zout, this`limit, this`supply
      ensures Valid() && Room() == old(Room())
      ensures Obeys(HuffmanBlock(ll, dl, old(left), old(zout), old(Room())), old(supply), if ok then Ok else Error)
    {
      hide Streams, BlockStep, Prefixed;
      ghost var v, s, read := HuffmanBlock(ll, dl, left, zout, Room()), supply, [];
      PrefixedByNothing(v);
      var more := true;
      ok := false;
      while more
        invariant Valid() && Room() == old(Room())
        invariant if more
                  then Through(s, read) == Some(supply)
                    && v == Prefixed(read, HuffmanBlock(ll, dl, left, zout, old(Room())))
                  else Obeys(v, s, if ok then Ok else Error)
        decreases if more then Room() - |zout| + 1 else 0
      {
        more, ok, read := NextTurn(ll, dl, v, s, read);
      }
    }

    /** The same, with what it means for the whole block. */
    method NextTurn(ghost ll: seq<nat>, ghost dl: seq<nat>, ghost v: Verdict, ghost s: Supply, ghost read: seq<Item>)
        returns (more: bool, ok: bool, ghost read': seq<Item>)
      requires Valid() && zLength.Built(ll) && zDistance.Built(dl)
      requires Through(s, read) == Some(supply) && v == Prefixed(read, HuffmanBlock(ll, dl, left, zout, Room()))
      modifies this`pos, this`codeBuffer, this`numBits, this`padding, this`left, this`hitZeofOnce,
               this`zout, this`limit, this`supply
      ensures Valid() && Room() == old(Room()) && (more ==> |zout| > |old(zout)|)
      ensures if more
        then Through(s, read') == Some(supply) && v == Prefixed(read', HuffmanBlock(ll, dl, left, zout, Room()))
        else Obeys(v, s, if ok then Ok else Error)
    {
      hide Streams, BlockStep, Prefixed, Obeys;
      ghost var between, room := supply, Room();
      ghost var step := BlockStep(ll, dl, left, zout, room);
      more, ok := BlockTurn(ll, dl);
      read' := read;
      match step
      case Next(out, rest, items) =>
        ThroughJoin(s, read, items);
        ghost var w := HuffmanBlock(ll, dl, rest, out, room);
        PrefixedTwice(read, items, w);
        if more { read' := read + items; } else { RefusedPrefixed(read + items, w, s); }
      case Stop(w) => ObeysPrefixed(read, w, s, between, if ok then Ok else Error);
    }

    // ----- stored blocks -----

    /** header[k++] = zget8, with nothing in the bit buffer. */
    method HeaderByte() returns (b: Byte)
      requires Valid() && numBits == 0
      modifies this`pos, this`left, this`supply
      ensures Valid() && b == Ahead(old(left), 8) && left == Beyond(old(left), 8)
      ensures supply.pos == old(supply.pos) + 8 && supply.total == old(supply.total)
    {
      EmptyBuffer(codeBuffer, zbuffer[pos..], left, padding);
      NextByte(zbuffer[pos..]);
      if pos < |zbuffer| { assert zbuffer[pos..][1..] == zbuffer[pos + 1..]; }
      b := ZGet8();
      left := Beyond(left, 8);
      supply := supply.(pos := supply.pos + 8, loaded := supply.loaded + 8);
      FromBytes(zbuffer[pos..]);
    }

    /** header[k++] = code_buffer & 255 */
    method DrainByte(header: seq<Byte>, ghost bits: Bits) returns (header': seq<Byte>)
      requires Valid() && 8 <= numBits && HeaderSoFar(bits, header, left)
      modifies this`codeBuffer, this`numBits, this`padding, this`left, this`supply
      ensures Valid() && numBits == old(numBits) - 8 && supply == Advance(old(supply), 8)
      ensures |header'| == |header| + 1 && HeaderSoFar(bits, header', left)
    {
      hide Streams;
      AheadBound(left);
      var k := Take(8);
      header' := header + [k];
    }

    /** The whole bytes left in the bit buffer go into the header. */
    method DrainBuffer() returns (header: seq<Byte>)
      requires Valid() && numBits % 8 == 0
      modifies this`codeBuffer, this`numBits, this`padding, this`left, this`supply
      ensures Valid() && numBits == 0 && |header| <= 4
      ensures HeaderSoFar(old(left), header, left) && supply == Advance(old(supply), 8 * |header|)
    {
      hide Streams;
      header := [];
      while numBits > 0
        invariant Valid() && numBits % 8 == 0 && numBits + 8 * |header| <= 32
        invariant HeaderSoFar(old(left), header, left) && supply == Advance(old(supply), 8 * |header|)
        decreases numBits
      {
        header := DrainByte(header, old(left));
      }
    }

    /** The four bytes of the header: what is left in the bit buffer, then bytes of the input. */
    method StoredHeader() returns (header: seq<Byte>)
      requires Valid() && numBits % 8 == 0
      modifies this`pos, this`codeBuffer, this`numBits, this`padding, this`left, this`supply
      ensures Valid() && numBits == 0
      ensures header == HeaderBytes(old(left), 4) && left == Skip(old(left), 4)
      ensures supply.pos == old(supply.pos) + 32 && supply.total == old(supply.total)
    {
      hide Streams;
      header := DrainBuffer();
      while |header| < 4
        invariant Valid() && numBits == 0 && |header| <= 4
        invariant HeaderSoFar(old(left), header, left)
        invariant supply.pos == old(supply.pos) + 8 * |header| && supply.total == old(supply.total)
      {
        var b := HeaderByte();
        header := header + [b];
      }
    }

    ghost predicate HeaderSoFar(bits: Bits, header: seq<Byte>, now: Bits)
    {
      header == HeaderBytes(bits, |header|) && now == Skip(bits, |header|)
    }

    /** The bytes of a stored block go from the input to the output. */
    method CopyStored(len: nat) returns (ok: bool)
      requires Valid() && numBits == 0
      modifies this`pos, this`left, this`zout, this`limit, this`supply
      ensures Valid() && Room() == old(Room())
      ensures ok <==> 8 * len <= |old(left)| && |old(zout)| + len <= old(Room())
      ensures ok ==> zout == old(zout) + BytesOf(old(left), len) && left == old(left)[8 * len..]
      ensures supply.total == old(supply.total) && (ok ==> supply.pos == old(supply.pos) + 8 * len)
    {
      hide Streams, BytesOf, BytesBits;
      EmptyBuffer(codeBuffer, zbuffer[pos..], left, padding);
      if pos + len > |zbuffer| { return false; }
      ok := MakeRoom(len);
      if ok {
        BytesAhead(zbuffer[pos..], len);
        assert zbuffer[pos..][..len] == zbuffer[pos..pos + len];
        assert zbuffer[pos..][len..] == zbuffer[pos + len..];
        zout := zout + zbuffer[pos..pos + len];
        pos := pos + len;
        left := left[8 * len..];
        supply := supply.(pos := supply.pos + 8 * len, loaded := supply.loaded + 8 * len);
        FromBytes(zbuffer[pos..]);
      }
    }

    /** Discards the bits up to the next byte. */
    method Align()
      requires Valid()
      modifies this`pos, this`codeBuffer, this`numBits, this`padding, this`left, this`supply
      ensures Valid() && numBits % 8 == 0 && left == old(left)[|old(left)| % 8..]
      ensures supply.total == old(supply.total)
      ensures old(left) != [] ==> supply.pos == old(supply.pos) + |old(left)| % 8
    {
      hide Streams;
      ByteEnds(codeBuffer, numBits, zbuffer[pos..], left, padding);
      assert left[0..] == left;
      if numBits % 8 != 0 {
        var _ := ZReceive(numBits % 8);
      }
    }

    /** From the length of a stored block on. */
    method ParseStored() returns (ok: bool)
      requires Valid() && numBits % 8 == 0
      modifies this`pos, this`codeBuffer, this`numBits, this`padding, this`left, this`zout, this`limit, this`supply
      ensures Valid() && Room() == old(Room()) && supply.total == old(supply.total)
      ensures var v := StoredBody(old(left), old(zout), old(Room()));
        && (ok <==> v.Done?)
        && (ok ==> zout == v.out && left == v.rest && numBits == 0)
        && (ok && |old(left)| >= 32 ==> supply.pos == old(supply.pos) + |old(left)| - |left|)
    {
      hide Streams, BytesOf, HeaderBytes, Skip;
      HeaderAtEnd(left);
      var header := StoredHeader();
      var len: nat := header[1] as int * 256 + header[0];
      var nlen: nat := header[3] as int * 256 + header[2];
      if nlen != 0xFFFF - len { return false; }
      ok := CopyStored(len);
    }

    /** stbi__parse_uncompressed_block */
    method ParseUncompressedBlock() returns (ok: bool)
      requires Valid()
      modifies this`pos, this`codeBuffer, this`numBits, this`padding, this`left, this`zout, this`limit, this`supply
      ensures Valid() && Room() == old(Room())
      ensures Obeys(StoredBlock(old(left), old(zout), old(Room())), old(supply), if ok then Ok else Error)
    {
      hide Streams, StoredBody;
      ghost var s, v, n := supply, StoredBlock(left, zout, Room()), |left|;
      StoredTook(left, zout, Room());
      Align();
      ok := ParseStored();
      if ok {
        assert !s.granted && supply == s.(pos := s.pos + n - |left|, loaded := s.pos + n - |left|);
        ThroughOne(s, Stored(n - |left|));
      }
    }

    // ----- the stream -----

    /** stbi__parse_zlib_header */
    method ParseZlibHeader() returns (ok: bool)
      requires Valid() && numBits == 0 && pos == 0 && !hitZeofOnce
      modifies this`pos, this`left, this`supply
      ensures Valid() && numBits == 0
      ensures ok <==> |zbuffer| >= 3 && ZlibHeader(zbuffer[0], zbuffer[1])
      ensures ok ==> left == BytesBits(zbuffer[2..]) && supply == Start(8 * (|zbuffer| - 2))
    {
      var cmf := HeaderByteAt(0);
      var flg := HeaderByteAt(1);
      if ZEof() { return false; }
      if (cmf as int * 256 + flg) % 31 != 0 { return false; }
      if flg / 32 % 2 != 0 { return false; }
      if cmf % 16 != 8 { return false; }
      ok := true;
    }

    /** One byte of the header, if there is one. */
    method HeaderByteAt(ghost at: nat) returns (b: Byte)
      requires Valid() && numBits == 0 && pos == (if at < |zbuffer| then at else |zbuffer|) && !hitZeofOnce
      modifies this`pos, this`left, this`supply
      ensures Valid() && pos == if at + 1 < |zbuffer| then at + 1 else |zbuffer|
      ensures at < |zbuffer| ==> b == zbuffer[at]
      ensures left == BytesBits(zbuffer[pos..]) && supply == Start(8 * (|zbuffer| - pos))
    {
      EmptyBuffer(codeBuffer, zbuffer[pos..], left, padding);
      b := ZGet8();
      left, supply := BytesBits(zbuffer[pos..]), Start(8 * (|zbuffer| - pos));
      FromBytes(zbuffer[pos..]);
    }

    /** The fixed tables, then the block. */
    method ParseFixedBlock() returns (ok: bool)
      requires Valid()
      modifies this`pos, this`codeBuffer, this`numBits, this`padding, this`left, this`hitZeofOnce,
               this`zout, this`limit, this`supply, TableArrays()
      ensures Valid() && Room() == old(Room())
      ensures Obeys(HuffmanBlock(FixedLengths(), FixedDistances(), old(left), old(zout), old(Room())), old(supply),
                    if ok then Ok else Error)
    {
      F.FixedFits();
      F.DistancesFit();
      ok := zLength.Build(FixedLengths());
      if !ok { return; }
      ok := zDistance.Build(FixedDistances());
      if !ok { return; }
      ok := ParseHuffmanBlock(FixedLengths(), FixedDistances());
    }

    /** One block of the given type. */
    method ParseBlock(kind: nat) returns (status: Status)
      requires Valid()
      modifies this`pos, this`codeBuffer, this`numBits, this`padding, this`left, this`hitZeofOnce,
               this`zout, this`limit, this`supply, TableArrays()
      ensures Valid() && Room() == old(Room())
      ensures Obeys(OneBlock(kind, old(left), old(zout), old(Room())), old(supply), status)
    {
      var ok := false;
      if kind == 0 {
        ok := ParseUncompressedBlock();
      } else if kind == 1 {
        ok := ParseFixedBlock();
      } else if kind == 2 {
        return Unsupported;
      }
      status := if ok then Ok else Error;
    }

    /** The three bits before a block. */
    method ParseBlockHeader() returns (final: bool, kind: nat)
      requires Valid()
      modifies this`pos, this`codeBuffer, this`numBits, this`padding, this`left, this`supply
      ensures Valid() && final == (old(left) != [] && old(left)[0])
      ensures kind == Ahead(Beyond(old(left), 1), 2) && left == Beyond(old(left), 3)
      ensures Through(old(supply), BLOCK_HEADER) == Some(supply)
    {
      hide Load;
      if left != [] { OneBit(left); }
      var f := ZReceive(1);
      kind := ZReceive(2);
      final := f == 1;
      ThroughTwo(old(supply), Number(1), Number(2));
    }

    /** The three bits before a block, and the block. */
    method NextBlock() returns (final: bool, status: Status)
      requires Valid()
      modifies this`pos, this`codeBuffer, this`numBits, this`padding, this`left, this`hitZeofOnce,
               this`zout, this`limit, this`supply, TableArrays()
      ensures Valid() && Room() == old(Room())
      ensures final == (old(left) != [] && old(left)[0])
      ensures Obeys(HeadedBlock(old(left), old(zout), old(Room())), old(supply), status)
      ensures status == Ok ==> |left| < |old(left)|
    {
      hide Streams, OneBlock, Through, Ahead, Beyond;
      ghost var bits, s, out, room := left, supply, zout, Room();
      if bits == [] { NoBlockLeft(out, room); } else { BlockRest(bits, out, room); }
      var kind;
      final, kind := ParseBlockHeader();
      ghost var between := supply;
      status := ParseBlock(kind);
      ObeysPrefixed(BLOCK_HEADER, OneBlock(kind, Beyond(bits, 3), out, room), s, between, status);
    }

    static lemma NoBlockLeft(out: seq<Byte>, room: nat)
      ensures HeadedBlock([], out, room) == Corrupt
    {
      HeaderOfNothing(4);
    }

    /** stbi__parse_zlib: the meaning of the stream, read as if zeros followed it; an error exactly
        if it has none, or if the supply is overdrawn. */
    method ParseZlib(parseHeader: bool) returns (status: Status)
      requires Valid() && numBits == 0 && pos == 0 && zout == [] && !hitZeofOnce
      modifies this, TableArrays()
      ensures Valid() && Room() == old(Room())
      ensures parseHeader ==> Obeys(InflateZlib(zbuffer, old(Room())), StartOf(|zbuffer|, true), status)
      ensures !parseHeader ==> Obeys(Inflate(BytesBits(zbuffer), [], old(Room())), StartOf(|zbuffer|, false), status)
    {
      hide Inflate, Through, RoomOf;
      EmptyBuffer(codeBuffer, zbuffer[pos..], left, padding);
      assert zbuffer[0..] == zbuffer;
      supply := Start(8 * |zbuffer|);
      if parseHeader {
        var ok := ParseZlibHeader();
        if !ok { return Error; }
      }
      numBits, codeBuffer := 0, 0;
      status := ParseBlocks();
    }

    method ParseBlocks() returns (status: Status)
      requires Valid()
      modifies this`pos, this`codeBuffer, this`numBits, this`padding, this`left, this`hitZeofOnce,
               this`zout, this`limit, this`supply, TableArrays()
      ensures Valid() && Room() == old(Room())
      ensures Obeys(Inflate(old(left), old(zout), old(Room())), old(supply), status)
    {
      hide Streams, HeadedBlock, Prefixed, Obeys;
      ghost var v, s, read := Inflate(left, zout, Room()), supply, [];
      PrefixedByNothing(v);
      var final := false;
      status := Ok;
      while !final
        invariant Valid() && Room() == old(Room())
        invariant if final then Obeys(v, s, status)
                  else Through(s, read) == Some(supply) && v == Prefixed(read, Inflate(left, zout, old(Room())))
        decreases !final, |left|
      {
        final, status, read := NextOfBlocks(v, s, read);
        if status != Ok { return; }
      }
    }

    /** One more block, with what it means for the whole stream. */
    method NextOfBlocks(ghost v: Verdict, ghost s: Supply, ghost read: seq<Item>)
        returns (final: bool, status: Status, ghost read': seq<Item>)
      requires Valid()
      requires Through(s, read) == Some(supply) && v == Prefixed(read, Inflate(left, zout, Room()))
      modifies this`pos, this`codeBuffer, this`numBits, this`padding, this`left, this`hitZeofOnce,
               this`zout, this`limit, this`supply, TableArrays()
      ensures Valid() && Room() == old(Room())
      ensures if final || status != Ok then Obeys(v, s, status)
        else Through(s, read') == Some(supply) && v == Prefixed(read', Inflate(left, zout, Room()))
      ensures !final && status == Ok ==> |left| < |old(left)|
    {
      hide Streams, HeadedBlock, Prefixed;
      ghost var bits, between, out, room := left, supply, zout, Room();
      ghost var block := HeadedBlock(bits, out, room);
      final, status := NextBlock();
      read' := read;
      BlocksFrom(bits, out, room);
      if block.Done? && bits != [] && !bits[0] {
        ghost var w := Inflate(block.rest, block.out, room);
        PrefixedTwice(read, block.trace, w);
        ThroughJoin(s, read, block.trace);
        if status == Ok { read' := read + block.trace; } else { RefusedPrefixed(read + block.trace, w, s); }
      } else {
        ObeysPrefixed(read, block, s, between, status);
      }
    }

    /** A stream is its first block, and what follows if that is not the last. */
    static lemma BlocksFrom(bits: Bits, out: seq<Byte>, room: nat)
      ensures var v := HeadedBlock(bits, out, room);
        Inflate(bits, out, room)
          == if bits != [] && v.Done? && !bits[0] then Prefixed(v.trace, Inflate(v.rest, v.out, room)) else v
    {
      if bits == [] { NoBlockLeft(out, room); }
    }
  }

  lemma OrZero(x: nat, n: nat)
    ensures BitOr(x, Shl(0, n)) == x
  {
    ShlOfZero(n);
  }
}
