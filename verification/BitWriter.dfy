// The writer's bit buffer: stbiw__zlib_add, stbiw__zlib_flushf and the macros above them.
module BitWriter {
  import opened Base
  import opened Binary
  import opened BitReverse
  import opened StretchyBuffer
  import opened Deflate
  import opened Tokens

  class Writer {
    var out: seq<Byte>
    var bitBuf: nat
    var bitCount: nat
    var capacity: nat              // stbiw__sbm(out)

    constructor ()
      ensures Valid() && out == [] && bitCount == 0 && Emitted() == []
    {
      out, bitBuf, bitCount, capacity := [], 0, 0, 0;
    }

    /** Between two calls less than a byte is in the buffer. */
    predicate Valid()
      reads this
    {
      bitCount < 8 && Tidy()
    }

    /** No bits beyond those counted, which fit in 32, and room in the output as it grows. */
    predicate Tidy()
      reads this
    {
      bitCount <= 32 && bitBuf < Pow2(bitCount) && capacity == Capacity(|out|)
    }

    /** All bits written so far. */
    function Emitted(): Bits
      reads this
    {
      BytesBits(out) + BitsOf(bitBuf, bitCount)
    }

    /** stbiw__sbpush */
    method Push(b: Byte)
      requires Valid() && bitCount == 0
      modifies this`out, this`capacity
      ensures Valid() && out == old(out) + [b] && Emitted() == old(Emitted()) + BitsOf(b, 8)
    {
      capacity := Grown(capacity, |out|);
      out := out + [b];
      BytesBitsJoin(old(out), [b]);
      assert [b][1..] == [] && BytesBits([b]) == BitsOf(b, 8) + [];
    }

    /** stbiw__zlib_flushf: whole bytes move from the buffer to the output. */
    method Flush()
      requires Tidy()
      modifies this
      ensures Valid() && Emitted() == old(Emitted()) && bitCount == old(bitCount) % 8
    {
      hide Emitted, Pow2;
      while bitCount >= 8
        invariant Tidy() && Emitted() == old(Emitted()) && bitCount % 8 == old(bitCount) % 8
        decreases bitCount
      {
        FlushByte();
      }
    }

    method FlushByte()
      requires Tidy() && 8 <= bitCount
      modifies this
      ensures Tidy() && Emitted() == old(Emitted()) && bitCount == old(bitCount) - 8
    {
      FlushKeepsBits(out, bitBuf, bitCount);
      capacity := Grown(capacity, |out|);
      out := out + [Low(bitBuf, 8)];
      bitBuf := Shr(bitBuf, 8);
      bitCount := bitCount - 8;
    }

    static lemma FlushKeepsBits(out: seq<Byte>, bitBuf: nat, bitCount: nat)
      requires bitBuf < Pow2(bitCount) && 8 <= bitCount
      ensures Low(bitBuf, 8) < 256 && Shr(bitBuf, 8) < Pow2(bitCount - 8)
      ensures BytesBits(out + [Low(bitBuf, 8)]) + BitsOf(Shr(bitBuf, 8), bitCount - 8)
        == BytesBits(out) + BitsOf(bitBuf, bitCount)
    {
      hide Pow2;
      LowIsByte(bitBuf);
      BitsSplit(bitBuf, 8, bitCount - 8);
      ShrBound(bitBuf, 8, bitCount - 8);
      BytesBitsJoin(out, [Low(bitBuf, 8)]);
      Associate(BytesBits(out), BitsOf(bitBuf, 8), BitsOf(Shr(bitBuf, 8), bitCount - 8));
    }

    static lemma LowIsByte(x: nat)
      ensures Low(x, 8) < 256 && BytesBits([Low(x, 8)]) == BitsOf(x, 8)
    {
      LowBound(x, 8);
      SmallPowers();
      BitsOfLow(x, 8);
      var b: Byte := Low(x, 8);
      assert [b][1..] == [] && BytesBits([b]) == BitsOf(b, 8) + [];
    }

    /** stbiw__zlib_add: the low bit of the code goes first. With codes of no more than 25 bits the
        buffer stays within the 32 bits of an unsigned int, for Flush asks for no more. */
    method Add(code: nat, codeBits: nat)
      requires Valid() && code < Pow2(codeBits) && codeBits <= 25
      modifies this
      ensures Valid() && Emitted() == old(Emitted()) + BitsOf(code, codeBits)
      ensures bitCount == (old(bitCount) + codeBits) % 8
    {
      BitsJoin(bitBuf, code, bitCount, codeBits);
      Associate(BytesBits(out), BitsOf(bitBuf, bitCount), BitsOf(code, codeBits));
      bitBuf := BitOr(bitBuf, Shl(code, bitCount));
      bitCount := bitCount + codeBits;
      Flush();
    }

    /** stbiw__zlib_huffa: a code goes with its most significant bit first. */
    method HuffA(code: nat, codeBits: nat)
      requires Valid() && codeBits <= 25
      modifies this
      ensures Valid() && Emitted() == old(Emitted()) + BitsOf(Reverse(code, codeBits), codeBits)
    {
      ReverseBits(code, codeBits);
      var reversed := BitRev(code, codeBits);
      Add(reversed, codeBits);
    }

    /** stbiw__zlib_huff */
    method Huff(n: nat)
      requires Valid() && n < 288
      modifies this
      ensures Valid() && Emitted() == old(Emitted()) + SymbolBits(n)
    {
      hide BitsOf, Reverse, BytesBits;
      if n <= 143 { HuffA(0x30 + n, 8); }
      else if n <= 255 { HuffA(0x190 + n - 144, 9); }
      else if n <= 279 { HuffA(0 + n - 256, 7); }
      else { HuffA(0xC0 + n - 280, 8); }
    }

    /** stbiw__zlib_huffb: a literal. */
    method HuffB(n: Byte)
      requires Valid()
      modifies this
      ensures Valid() && Emitted() == old(Emitted()) + SymbolBits(n)
    {
      if n <= 143 { HuffA(0x30 + n as int, 8); } else { HuffA(0x190 + n as int - 144, 9); }
    }

    /** The length of a match: a symbol and its extra bits. */
    method WriteLength(best: nat)
      requires Valid() && 3 <= best <= 258
      modifies this
      ensures Valid() && Emitted() == old(Emitted()) + LengthBits(best)
    {
      var j := 0;
      while best > Lengthc(j + 1) - 1
        invariant j <= 28 && Lengthc(j) <= best && LengthCode(best, j) == LengthSymbol(best)
        decreases 28 - j
      {
        j := j + 1;
      }
      LengthTablesAgree(j);
      LengthTable(j);
      ghost var before := Emitted();
      Huff(j + 257);
      if Lengtheb(j) > 0 {
        Add(best - Lengthc(j), Lengtheb(j));
      }
      Associate(before, SymbolBits(257 + j), BitsOf(best - Lengthc(j), Lengtheb(j)));
    }

    /** The distance of a match: a five-bit symbol and its extra bits. */
    method WriteDistance(d: nat)
      requires Valid() && 1 <= d <= 32767
      modifies this
      ensures Valid() && Emitted() == old(Emitted()) + DistBits(d)
    {
      var j := 0;
      while d > Distc(j + 1) - 1
        invariant j <= 29 && Distc(j) <= d && DistCode(d, j) == DistSymbol(d)
        decreases 29 - j
      {
        j := j + 1;
      }
      DistanceTablesAgree(j);
      DistanceTable(j);
      ghost var before := Emitted();
      HuffA(j, 5);
      if Disteb(j) > 0 {
        Add(d - Distc(j), Disteb(j));
      }
      Associate(before, DistanceBits(j), BitsOf(d - Distc(j), Disteb(j)));
    }

    method WriteMatch(best: nat, d: nat)
      requires Valid() && 3 <= best <= 258 && 1 <= d <= 32767
      modifies this
      ensures Valid() && Emitted() == old(Emitted()) + TokenBits(Match(best, d))
    {
      Associate(Emitted(), LengthBits(best), DistBits(d));
      WriteLength(best);
      WriteDistance(d);
    }

    static lemma BitZero()
      ensures BitsOf(0, 1) == [false] && 0 < Pow2(1)
    {
    }

    /** Zero bits up to the next byte. */
    method Pad() returns (ghost zeros: Bits)
      requires Valid()
      modifies this
      ensures Valid() && bitCount == 0 && |zeros| < 8 && Emitted() == old(Emitted()) + zeros
      ensures forall i :: 0 <= i < |zeros| ==> !zeros[i]
    {
      hide BytesBits, Pow2;
      BitZero();
      zeros := [];
      while bitCount != 0
        invariant Valid() && Emitted() == old(Emitted()) + zeros
        invariant |zeros| > 0 ==> old(bitCount) > 0
        invariant forall i :: 0 <= i < |zeros| ==> !zeros[i]
        invariant old(bitCount) + |zeros| == if bitCount == 0 && |zeros| > 0 then 8 else bitCount
        decreases if bitCount == 0 then 0 else 8 - bitCount
      {
        Associate(old(Emitted()), zeros, BitsOf(0, 1));
        Add(0, 1);
        zeros := zeros + BitsOf(0, 1);
      }
    }
  }
}
