// How far the decoder's bit buffer reaches while a stream is read. stbi__fill_bits supplies zeros
// once the bytes run out; sixteen more bits are granted, once, to look ahead. What counts is that
// no symbol begins, and no Huffman block ends, behind what stbi__fill_bits supplied.
module Supply {
  import opened Base
  import opened Canonical
  import opened Deflate

  /** Of a stream of total bits, pos have been used and loaded have been in the buffer, the zeros
      supplied behind the end included; the sixteen bits granted are not. */
  datatype Supply = Supply(total: nat, pos: nat, loaded: nat, granted: bool)

  /** A stream at its beginning, with an empty buffer. */
  function Start(total: nat): Supply
  {
    Supply(total, 0, 0, false)
  }

  /** How many bits are in the buffer. */
  function Buffered(s: Supply): int
  {
    s.loaded + (if s.granted then 16 else 0) - s.pos
  }

  /** How many bits stbi__fill_bits adds: bytes, until there are more than 24. */
  function Load(count: int): (n: nat)
    ensures 24 < count <= 32 ==> n == 8
    ensures 0 <= count <= 24 ==> 24 < count + n <= 32
    decreases 24 - count
  {
    if count + 8 > 24 then 8 else 8 + Load(count + 8)
  }

  function Fill(s: Supply): Supply
  {
    s.(loaded := s.loaded + Load(Buffered(s)))
  }

  /** Sixteen bits to look at. */
  function Ready(s: Supply): Supply
  {
    if Buffered(s) >= 16 then s
    else if s.loaded < s.total then Fill(s)
    else s.(granted := true)
  }

  function Advance(s: Supply, n: nat): Supply
  {
    s.(pos := s.pos + n)
  }

  /** More was used than stbi__fill_bits supplied. */
  predicate Overdrawn(s: Supply)
  {
    s.pos > s.loaded
  }

  /** One item of a reading, unless it is refused. */
  function Pass(s: Supply, item: Item): Option<Supply>
  {
    match item
    case Symbol(n) => if Overdrawn(s) then None else Some(Advance(Ready(s), n))
    case Number(n) => Some(Advance(if Buffered(s) < n then Fill(s) else s, n))
    case Finish => if Overdrawn(s) then None else Some(s)
    case Stored(n) => Some(s.(pos := s.pos + n, loaded := s.pos + n))
  }

  function Through(s: Supply, items: seq<Item>): Option<Supply>
    decreases |items|
  {
    if items == [] then Some(s)
    else match Pass(s, items[0])
         case None => None
         case Some(s') => Through(s', items[1..])
  }

  lemma {:induction false} ThroughJoin(s: Supply, a: seq<Item>, b: seq<Item>)
    ensures Through(s, a + b) == match Through(s, a) case None => None case Some(s') => Through(s', b)
    decreases |a|
  {
    if a == [] {
      assert a + b == b;
    } else {
      assert (a + b)[1..] == a[1..] + b;
      var next := Pass(s, a[0]);
      if next.Some? { ThroughJoin(next.value, a[1..], b); }
    }
  }

  lemma ThroughOne(s: Supply, item: Item)
    ensures Through(s, [item]) == Pass(s, item)
  {
    assert [item][1..] == [];
    if Pass(s, item).Some? { assert Through(Pass(s, item).value, []) == Pass(s, item); }
  }

  lemma ThroughTwo(s: Supply, a: Item, b: Item)
    ensures Through(s, [a, b]) == match Pass(s, a) case None => None case Some(s') => Pass(s', b)
  {
    assert [a, b][1..] == [b];
    if Pass(s, a).Some? { ThroughOne(Pass(s, a).value, b); }
  }

  // ----- a stream that has all its bits is never refused -----

  /** The sixteen bits are granted only near the end, when all bytes have been loaded. */
  predicate Sound(s: Supply)
  {
    && Buffered(s) >= 0
    && (s.granted ==> s.total <= s.loaded && s.total < s.pos + 16)
  }

  lemma StartIsSound(total: nat)
    ensures Sound(Start(total))
  {
  }

  lemma {:induction false} WholePasses(s: Supply, items: seq<Item>)
    requires Sound(s) && Proper(items) && s.pos + Needs(items) <= s.total
    ensures Through(s, items).Some?
    decreases |items|
  {
    if items != [] {
      assert Proper([items[0]]) by { assert [items[0]][0] == items[0]; }
      var s' := Pass(s, items[0]).value;
      assert Sound(s') && s'.pos + Needs(items[1..]) <= s'.total;
      forall k | 0 <= k < |items[1..]| ensures items[1..][k] == items[k + 1] {}
      WholePasses(s', items[1..]);
    }
  }

  // ----- what is refused and what is not -----

  lemma {:induction false} PassesTo(s: Supply, items: seq<Item>)
    requires Through(s, items).Some?
    ensures var end := Through(s, items).value; end.pos == s.pos + Needs(items) && end.total == s.total
    decreases |items|
  {
    if items != [] { PassesTo(Pass(s, items[0]).value, items[1..]); }
  }

  /** A Huffman block is refused exactly when at the beginning of a symbol, or at its end, more had
      been used than stbi__fill_bits had supplied by then. */
  lemma {:induction false} RefusedIffOverdrawn(s: Supply, items: seq<Item>)
    ensures Through(s, items).None? <==> exists k :: 0 <= k < |items| && OverdrawnAt(s, items, k)
    decreases |items|
  {
    if items != [] {
      var next := Pass(s, items[0]);
      if next.None? {
        assert items[..0] == [];
        assert OverdrawnAt(s, items, 0);
      } else {
        RefusedIffOverdrawn(next.value, items[1..]);
        forall k | 0 <= k < |items| - 1
          ensures OverdrawnAt(s, items, k + 1) == OverdrawnAt(next.value, items[1..], k)
        {
          assert items[..k + 1][1..] == items[1..][..k];
        }
        assert !OverdrawnAt(s, items, 0) by { assert items[..0] == []; }
        if k :| 0 <= k < |items| && OverdrawnAt(s, items, k) {
          assert OverdrawnAt(next.value, items[1..], k - 1);
        }
        if k :| 0 <= k < |items| - 1 && OverdrawnAt(next.value, items[1..], k) {
          assert OverdrawnAt(s, items, k + 1);
        }
      }
    }
  }

  /** The end-of-block code of n bits, wherever the input ends: it is accepted exactly if it fits
      into the real bits together with the zeros that stbi__fill_bits supplies before it is read. */
  lemma EndOfBlock(s: Supply, n: nat)
    requires Sound(s) && 1 <= n <= MAX_BITS
    ensures Through(s, [Symbol(n), Finish]).Some? <==> s.pos + n <= Ready(s).loaded
  {
    ThroughTwo(s, Symbol(n), Finish);
  }

  predicate OverdrawnAt(s: Supply, items: seq<Item>, k: nat)
    requires k < |items|
  {
    && (items[k].Symbol? || items[k].Finish?)
    && Through(s, items[..k]).Some?
    && s.pos + Needs(items[..k]) > Through(s, items[..k]).value.loaded
  }
}
