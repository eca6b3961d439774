// Positions and slots of a ring: capacities that are powers of two, and positions that
// grow for ever while the slot is picked with a mask.
module RingSlots {

  import opened Binary

  /** std::bit_ceil: the least power of two that is no less than n. */
  function BitCeil(n: nat): (p: nat)
    ensures p >= n && exists k: nat :: p == Pow2(k)
    ensures n >= 2 ==> p >= 2 && p / 2 < n
    ensures n <= 1 ==> p == 1
  {
    if n <= 1 then assert Pow2(0) == 1; 1
    else
      var half := BitCeil((n + 1) / 2);
      assert exists k: nat :: 2 * half == Pow2(k) by {
        var k: nat :| half == Pow2(k);
        assert Pow2(k + 1) == 2 * half;
      }
      2 * half
  }

  /** pos modulo size. */
  function Slot(pos: nat, size: nat): (i: nat)
    requires 1 <= size
    ensures i < size
  {
    if pos < size then pos else Slot(pos - size, size)
  }

  /** Two positions less than a ring apart never share a slot. */
  lemma {:induction false} SlotUnique(p: nat, q: nat, size: nat)
    requires 1 <= size && p < q < p + size
    ensures Slot(p, size) != Slot(q, size)
    decreases q
  {
    if p >= size {
      SlotUnique(p - size, q - size, size);
    }
  }

  lemma {:induction false} SlotRepeats(p: nat, size: nat)
    requires 1 <= size
    ensures Slot(p + size, size) == Slot(p, size)
  {
  }

  /** Every slot is met by one of the positions [from, from + size). */
  lemma SlotWindow(pos: nat, from: nat, size: nat) returns (p: nat)
    requires 1 <= size
    ensures from <= p < from + size && Slot(p, size) == Slot(pos, size)
    ensures from <= pos ==> p <= pos
    ensures pos < from ==> pos + size <= p
    ensures from <= pos < from + size ==> p == pos
    ensures from + size <= pos ==> p + size <= pos
    decreases if pos < from then 1 else 0, if pos < from then from - pos else pos - from
  {
    if pos < from {
      SlotRepeats(pos, size);
      p := SlotWindow(pos + size, from, size);
    } else if pos >= from + size {
      SlotRepeats(pos - size, size);
      p := SlotWindow(pos - size, from, size);
    } else {
      p := pos;
    }
  }

  /** A store into the slot of one position of the window leaves the others' slots alone. */
  lemma OtherSlots(pos: nat, from: nat, size: nat)
    requires 1 <= size && from <= pos < from + size
    ensures forall p :: from <= p < from + size && p != pos ==> Slot(p, size) != Slot(pos, size)
  {
    forall p | from <= p < from + size && p != pos ensures Slot(p, size) != Slot(pos, size) {
      if p < pos { SlotUnique(p, pos, size); } else { SlotUnique(pos, p, size); }
    }
  }

  lemma {:induction false} SlotHalves(pos: nat, size: nat)
    requires 1 <= size
    ensures Slot(pos, 2 * size) == 2 * Slot(pos / 2, size) + pos % 2
    decreases pos
  {
    if pos >= 2 * size {
      SlotHalves(pos - 2 * size, size);
      assert (pos - 2 * size) / 2 == pos / 2 - size;
    }
  }

  /** pos & m_mask is the slot of pos, because the capacity is a power of two. */
  lemma {:induction false} MaskPicksSlot(pos: nat, k: nat)
    ensures BitAnd(pos, Pow2(k) - 1) == Slot(pos, Pow2(k))
    decreases k
  {
    if k == 0 {
      SlotOfOne(pos);
    } else {
      SlotHalves(pos, Pow2(k - 1));
      MaskPicksSlot(pos / 2, k - 1);
      assert (Pow2(k) - 1) / 2 == Pow2(k - 1) - 1 && (Pow2(k) - 1) % 2 == 1;
    }
  }

  lemma {:induction false} SlotOfOne(pos: nat)
    ensures Slot(pos, 1) == 0
  {
    if pos >= 1 { SlotOfOne(pos - 1); }
  }
}
