/**
 The lock word of the queued spinlock: bit 0 is the locked bit, bit 1 the pending bit, and
 bits 2 to 17 hold the id of the last queued node plus one.  The bit expressions work on
 32-bit words; the protocol uses the numbers that the words stand for, and the lemmas show
 that the two agree.
 */
module QspinWord {
  import opened LockTypes

  // ------------------------------------------------------------------------------------
  // Bit expressions on 32-bit words
  // ------------------------------------------------------------------------------------

  function LockedBits(w: bv32): bv32 { w & 0x1 }

  function PendingBits(w: bv32): bv32 { (w >> 1) & 0x1 }

  function TailBits(w: bv32): bv32 { (w >> 2) & 0xFFFF }

  function SetTailBits(w: bv32, tail: bv32): bv32 { (w & 0x3) | (tail << 2) }

  /** Setting the tail keeps the two flags and is read back, for every word and every tail that fits. */
  lemma TailBitsRoundTrip(w: bv32, tail: bv32)
    requires tail <= 0xFFFF
    ensures TailBits(SetTailBits(w, tail)) == tail
    ensures LockedBits(SetTailBits(w, tail)) == LockedBits(w)
    ensures PendingBits(SetTailBits(w, tail)) == PendingBits(w)
    ensures SetTailBits(SetTailBits(w, 0xFFFF), tail) == SetTailBits(w, tail)
  {
  }

  // ------------------------------------------------------------------------------------
  // The same on numbers
  // ------------------------------------------------------------------------------------

  function Locked(w: nat): nat { w % 2 }

  function Pending(w: nat): nat { w / 2 % 2 }

  function TailIdx(w: nat): nat { w / 4 % 0x1_0000 }

  function SetTail(w: nat, tail: nat): nat { w % 4 + 4 * tail }

  function TailToNode(tail: nat): NodeId { if tail == 0 then INVALID_NODE_ID else tail - 1 }

  function NodeToTail(n: NodeId): nat { n + 1 }

  /** The word of a lock that node `n` holds and whose queue ends at `n`. */
  function HeldBy(n: NodeId): nat { 4 * NodeToTail(n) + 1 }

  function Bit(w: bv32): nat { if w & 1 == 1 then 1 else 0 }

  /** The number a word stands for, bit by bit. */
  function Value(w: bv32): nat
    decreases w
  {
    if w == 0 then 0
    else
      assert w >> 1 < w;
      Bit(w) + 2 * Value(w >> 1)
  }

  lemma ValueStep(w: bv32)
    ensures Value(w) == Bit(w) + 2 * Value(w >> 1)
  {
    if w == 0 {
      assert w >> 1 == 0;
    }
  }

  /** The low bit of a word is the remainder of its number by two, and the other bits are the half. */
  lemma ValueBitByBit(w: bv32)
    ensures Value(w) % 2 == (if w & 1 == 1 then 1 else 0) && Value(w) / 2 == Value(w >> 1)
    ensures Value(0) == 0
  {
    ValueStep(w);
  }

  function Power(k: nat): nat { if k == 0 then 1 else 2 * Power(k - 1) }

  function Mask(k: nat): bv32 { if k == 0 then 0 else (Mask(k - 1) << 1) | 1 }

  lemma {:induction false} PowerPositive(k: nat)
    ensures Power(k) > 0
  {
    if k > 0 { PowerPositive(k - 1); }
  }

  lemma MaskedBits(w: bv32, m: bv32)
    ensures (w & ((m << 1) | 1)) & 1 == w & 1
    ensures (w & ((m << 1) | 1)) >> 1 == (w >> 1) & m
  {
  }

  lemma MaskedStep(w: bv32, m: bv32, p: nat)
    requires Masks(w >> 1, m, p)
    ensures Masks(w, (m << 1) | 1, 2 * p)
  {
    var u := w & ((m << 1) | 1);
    MaskedBits(w, m);
    ValueStep(u);
    ValueStep(w);
    RemainderStep(Bit(w), Value(w >> 1), p);
  }

  /** `p` is the power of two that belongs to the mask `m`. */
  predicate Masks(w: bv32, m: bv32, p: nat)
  {
    p > 0 && Value(w & m) == Value(w) % p
  }

  /** Keeping the low bits is the remainder. */
  lemma {:induction false} ValueOfMasked(w: bv32, k: nat)
    ensures Masks(w, Mask(k), Power(k))
  {
    PowerPositive(k);
    if k == 0 {
      AndNothing(w);
    } else {
      ValueOfMasked(w >> 1, k - 1);
      MaskedStep(w, Mask(k - 1), Power(k - 1));
    }
  }

  lemma AndNothing(w: bv32)
    ensures Masks(w, 0, 1)
  {
    assert w & 0 == 0;
  }

  lemma RemainderStep(b: nat, v: nat, p: nat)
    requires b < 2 && p > 0
    ensures (b + 2 * v) % (2 * p) == b + 2 * (v % p)
  {
    var q, r := v / p, v % p;
    assert v == q * p + r;
    assert b + 2 * v == q * (2 * p) + (b + 2 * r);
    assert 0 <= b + 2 * r < 2 * p;
    RemainderIsUnique(b + 2 * v, q, b + 2 * r, 2 * p);
  }

  lemma RemainderIsUnique(x: nat, q: nat, r: nat, m: nat)
    requires r < m && x == q * m + r
    ensures x % m == r
  {
    var d := x / m - q;
    assert d * m + x % m == r;
    assert d == 0;
  }

  lemma SetTailParts(w: bv32, tail: bv32)
    requires tail <= 0xFFFF
    ensures var u := SetTailBits(w, tail);
            u & 1 == w & 1 && (u >> 1) & 1 == (w >> 1) & 1 && (u >> 1) >> 1 == tail
  {
  }

  lemma ShiftTwice(w: bv32)
    ensures (w >> 1) >> 1 == w >> 2
  {
  }

  lemma DropBits(b: nat, c: nat, v: nat)
    requires b < 2 && c < 2
    ensures var w := b + 2 * (c + 2 * v); w % 2 == b && w / 2 == c + 2 * v && w / 4 == v && w % 4 == b + 2 * c
    ensures (c + 2 * v) % 2 == c
  {
  }

  lemma FlagsAgree(w: bv32)
    ensures Value(LockedBits(w)) == Locked(Value(w))
    ensures Value(PendingBits(w)) == Pending(Value(w))
  {
    MaskOf16();
    ValueBitByBit(w);
    ValueOfMasked(w, 1);
    ValueOfMasked(w >> 1, 1);
  }

  lemma TailsAgree(w: bv32)
    ensures Value(TailBits(w)) == TailIdx(Value(w))
  {
    MaskOf16();
    ValueStep(w);
    ValueStep(w >> 1);
    ShiftTwice(w);
    DropBits(Bit(w), Bit(w >> 1), Value((w >> 1) >> 1));
    ValueOfMasked(w >> 2, 16);
  }

  /** Two words with the same flags; the rest of `u` is `tail`. */
  lemma SameFlags(u: bv32, w: bv32, tail: bv32)
    requires Bit(u) == Bit(w) && Bit(u >> 1) == Bit(w >> 1) && (u >> 1) >> 1 == tail
    ensures Value(u) == SetTail(Value(w), Value(tail))
  {
    ValueStep(u);
    ValueStep(u >> 1);
    ValueStep(w);
    ValueStep(w >> 1);
    DropBits(Bit(w), Bit(w >> 1), Value((w >> 1) >> 1));
  }

  lemma UpdatesAgree(w: bv32, tail: bv32)
    requires tail <= 0xFFFF
    ensures Value(SetTailBits(w, tail)) == SetTail(Value(w), Value(tail))
  {
    SetTailParts(w, tail);
    SameFlags(SetTailBits(w, tail), w, tail);
  }

  /** The expressions on numbers are the bit expressions. */
  lemma BitsAgree(w: bv32, tail: bv32)
    requires tail <= 0xFFFF
    ensures Value(LockedBits(w)) == Locked(Value(w))
    ensures Value(PendingBits(w)) == Pending(Value(w))
    ensures Value(TailBits(w)) == TailIdx(Value(w))
    ensures Value(SetTailBits(w, tail)) == SetTail(Value(w), Value(tail))
  {
    FlagsAgree(w);
    TailsAgree(w);
    UpdatesAgree(w, tail);
  }

  lemma MaskOf16()
    ensures Mask(1) == 1 && Power(1) == 2 && Mask(16) == 0xFFFF && Power(16) == 0x1_0000
  {
    assert Mask(4) == 0xF && Power(4) == 16;
    assert Mask(8) == 0xFF && Power(8) == 256;
    assert Mask(12) == 0xFFF && Power(12) == 4096;
  }

  /** The tail in a word is read back, and the flags stay. */
  lemma TailRoundTrip(w: nat, tail: nat)
    requires tail < 0x1_0000
    ensures TailIdx(SetTail(w, tail)) == tail
    ensures Locked(SetTail(w, tail)) == Locked(w) && Pending(SetTail(w, tail)) == Pending(w)
  {
    DropBits(w % 2, w / 2 % 2, tail);
    DropBits(w % 2, w / 2 % 2, w / 4);
  }

  /** A word that names a node and whose pending bit is clear consists of its parts. */
  lemma HeldWord(n: NodeId)
    requires n < 0xFFFF
    ensures TailToNode(TailIdx(HeldBy(n))) == n && Locked(HeldBy(n)) == 1 && Pending(HeldBy(n)) == 0
  {
    DropBits(1, 0, n + 1);
    assert HeldBy(n) == 1 + 2 * (0 + 2 * (n + 1)) && HeldBy(n) / 4 == n + 1;
  }
}
