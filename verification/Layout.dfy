/**
 Where the records of the algorithms lie in shared memory.  Offsets are in bytes from the
 start of the region; a state that starts at `base` occupies its state size from there.
 The memory itself is a sequence of 32-bit words, one at every fourth byte.
 */
module Layout {
  import opened LockTypes
  import opened McsProtocol
  import TwoTier = TwoTierProtocol

  const WORD: nat := 4
  const LINE: nat := 64

  // ------------------------------------------------------------------------------------
  // Offsets
  // ------------------------------------------------------------------------------------

  function SlotOffset(l: LockId, n: NodeId, nodeCount: nat, base: nat): nat
  {
    base + l * nodeCount * WORD + n * WORD
  }

  function SlotStateSize(nodeCount: nat): nat
  {
    MAX_LOCK_COUNT * nodeCount * WORD
  }

  /** MCS, ticket and queued spinlock: one cache line per lock, then one per node. */
  function EntryOffset(l: LockId, base: nat): nat
  {
    base + l * LINE
  }

  function NodeOffset(n: NodeId, base: nat): nat
  {
    base + MAX_LOCK_COUNT * LINE + n * LINE
  }

  function LineStateSize(nodeCount: nat): nat
  {
    MAX_LOCK_COUNT * LINE + nodeCount * LINE
  }

  predicate Apart(a: nat, b: nat, size: nat)
  {
    a + size <= b || b + size <= a
  }

  lemma ProductGrows(a: nat, b: nat, m: nat)
    requires a < b
    ensures a * m + m <= b * m
  {
    assert (b - a) * m == b * m - a * m;
    assert (b - a - 1) * m >= 0;
  }

  /** Row and column are determined by the index. */
  lemma IndexIsUnique(l: nat, n: nat, k: nat, m: nat, width: nat)
    requires n < width && m < width
    ensures l * width + n == k * width + m <==> l == k && n == m
  {
    if l < k { ProductGrows(l, k, width); }
    if k < l { ProductGrows(k, l, width); }
  }

  /** Every index of a table is some row and column of it. */
  lemma RowAndColumn(i: nat, height: nat, width: nat)
    requires i < height * width
    ensures 0 < width && i / width < height && i / width * width + i % width == i
  {
    if i / width > height { ProductGrows(height, i / width, width); }
  }

  lemma SlotOffsetIsIndex(l: LockId, n: NodeId, nodeCount: nat, base: nat)
    ensures SlotOffset(l, n, nodeCount, base) == base + (l * nodeCount + n) * WORD
  {
  }

  /** Slots lie inside the state and different slots do not overlap. */
  lemma SlotsAreApart(l: LockId, n: NodeId, k: LockId, m: NodeId, nodeCount: nat, base: nat)
    requires l < MAX_LOCK_COUNT && k < MAX_LOCK_COUNT && n < nodeCount && m < nodeCount
    ensures SlotOffset(l, n, nodeCount, base) == base + 4 * (l * nodeCount + n)
    ensures base <= SlotOffset(l, n, nodeCount, base) <= base + SlotStateSize(nodeCount) - WORD
    ensures (l, n) != (k, m) <==> Apart(SlotOffset(l, n, nodeCount, base), SlotOffset(k, m, nodeCount, base), WORD)
  {
    SlotOffsetIsIndex(l, n, nodeCount, base);
    SlotOffsetIsIndex(k, m, nodeCount, base);
    IndexIsUnique(l, n, k, m, nodeCount);
    ProductGrows(l, MAX_LOCK_COUNT, nodeCount);
  }

  /** The lines of the locks and of the nodes lie inside the state and do not overlap. */
  lemma LinesAreApart(l: LockId, k: LockId, n: NodeId, m: NodeId, nodeCount: nat, base: nat)
    requires l < MAX_LOCK_COUNT && k < MAX_LOCK_COUNT && n < nodeCount && m < nodeCount
    ensures EntryOffset(l, base) == base + 64 * l && NodeOffset(n, base) == base + 64 * (MAX_LOCK_COUNT + n)
    ensures base <= EntryOffset(l, base) <= base + LineStateSize(nodeCount) - LINE
    ensures base <= NodeOffset(n, base) <= base + LineStateSize(nodeCount) - LINE
    ensures l != k <==> Apart(EntryOffset(l, base), EntryOffset(k, base), LINE)
    ensures n != m <==> Apart(NodeOffset(n, base), NodeOffset(m, base), LINE)
    ensures Apart(EntryOffset(l, base), NodeOffset(n, base), LINE)
  {
  }

  /** The width with which a client lays out the slots: without a node count it takes the number of locks. */
  function ClientWidth(nodeCount: nat, maxLocks: nat): nat
  {
    if nodeCount > 0 then nodeCount else maxLocks
  }

  /**
   A client and the manager mean the same slots exactly if they start at the same place
   and the client's width is the manager's node count.
   */
  lemma SameSlotsExactlyIfSameWidth(nodeCount: nat, maxLocks: nat, base: nat, managerWidth: nat, managerBase: nat)
    requires 0 < maxLocks <= MAX_LOCK_COUNT
    ensures (forall l, n :: 0 <= l < MAX_LOCK_COUNT && 0 <= n < ClientWidth(nodeCount, maxLocks) ==>
               SlotOffset(l, n, ClientWidth(nodeCount, maxLocks), base) == SlotOffset(l, n, managerWidth, managerBase))
            <==> base == managerBase && managerWidth == (if nodeCount == 0 then maxLocks else nodeCount)
  {
    var width := ClientWidth(nodeCount, maxLocks);
    if forall l, n :: 0 <= l < MAX_LOCK_COUNT && 0 <= n < width ==>
        SlotOffset(l, n, width, base) == SlotOffset(l, n, managerWidth, managerBase) {
      assert SlotOffset(0, 0, width, base) == SlotOffset(0, 0, managerWidth, managerBase);
      assert SlotOffset(1, 0, width, base) == SlotOffset(1, 0, managerWidth, managerBase);
    }
  }

  // ------------------------------------------------------------------------------------
  // The slots of the CAS lock in memory
  // ------------------------------------------------------------------------------------

  type Words = seq<nat>

  function Code(v: TwoTier.Slot): nat
  {
    match v case SlotIdle => 0 case SlotWaiting => 1 case SlotLocked => 2
  }

  function Decode(w: nat): TwoTier.Slot
  {
    if w == 1 then TwoTier.SlotWaiting else if w == 2 then TwoTier.SlotLocked else TwoTier.SlotIdle
  }

  /** The word at a byte offset. */
  function WordAt(offset: nat): nat
  {
    offset / WORD
  }

  predicate HoldsSlots(mem: Words, nodeCount: nat, base: nat)
  {
    base % WORD == 0 && base + SlotStateSize(nodeCount) <= |mem| * WORD
  }

  lemma SlotWord(l: LockId, n: NodeId, nodeCount: nat, base: nat)
    requires l < MAX_LOCK_COUNT && n < nodeCount && base % WORD == 0
    ensures WordAt(SlotOffset(l, n, nodeCount, base)) == base / WORD + l * nodeCount + n
    ensures WordAt(SlotOffset(l, n, nodeCount, base)) < (base + SlotStateSize(nodeCount)) / WORD
  {
    SlotOffsetIsIndex(l, n, nodeCount, base);
    ProductGrows(l, MAX_LOCK_COUNT, nodeCount);
    var i := l * nodeCount + n;
    assert base == base / WORD * WORD;
    assert SlotOffset(l, n, nodeCount, base) == (base / WORD + i) * WORD;
    assert i < MAX_LOCK_COUNT * nodeCount;
    assert base + SlotStateSize(nodeCount) == (base / WORD + MAX_LOCK_COUNT * nodeCount) * WORD;
  }

  function ReadSlot(mem: Words, l: LockId, n: NodeId, nodeCount: nat, base: nat): TwoTier.Slot
    requires HoldsSlots(mem, nodeCount, base) && l < MAX_LOCK_COUNT && n < nodeCount
  {
    SlotWord(l, n, nodeCount, base);
    Decode(mem[WordAt(SlotOffset(l, n, nodeCount, base))])
  }

  /** The slots as the protocol sees them. */
  function Slots(mem: Words, nodeCount: nat, base: nat): seq<seq<TwoTier.Slot>>
    requires HoldsSlots(mem, nodeCount, base)
  {
    seq(MAX_LOCK_COUNT, l requires 0 <= l < MAX_LOCK_COUNT =>
      seq(nodeCount, n requires 0 <= n < nodeCount => ReadSlot(mem, l, n, nodeCount, base)))
  }

  /** The slot with a given index, counted row by row. */
  function SlotAt(mem: Words, i: nat, nodeCount: nat, base: nat): TwoTier.Slot
    requires HoldsSlots(mem, nodeCount, base) && i < MAX_LOCK_COUNT * nodeCount
  {
    RowAndColumn(i, MAX_LOCK_COUNT, nodeCount);
    Slots(mem, nodeCount, base)[i / nodeCount][i % nodeCount]
  }

  /** Storing one word of the slots changes how that slot reads, and no other. */
  lemma ReadAfterStore(mem: Words, l: LockId, n: NodeId, v: TwoTier.Slot, k: LockId, m: NodeId, nodeCount: nat, base: nat)
    requires HoldsSlots(mem, nodeCount, base) && l < MAX_LOCK_COUNT && n < nodeCount && k < MAX_LOCK_COUNT
    requires m < nodeCount
    ensures WordAt(SlotOffset(l, n, nodeCount, base)) < |mem|
    ensures ReadSlot(mem[WordAt(SlotOffset(l, n, nodeCount, base)) := Code(v)], k, m, nodeCount, base)
            == if k == l && m == n then v else ReadSlot(mem, k, m, nodeCount, base)
  {
    SlotWord(l, n, nodeCount, base);
    SlotWord(k, m, nodeCount, base);
    IndexIsUnique(l, n, k, m, nodeCount);
  }

  /** One row of the slots after the store. */
  lemma RowAfterStore(mem: Words, l: LockId, n: NodeId, v: TwoTier.Slot, k: LockId, nodeCount: nat, base: nat)
    requires HoldsSlots(mem, nodeCount, base) && l < MAX_LOCK_COUNT && n < nodeCount && k < MAX_LOCK_COUNT
    ensures WordAt(SlotOffset(l, n, nodeCount, base)) < |mem|
    ensures var s := Slots(mem, nodeCount, base);
            Slots(mem[WordAt(SlotOffset(l, n, nodeCount, base)) := Code(v)], nodeCount, base)[k] == if k == l then s[l][n := v] else s[k]
  {
    SlotWord(l, n, nodeCount, base);
    forall m | 0 <= m < nodeCount
      ensures ReadSlot(mem[WordAt(SlotOffset(l, n, nodeCount, base)) := Code(v)], k, m, nodeCount, base)
              == if k == l && m == n then v else ReadSlot(mem, k, m, nodeCount, base)
    {
      ReadAfterStore(mem, l, n, v, k, m, nodeCount, base);
    }
  }

  /** Storing one word of the slots changes one slot of the protocol, and no word elsewhere. */
  lemma SlotStoreIsSlotUpdate(mem: Words, l: LockId, n: NodeId, v: TwoTier.Slot, nodeCount: nat, base: nat)
    requires HoldsSlots(mem, nodeCount, base) && l < MAX_LOCK_COUNT && n < nodeCount
    ensures WordAt(SlotOffset(l, n, nodeCount, base)) < |mem|
    ensures var s := Slots(mem, nodeCount, base);
            Slots(mem[WordAt(SlotOffset(l, n, nodeCount, base)) := Code(v)], nodeCount, base) == s[l := s[l][n := v]]
    ensures base / WORD <= WordAt(SlotOffset(l, n, nodeCount, base)) < (base + SlotStateSize(nodeCount)) / WORD
  {
    SlotWord(l, n, nodeCount, base);
    var s := Slots(mem, nodeCount, base);
    var t := Slots(mem[WordAt(SlotOffset(l, n, nodeCount, base)) := Code(v)], nodeCount, base);
    forall k | 0 <= k < MAX_LOCK_COUNT ensures t[k] == s[l := s[l][n := v]][k] {
      RowAfterStore(mem, l, n, v, k, nodeCount, base);
    }
  }

  /** The memory of one process: a store of a slot, and the load of the poll. */
  class SlotMemory {
    const words: array<nat>
    const nodeCount: nat
    const base: nat

    predicate Valid()
      reads words
    {
      HoldsSlots(words[..], nodeCount, base)
    }

    /** `initialize`: the state is cleared; with that every slot is idle. */
    constructor (size: nat, nodes: nat, start: nat)
      requires start % WORD == 0 && start + SlotStateSize(nodes) <= size * WORD
      ensures Valid() && nodeCount == nodes && base == start && fresh(words)
      ensures Slots(words[..], nodes, start) == seq(MAX_LOCK_COUNT, _ => seq(nodes, _ => TwoTier.SlotIdle))
    {
      words := new nat[size](_ => 0);
      nodeCount, base := nodes, start;
      new;
      assert HoldsSlots(words[..], nodes, start);
      var s := Slots(words[..], nodes, start);
      forall l | 0 <= l < MAX_LOCK_COUNT ensures s[l] == seq(nodes, _ => TwoTier.SlotIdle) {
      }
    }

    method WriteSlotState(l: LockId, n: NodeId, v: TwoTier.Slot)
      requires Valid() && l < MAX_LOCK_COUNT && n < nodeCount
      modifies words
      ensures Valid()
      ensures var s := old(Slots(words[..], nodeCount, base));
              Slots(words[..], nodeCount, base) == s[l := s[l][n := v]]
      ensures var i := WordAt(base + 4 * (l * nodeCount + n));
              i < words.Length && words[i] == if v.SlotIdle? then 0 else if v.SlotWaiting? then 1 else 2
      ensures forall i :: 0 <= i < words.Length && !(base <= i * WORD < base + SlotStateSize(nodeCount)) ==>
                words[i] == old(words[i])
    {
      SlotStoreIsSlotUpdate(words[..], l, n, v, nodeCount, base);
      SlotOffsetIsIndex(l, n, nodeCount, base);
      var offset := SlotOffset(l, n, nodeCount, base);
      words[WordAt(offset)] := Code(v);
      assert words[..] == old(words[..])[WordAt(offset) := Code(v)];
    }

    /**
     The load of `poll_for_grant`, at the address that the client computes with its own
     width.  Within the state that is the slot with the same index in the manager's layout,
     and the client's own slot if the widths agree.
     */
    method PollSlot(l: LockId, n: NodeId, clientWidth: nat) returns (granted: bool)
      requires Valid() && SlotOffset(l, n, clientWidth, base) < words.Length * WORD
      ensures l * clientWidth + n < MAX_LOCK_COUNT * nodeCount ==>
                (granted <==> SlotAt(words[..], l * clientWidth + n, nodeCount, base) == TwoTier.SlotLocked)
      ensures clientWidth == nodeCount && l < MAX_LOCK_COUNT && n < nodeCount ==>
                (granted <==> Slots(words[..], nodeCount, base)[l][n] == TwoTier.SlotLocked)
    {
      SlotOffsetIsIndex(l, n, clientWidth, base);
      granted := words[WordAt(base + l * clientWidth * WORD + n * WORD)] == Code(TwoTier.SlotLocked);
      if l * clientWidth + n < MAX_LOCK_COUNT * nodeCount {
        RowAndColumn(l * clientWidth + n, MAX_LOCK_COUNT, nodeCount);
        SlotWord((l * clientWidth + n) / nodeCount, (l * clientWidth + n) % nodeCount, nodeCount, base);
      }
      if clientWidth == nodeCount && l < MAX_LOCK_COUNT && n < nodeCount {
        SlotWord(l, n, nodeCount, base);
      }
    }
  }

  // ------------------------------------------------------------------------------------
  // The records of the MCS lock in memory
  // ------------------------------------------------------------------------------------

  datatype Field = EntryField(l: LockId, f: nat) | NodeField(n: NodeId, f: nat)

  /** The fields of a record are its first words. */
  function FieldOffset(fd: Field, base: nat): nat
  {
    (if fd.EntryField? then EntryOffset(fd.l, base) else NodeOffset(fd.n, base)) + fd.f * WORD
  }

  predicate IsField(fd: Field, nodeCount: nat)
  {
    fd.f < LINE / WORD && if fd.EntryField? then fd.l < MAX_LOCK_COUNT else fd.n < nodeCount
  }

  predicate HoldsLines(mem: Words, nodeCount: nat, base: nat)
  {
    base % WORD == 0 && base + LineStateSize(nodeCount) <= |mem| * WORD
  }

  /** The lines in a row: first those of the locks, then those of the nodes. */
  function LineOf(fd: Field): nat
  {
    if fd.EntryField? then fd.l else MAX_LOCK_COUNT + fd.n
  }

  lemma FieldWord(fd: Field, base: nat)
    requires base % WORD == 0 && fd.f < LINE / WORD
    ensures FieldOffset(fd, base) == (base / WORD + LineOf(fd) * 16 + fd.f) * WORD
    ensures WordAt(FieldOffset(fd, base)) == base / WORD + LineOf(fd) * 16 + fd.f
  {
  }

  /** Different fields are different words, all inside the state. */
  lemma FieldsAreApart(a: Field, b: Field, nodeCount: nat, base: nat)
    requires IsField(a, nodeCount) && IsField(b, nodeCount) && base % WORD == 0
    ensures a == b <==> WordAt(FieldOffset(a, base)) == WordAt(FieldOffset(b, base))
    ensures base / WORD <= WordAt(FieldOffset(a, base)) < (base + LineStateSize(nodeCount)) / WORD
    ensures FieldOffset(a, base) == base + (if a.EntryField? then 64 * a.l else 64 * (MAX_LOCK_COUNT + a.n)) + 4 * a.f
    ensures FieldOffset(a, base) % WORD == 0
  {
    FieldWord(a, base);
    FieldWord(b, base);
    assert (base + LineStateSize(nodeCount)) / WORD == base / WORD + (MAX_LOCK_COUNT + nodeCount) * 16;
  }

  function Load(mem: Words, fd: Field, nodeCount: nat, base: nat): nat
    requires HoldsLines(mem, nodeCount, base) && IsField(fd, nodeCount)
  {
    FieldsAreApart(fd, fd, nodeCount, base);
    mem[WordAt(FieldOffset(fd, base))]
  }

  function Store(mem: Words, fd: Field, v: nat, nodeCount: nat, base: nat): (r: Words)
    requires HoldsLines(mem, nodeCount, base) && IsField(fd, nodeCount)
    ensures HoldsLines(r, nodeCount, base)
  {
    mem[WordAt(FieldOffset(fd, base)) := v]
  }

  lemma LoadAfterStore(mem: Words, a: Field, v: nat, b: Field, nodeCount: nat, base: nat)
    requires HoldsLines(mem, nodeCount, base) && IsField(a, nodeCount) && IsField(b, nodeCount)
    ensures Load(Store(mem, a, v, nodeCount, base), b, nodeCount, base) == if a == b then v
            else Load(mem, b, nodeCount, base)
  {
    FieldsAreApart(a, b, nodeCount, base);
  }

  function EntryAt(mem: Words, l: LockId, nodeCount: nat, base: nat): McsLockEntry
    requires HoldsLines(mem, nodeCount, base) && l < MAX_LOCK_COUNT
  {
    McsLockEntry(Load(mem, EntryField(l, 0), nodeCount, base), Load(mem, EntryField(l, 1), nodeCount, base),
                 Load(mem, EntryField(l, 2), nodeCount, base))
  }

  function NodeAt(mem: Words, n: NodeId, nodeCount: nat, base: nat): McsNode
    requires HoldsLines(mem, nodeCount, base) && n < nodeCount
  {
    McsNode(Load(mem, NodeField(n, 0), nodeCount, base), Load(mem, NodeField(n, 1), nodeCount, base),
            Load(mem, NodeField(n, 2), nodeCount, base))
  }

  /** Storing one word changes that field of that record of the protocol, and no other record. */
  lemma FieldStoreIsRecordUpdate(mem: Words, fd: Field, v: nat, l: LockId, n: NodeId, nodeCount: nat, base: nat)
    requires HoldsLines(mem, nodeCount, base) && IsField(fd, nodeCount) && l < MAX_LOCK_COUNT && n < nodeCount
    ensures var mem', e := Store(mem, fd, v, nodeCount, base), EntryAt(mem, l, nodeCount, base);
            EntryAt(mem', l, nodeCount, base)
            == if !(fd.EntryField? && fd.l == l) then e
               else if fd.f == 0 then e.(tail := v) else if fd.f == 1 then e.(head := v)
                 else if fd.f == 2 then e.(owner := v) else e
    ensures var mem', r := Store(mem, fd, v, nodeCount, base), NodeAt(mem, n, nodeCount, base);
            NodeAt(mem', n, nodeCount, base)
            == if !(fd.NodeField? && fd.n == n) then r
               else if fd.f == 0 then r.(next := v) else if fd.f == 1 then r.(locked := v)
                 else if fd.f == 2 then r.(waiting := v) else r
  {
    LoadAfterStore(mem, fd, v, EntryField(l, 0), nodeCount, base);
    LoadAfterStore(mem, fd, v, EntryField(l, 1), nodeCount, base);
    LoadAfterStore(mem, fd, v, EntryField(l, 2), nodeCount, base);
    LoadAfterStore(mem, fd, v, NodeField(n, 0), nodeCount, base);
    LoadAfterStore(mem, fd, v, NodeField(n, 1), nodeCount, base);
    LoadAfterStore(mem, fd, v, NodeField(n, 2), nodeCount, base);
  }
}
