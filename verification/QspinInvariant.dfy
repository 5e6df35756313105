/** The invariant of the queued spinlock, kept by every step. */
module QspinInvariant {
  import opened LockTypes
  import opened QspinWord
  import opened QspinProtocol

  /** `m` waits for lock `l` behind somebody, or is the first that waits. */
  predicate Waits(s: State, m: NodeId, l: LockId)
    requires Shaped(s)
  {
    m < |s.pc| && s.pc[m] == Inside(l) && s.nodes[m].locked == 1
  }

  predicate Points(s: State, p: NodeId, m: NodeId)
    requires Shaped(s) && p < |s.pc|
  {
    s.nodes[p].next == m
  }

  predicate HasPred(s: State, m: NodeId)
    requires Shaped(s)
  {
    exists p :: 0 <= p < |s.pc| && Points(s, p, m)
  }

  predicate OnePred(s: State, m: NodeId)
    requires Shaped(s)
  {
    forall p, q :: 0 <= p < |s.pc| && 0 <= q < |s.pc| && Points(s, p, m) && Points(s, q, m) ==> p == q
  }

  predicate NodeInv(s: State, n: NodeId)
    requires Shaped(s) && n < |s.pc|
  {
    var nd, p := s.nodes[n], s.pc[n];
    if p.Outside? then nd == FREE_NODE
    else if !p.Inside? then nd == Node(INVALID_NODE_ID, 1, p.l)
    else
      && nd.waiting == p.l
      && nd.locked == (if s.entries[p.l].owner == n then 2 else 1)
      && nd.next != n && (nd.next != INVALID_NODE_ID ==> Waits(s, nd.next, p.l))
  }

  function Tail(s: State, l: LockId): NodeId
    requires Shaped(s) && l < |s.entries|
  {
    TailToNode(TailIdx(s.entries[l].word))
  }

  predicate IsHeld(s: State, l: LockId)
    requires Shaped(s) && l < |s.entries|
  {
    Locked(s.entries[l].word) == 1
  }

  /** The word consists of the locked bit and a tail that is no node or a node inside. */
  predicate WordInv(s: State, l: LockId)
    requires Shaped(s) && l < |s.entries|
  {
    var w := s.entries[l].word;
    && w == 4 * TailIdx(w) + Locked(w)
    && (TailIdx(w) != 0 ==> Tail(s, l) < |s.pc| && s.pc[Tail(s, l)] == Inside(l))
    && (IsHeld(s, l) ==> TailIdx(w) != 0)
    && !s.entries[l].granting
  }

  /** The locked bit is set exactly while there is an owner, and a holder without successor is the tail. */
  predicate OwnerInv(s: State, l: LockId)
    requires Shaped(s) && l < |s.entries|
  {
    var h := s.entries[l].owner;
    if IsHeld(s, l) then h < |s.pc| && s.pc[h] == Inside(l) && (s.nodes[h].next == INVALID_NODE_ID ==> Tail(s, l) == h)
    else h == INVALID_NODE_ID
  }

  /** A tail that does not hold has no successor and is not lost. */
  predicate TailInv(s: State, l: LockId)
    requires Shaped(s) && l < |s.entries|
  {
    var e, t := s.entries[l], Tail(s, l);
    t < |s.pc| && t != e.owner ==>
      && s.nodes[t].next == INVALID_NODE_ID
      && (HasPred(s, t) || (!IsHeld(s, l) && e.pending == t))
  }

  /** Where nobody holds but somebody queues, the manager finds a first waiter; a free lock has none. */
  predicate RescueInv(s: State, l: LockId)
    requires Shaped(s) && l < |s.entries|
  {
    var e := s.entries[l];
    !IsHeld(s, l) ==>
      if TailIdx(e.word) != 0 then Waits(s, e.pending, l) && !HasPred(s, e.pending) else e.pending == INVALID_NODE_ID
  }

  predicate EntryInv(s: State, l: LockId)
    requires Shaped(s) && l < |s.entries|
  {
    WordInv(s, l) && OwnerInv(s, l) && TailInv(s, l) && RescueInv(s, l)
  }

  ghost predicate Inv(s: State)
  {
    && Shaped(s)
    && (forall n :: 0 <= n < |s.pc| ==> NodeInv(s, n) && OnePred(s, n))
    && (forall l :: 0 <= l < |s.entries| ==> EntryInv(s, l))
  }

  lemma InitInv(nodeCount: nat, lockCount: nat)
    requires nodeCount <= MAX_NODE_COUNT && lockCount <= MAX_LOCK_COUNT
    ensures Inv(InitState(nodeCount, lockCount))
  {
  }

  /** A node points only to a node that waits on the same lock. */
  lemma PointsToWaiter(s: State, p: NodeId, m: NodeId)
    requires Inv(s) && p < |s.pc| && m < |s.pc| && Points(s, p, m)
    ensures s.pc[p].Inside? && Waits(s, m, s.pc[p].l)
  {
    assert NodeInv(s, p);
  }

  // ------------------------------------------------------------------------------------
  // Steps that store only to the node's own record, outside any queue
  // ------------------------------------------------------------------------------------

  /** Node `n` is outside the queues before and after; no entry changes. */
  lemma PrivateInv(s: State, t: State, n: NodeId)
    requires Inv(s) && Shaped(t) && n < |s.pc| && !s.pc[n].Inside?
    requires t.entries == s.entries && |t.pc| == |s.pc|
    requires t.pc == s.pc[n := t.pc[n]] && t.nodes == s.nodes[n := t.nodes[n]]
    requires !t.pc[n].Inside? && NodeInv(t, n)
    ensures Inv(t)
  {
    assert NodeInv(s, n);
    forall m | 0 <= m < |t.pc| ensures NodeInv(t, m) && OnePred(t, m) {
      assert NodeInv(s, m) && OnePred(s, m);
      assert forall p :: 0 <= p < |s.pc| && Points(t, p, m) ==> Points(s, p, m);
    }
    forall l | 0 <= l < |t.entries| ensures EntryInv(t, l) {
      assert EntryInv(s, l);
      assert forall p, m :: 0 <= p < |s.pc| && 0 <= m < |s.pc| ==> Points(t, p, m) == Points(s, p, m);
      SamePreds(s, t, Tail(s, l));
      SamePreds(s, t, s.entries[l].pending);
    }
  }

  lemma SamePreds(s: State, t: State, m: NodeId)
    requires Shaped(s) && Shaped(t) && |t.pc| == |s.pc|
    requires m < |s.pc| ==> forall p :: 0 <= p < |s.pc| ==> Points(t, p, m) == Points(s, p, m)
    ensures m < |s.pc| ==> HasPred(t, m) == HasPred(s, m)
  {
  }

  lemma PrepareInv(s: State, n: NodeId, l: LockId)
    requires Inv(s) && Enabled(s, Prepare(n, l))
    ensures Inv(Apply(s, Prepare(n, l)))
  {
    PrivateInv(s, Apply(s, Prepare(n, l)), n);
  }

  lemma RetryInv(s: State, n: NodeId, p: Pc)
    requires Inv(s) && n < |s.pc| && !s.pc[n].Outside? && !s.pc[n].Inside? && !p.Outside? && !p.Inside?
    requires p.l == s.pc[n].l
    ensures Inv(Goto(s, n, p))
  {
    assert NodeInv(s, n);
    assert s.nodes == s.nodes[n := s.nodes[n]];
    PrivateInv(s, Goto(s, n, p), n);
  }

  // ------------------------------------------------------------------------------------
  // Entering a queue
  // ------------------------------------------------------------------------------------

  lemma NewTail(w: nat, n: NodeId)
    requires n < MAX_NODE_COUNT && w == 4 * TailIdx(w) + Locked(w)
    ensures var u := SetTail(w, NodeToTail(n));
            u == 4 * TailIdx(u) + Locked(u) && TailIdx(u) == NodeToTail(n) && TailToNode(TailIdx(u)) == n && Locked(u) == Locked(w)
  {
    TailRoundTrip(w, NodeToTail(n));
  }

  lemma NewHeld(n: NodeId)
    requires n < MAX_NODE_COUNT
    ensures var u := HeldBy(n);
            u == 4 * TailIdx(u) + Locked(u) && TailIdx(u) == NodeToTail(n) && TailToNode(TailIdx(u)) == n && Locked(u) == 1
  {
    HeldWord(n);
  }

  /** Nobody points to a node that does not wait. */
  lemma NoPredOutside(s: State, m: NodeId)
    requires Inv(s) && m < |s.pc| && (!s.pc[m].Inside? || s.nodes[m].locked == 2)
    ensures !HasPred(s, m)
  {
    if HasPred(s, m) {
      var p :| 0 <= p < |s.pc| && Points(s, p, m);
      PointsToWaiter(s, p, m);
    }
  }

  /** Another lock does not notice a step that moves only nodes of lock `l` and the stepping node. */
  predicate KeepsLock(s: State, t: State, k: LockId)
    requires Shaped(s) && Shaped(t) && SameSize(s, t) && k < |s.entries|
  {
    && t.entries[k] == s.entries[k]
    && (forall n :: 0 <= n < |s.pc| && (s.pc[n] == Inside(k) || t.pc[n] == Inside(k)) ==>
          t.pc[n] == s.pc[n] && t.nodes[n] == s.nodes[n])
  }

  lemma OtherEntryInv(s: State, t: State, k: LockId)
    requires Inv(s) && Shaped(t) && SameSize(s, t) && k < |s.entries| && KeepsLock(s, t, k)
    requires forall m :: 0 <= m < |t.pc| ==> NodeInv(t, m)
    ensures EntryInv(t, k)
  {
    assert EntryInv(s, k);
    forall m | 0 <= m < |s.pc| && s.pc[m] == Inside(k) ensures HasPred(t, m) == HasPred(s, m) {
      forall p | 0 <= p < |s.pc| ensures Points(t, p, m) == Points(s, p, m) {
        assert NodeInv(s, p) && NodeInv(t, p);
      }
    }
  }

  lemma FastInv(s: State, n: NodeId)
    requires Inv(s) && n < |s.pc| && s.pc[n].AtFast? && s.entries[s.pc[n].l].word == 0
    ensures Inv(FastExchange(s, n))
  {
    var t, l := FastExchange(s, n), s.pc[n].l;
    NewHeld(n);
    NoPredOutside(s, n);
    assert EntryInv(s, l) && NodeInv(s, n);
    assert forall p, m :: 0 <= p < |s.pc| && 0 <= m < |s.pc| ==> Points(t, p, m) == Points(s, p, m);
    forall m | 0 <= m < |t.pc| ensures NodeInv(t, m) && OnePred(t, m) {
      assert NodeInv(s, m) && OnePred(s, m);
    }
    forall k | 0 <= k < |t.entries| ensures EntryInv(t, k) {
      if k != l { OtherEntryInv(s, t, k); }
    }
  }

  /** The word was freed between the failed fast exchange and the slow one: the node is the first to wait. */
  lemma FirstWaiterInv(s: State, n: NodeId)
    requires Inv(s) && n < |s.pc| && s.pc[n].AtExchange?
    requires s.entries[s.pc[n].l].word == s.pc[n].seen && TailIdx(s.pc[n].seen) == 0
    ensures Inv(SlowExchange(s, n))
  {
    var t, l := SlowExchange(s, n), s.pc[n].l;
    NoPredOutside(s, n);
    assert EntryInv(s, l) && NodeInv(s, n);
    NewTail(s.entries[l].word, n);
    assert forall p, m :: 0 <= p < |s.pc| && 0 <= m < |s.pc| ==> Points(t, p, m) == Points(s, p, m);
    forall m | 0 <= m < |t.pc| ensures NodeInv(t, m) && OnePred(t, m) {
      assert NodeInv(s, m) && OnePred(s, m);
    }
    SamePreds(s, t, n);
    forall k | 0 <= k < |t.entries| ensures EntryInv(t, k) {
      if k != l { OtherEntryInv(s, t, k); }
    }
  }

  lemma LinkNodes(s: State, n: NodeId, m: NodeId)
    requires Inv(s) && n < |s.pc| && s.pc[n].AtExchange? && m < |s.pc|
    requires s.entries[s.pc[n].l].word == s.pc[n].seen && TailIdx(s.pc[n].seen) != 0
    ensures NodeInv(SlowExchange(s, n), m) && OnePred(SlowExchange(s, n), m)
  {
    var t, l := SlowExchange(s, n), s.pc[n].l;
    var last := Tail(s, l);
    NoPredOutside(s, n);
    assert EntryInv(s, l) && NodeInv(s, n) && NodeInv(s, last) && NodeInv(s, m) && OnePred(s, m);
    assert forall p :: 0 <= p < |s.pc| && p != last ==> Points(t, p, m) == Points(s, p, m);
    assert Points(t, last, m) == (m == n);
  }

  /** The node links itself behind the old tail. */
  lemma LinkInv(s: State, n: NodeId)
    requires Inv(s) && n < |s.pc| && s.pc[n].AtExchange?
    requires s.entries[s.pc[n].l].word == s.pc[n].seen && TailIdx(s.pc[n].seen) != 0
    ensures Inv(SlowExchange(s, n))
  {
    var t, l := SlowExchange(s, n), s.pc[n].l;
    var last := Tail(s, l);
    assert EntryInv(s, l) && NodeInv(s, n) && NodeInv(s, last);
    NewTail(s.entries[l].word, n);
    forall m | 0 <= m < |t.pc| ensures NodeInv(t, m) && OnePred(t, m) {
      LinkNodes(s, n, m);
    }
    assert Points(t, last, n);
    forall k | 0 <= k < |t.entries| ensures EntryInv(t, k) {
      if k != l {
        OtherEntryInv(s, t, k);
      } else if !IsHeld(s, l) && HasPred(t, t.entries[l].pending) {
        var p :| 0 <= p < |t.pc| && Points(t, p, t.entries[l].pending);
        assert Points(s, p, s.entries[l].pending);
        assert false;
      }
    }
  }

  // ------------------------------------------------------------------------------------
  // Leaving
  // ------------------------------------------------------------------------------------

  /** A release by the holder either empties the word or hands the lock on. */
  lemma ReleaseBranch(s: State, n: NodeId, l: LockId)
    requires Inv(s) && n < |s.pc| && l < |s.entries|
    ensures !ExitOf(s, n, l).Forced?
    ensures !ExitOf(s, n, l).NotHolder? ==> s.pc[n] == Inside(l) && IsHeld(s, l)
    ensures ExitOf(s, n, l).HandedOff? ==> Waits(s, ExitOf(s, n, l).succ, l)
    ensures ExitOf(s, n, l).Emptied? ==> Tail(s, l) == n
  {
    assert EntryInv(s, l) && NodeInv(s, n);
  }

  lemma EmptyInv(s: State, n: NodeId, l: LockId)
    requires Inv(s) && n < |s.pc| && l < |s.entries| && ExitOf(s, n, l).Emptied?
    ensures Inv(ReleaseLock(s, n, l))
  {
    var t := ReleaseLock(s, n, l);
    ReleaseBranch(s, n, l);
    assert EntryInv(s, l) && NodeInv(s, n);
    NoPredOutside(s, n);
    assert forall p, m :: 0 <= p < |s.pc| && 0 <= m < |s.pc| ==> Points(t, p, m) == Points(s, p, m);
    forall m | 0 <= m < |t.pc| ensures NodeInv(t, m) && OnePred(t, m) {
      assert NodeInv(s, m) && OnePred(s, m);
    }
    forall k | 0 <= k < |t.entries| ensures EntryInv(t, k) {
      if k != l { OtherEntryInv(s, t, k); }
    }
  }

  lemma HandOffNodes(s: State, n: NodeId, l: LockId, m: NodeId)
    requires Inv(s) && n < |s.pc| && l < |s.entries| && ExitOf(s, n, l).HandedOff? && m < |s.pc|
    ensures NodeInv(ReleaseLock(s, n, l), m) && OnePred(ReleaseLock(s, n, l), m)
  {
    var t, succ := ReleaseLock(s, n, l), s.nodes[n].next;
    ReleaseBranch(s, n, l);
    assert NodeInv(s, n) && NodeInv(s, m) && OnePred(s, m) && OnePred(s, succ);
    NoPredOutside(s, n);
    assert Points(s, n, succ);
    assert Points(s, m, s.nodes[m].next);
    assert forall p :: 0 <= p < |s.pc| && Points(t, p, m) ==> Points(s, p, m);
  }

  lemma HandOffInv(s: State, n: NodeId, l: LockId)
    requires Inv(s) && n < |s.pc| && l < |s.entries| && ExitOf(s, n, l).HandedOff?
    ensures Inv(ReleaseLock(s, n, l))
  {
    var t, succ := ReleaseLock(s, n, l), s.nodes[n].next;
    ReleaseBranch(s, n, l);
    NewHeld(succ);
    assert EntryInv(s, l) && NodeInv(s, n) && NodeInv(s, succ);
    forall m | 0 <= m < |t.pc| ensures NodeInv(t, m) && OnePred(t, m) {
      HandOffNodes(s, n, l, m);
    }
    forall k | 0 <= k < |t.entries| ensures EntryInv(t, k) {
      if k != l { OtherEntryInv(s, t, k); }
    }
  }

  lemma ReleaseInv(s: State, n: NodeId, l: LockId)
    requires Inv(s) && n < |s.pc| && l < |s.entries|
    ensures Inv(ReleaseLock(s, n, l))
  {
    ReleaseBranch(s, n, l);
    if ExitOf(s, n, l).Emptied? {
      EmptyInv(s, n, l);
    } else if ExitOf(s, n, l).HandedOff? {
      HandOffInv(s, n, l);
    }
  }

  // ------------------------------------------------------------------------------------
  // The manager
  // ------------------------------------------------------------------------------------

  /** The manager finds a node exactly where a queue has no holder, and it is the pending one. */
  lemma GranteeIsFirst(s: State, l: LockId)
    requires Inv(s) && l < |s.entries|
    ensures Grantee(s, l) == if !IsHeld(s, l) && TailIdx(s.entries[l].word) != 0 then s.entries[l].pending else INVALID_NODE_ID
    ensures Grantee(s, l) != INVALID_NODE_ID ==> Waits(s, Grantee(s, l), l) && !HasPred(s, Grantee(s, l))
  {
    assert EntryInv(s, l);
    var p := s.entries[l].pending;
    if p < |s.pc| { assert NodeInv(s, p); }
  }

  lemma ServeInv(s: State, l: LockId)
    requires Inv(s) && l < |s.entries|
    ensures Inv(ServeLock(s, l))
  {
    GranteeIsFirst(s, l);
    var n := Grantee(s, l);
    if n != INVALID_NODE_ID {
      var t := ServeLock(s, l);
      NewHeld(n);
      assert EntryInv(s, l) && NodeInv(s, n);
      assert forall p, m :: 0 <= p < |s.pc| && 0 <= m < |s.pc| ==> Points(t, p, m) == Points(s, p, m);
      forall m | 0 <= m < |t.pc| ensures NodeInv(t, m) && OnePred(t, m) {
        assert NodeInv(s, m) && OnePred(s, m);
        assert Points(s, m, s.nodes[m].next);
      }
      forall k | 0 <= k < |t.entries| ensures EntryInv(t, k) {
        if k != l { OtherEntryInv(s, t, k); }
      }
    }
  }

  /** Every step keeps the invariant. */
  lemma StepInv(s: State, st: Step)
    requires Inv(s) && Enabled(s, st)
    ensures Inv(Apply(s, st))
  {
    match st {
      case Prepare(n, l) => PrepareInv(s, n, l);
      case Leave(n, l) => ReleaseInv(s, n, l);
      case Serve(l) => ServeInv(s, l);
      case Proceed(n) =>
        var l := s.pc[n].l;
        if s.pc[n].AtLoad? {
          RetryInv(s, n, AtExchange(l, s.entries[l].word));
        } else if s.pc[n].AtFast? {
          if s.entries[l].word == 0 { FastInv(s, n); } else { RetryInv(s, n, AtLoad(l)); }
        } else if s.entries[l].word != s.pc[n].seen {
          RetryInv(s, n, AtLoad(l));
        } else if TailIdx(s.pc[n].seen) == 0 {
          FirstWaiterInv(s, n);
        } else {
          LinkInv(s, n);
        }
    }
  }
}
