/** Every step of a race-free run keeps the invariant. */
module McsPreservation {
  import opened LockTypes
  import opened LockService
  import opened McsProtocol
  import opened McsInvariant

  /** The node is queued on `k`, or still has to clear its entry. */
  predicate On(p: Pc, k: LockId)
  {
    InQueue(p, k) || p == ClearHead(k) || p == ClearOwner(k)
  }

  predicate SameSize(s: State, t: State)
  {
    |t.pc| == |s.pc| && |t.entries| == |s.entries|
  }

  ghost predicate SameLock(s: State, t: State, k: LockId)
    requires Shaped(s) && Shaped(t) && SameSize(s, t) && k < |s.entries|
  {
    && t.entries[k] == s.entries[k] && t.queue[k] == s.queue[k] && t.swaps[k] == s.swaps[k]
    && t.owners[k] == s.owners[k] && t.releases[k] == s.releases[k]
  }

  ghost predicate SameNodes(s: State, t: State, touched: set<NodeId>)
    requires Shaped(s) && Shaped(t) && SameSize(s, t)
  {
    forall m :: 0 <= m < |s.pc| && m !in touched ==> t.pc[m] == s.pc[m] && t.nodes[m] == s.nodes[m]
  }

  /** Lock `k` and its logs are as before, and so are all nodes but the touched ones. */
  ghost predicate Untouched(s: State, t: State, k: LockId, touched: set<NodeId>)
    requires Shaped(s) && Shaped(t) && SameSize(s, t) && k < |s.entries|
  {
    && SameLock(s, t, k) && SameNodes(s, t, touched)
    && (forall h :: t.mgr == StoreOwner(k, h) <==> s.mgr == StoreOwner(k, h))
  }

  lemma FrameLock(s: State, t: State, k: LockId, touched: set<NodeId>)
    requires Shaped(s) && Shaped(t) && SameSize(s, t) && k < |s.entries|
    requires LockInv(s, k) && Untouched(s, t, k, touched)
    requires forall m :: m in touched && m < |s.pc| ==> !On(s.pc[m], k)
    ensures LockInv(t, k)
  {
    forall i | 0 <= i < |s.queue[k]| ensures s.queue[k][i] !in touched {
      assert InQueue(s.pc[s.queue[k][i]], k);
    }
    assert QueueInv(t, k);
    forall i | 1 <= i < |t.queue[k]| ensures LinkedAt(t, k, i) {
      assert LinkedAt(s, k, i);
    }
    assert s.queue[k] != [] ==> FirstInv(s, k);
  }

  lemma FrameNode(s: State, t: State, m: NodeId, touched: set<NodeId>)
    requires Shaped(s) && Shaped(t) && SameSize(s, t) && m < |s.pc| && m !in touched
    requires LockInv(s, PcLock(s.pc[m])) && NodeInv(s, m)
    requires Untouched(s, t, PcLock(s.pc[m]), touched)
    requires forall x :: x in touched && x < |s.pc| ==> !On(s.pc[x], PcLock(s.pc[m]))
    ensures NodeInv(t, m)
  {
  }

  /** The lock and the logs of `k` are as before, up to the head, and so are the node records. */
  ghost predicate OnlyPcMoves(s: State, t: State, k: LockId, n: NodeId)
    requires Shaped(s) && Shaped(t) && SameSize(s, t) && k < |s.entries|
  {
    && t.entries[k].tail == s.entries[k].tail && t.entries[k].owner == s.entries[k].owner
    && t.queue[k] == s.queue[k] && t.swaps[k] == s.swaps[k]
    && t.owners[k] == s.owners[k] && t.releases[k] == s.releases[k]
    && t.nodes == s.nodes
    && (forall m :: 0 <= m < |s.pc| && m != n ==> t.pc[m] == s.pc[m])
    && (forall h :: t.mgr == StoreOwner(k, h) <==> s.mgr == StoreOwner(k, h))
  }

  /** Where a node stands: the owner and the node that stores the head are first. */
  lemma Place(s: State, n: NodeId, l: LockId) returns (i: nat)
    requires Inv(s) && n < |s.pc| && l < |s.entries| && InQueue(s.pc[n], l)
    ensures i < |s.queue[l]| && s.queue[l][i] == n
    ensures Owning(s.pc[n], l) || s.pc[n] == SetHead(l) ==> i == 0
    ensures s.pc[n].LinkPred? ==> i > 0
    ensures LockInv(s, l)
    ensures i > 0 ==> LinkedAt(s, l, i)
  {
    assert NodeInv(s, n);
    i :| 0 <= i < |s.queue[l]| && s.queue[l][i] == n;
    AtPlace(s, l, i);
  }

  lemma AtPlace(s: State, l: LockId, i: nat)
    requires Inv(s) && l < |s.entries| && i < |s.queue[l]|
    ensures LockInv(s, l) && (i > 0 ==> LinkedAt(s, l, i))
    ensures var n := s.queue[l][i];
            && n < |s.pc| && (Owning(s.pc[n], l) || s.pc[n] == SetHead(l) ==> i == 0)
            && (s.pc[n].LinkPred? ==> i > 0)
  {
    assert LockInv(s, l);
    if i > 0 {
      assert LinkedAt(s, l, i);
    } else {
      assert FirstInv(s, l);
    }
  }

  lemma MoveKeepsQueue(s: State, t: State, l: LockId, j: nat)
    requires Shaped(s) && Shaped(t) && SameSize(s, t) && l < |s.entries|
    requires LockInv(s, l) && j < |s.queue[l]| && OnlyPcMoves(s, t, l, s.queue[l][j])
    requires InQueue(t.pc[s.queue[l][j]], l)
    ensures QueueInv(t, l) && LogInv(t, l)
  {
  }

  lemma FirstMoves(s: State, t: State, l: LockId)
    requires Shaped(s) && Shaped(t) && SameSize(s, t) && l < |s.entries|
    requires LockInv(s, l) && s.queue[l] != [] && OnlyPcMoves(s, t, l, s.queue[l][0])
    requires InQueue(t.pc[s.queue[l][0]], l) && FirstInv(t, l) && OwnerInv(t, l)
    ensures LockInv(t, l)
  {
    MoveKeepsQueue(s, t, l, 0);
    forall i | 1 <= i < |t.queue[l]| ensures LinkedAt(t, l, i) {
      assert LinkedAt(s, l, i);
    }
  }

  lemma MoveKeepsLinks(s: State, t: State, l: LockId, j: nat)
    requires Shaped(s) && Shaped(t) && SameSize(s, t) && l < |s.entries|
    requires LockInv(s, l) && 1 <= j < |s.queue[l]| && OnlyPcMoves(s, t, l, s.queue[l][j])
    requires QueueInv(t, l) && LinkedAt(t, l, j)
    ensures LinkInv(t, l)
  {
    forall i | 1 <= i < |t.queue[l]| ensures LinkedAt(t, l, i) {
      assert LinkedAt(s, l, i);
    }
  }

  lemma PollerMoves(s: State, t: State, l: LockId, j: nat)
    requires Shaped(s) && Shaped(t) && SameSize(s, t) && l < |s.entries|
    requires LockInv(s, l) && 1 <= j < |s.queue[l]| && OnlyPcMoves(s, t, l, s.queue[l][j])
    requires t.entries[l] == s.entries[l]
    requires Polling(t.pc[s.queue[l][j]], l) && LinkedAt(t, l, j)
    ensures LockInv(t, l)
  {
    MoveKeepsQueue(s, t, l, j);
    MoveKeepsLinks(s, t, l, j);
  }

  lemma ReloadLock(s: State, n: NodeId)
    requires Inv(s) && n < |s.pc| && s.pc[n].Reload? && !Races(s, Access(n))
    ensures Shaped(NodeAccess(s, n)) && LockInv(NodeAccess(s, n), s.pc[n].l)
  {
    var t, l := NodeAccess(s, n), s.pc[n].l;
    assert LockInv(s, l) && NodeInv(s, n);
    FrameLock(s, t, l, {n});
  }

  lemma ReloadNodes(s: State, n: NodeId, m: NodeId)
    requires Inv(s) && n < |s.pc| && s.pc[n].Reload? && !Races(s, Access(n))
    requires m < |s.pc| && (m == n || PcLock(s.pc[m]) == s.pc[n].l)
    ensures Shaped(NodeAccess(s, n)) && NodeInv(NodeAccess(s, n), m)
  {
    if m != n {
      ReloadOther(s, n, m);
    } else {
      assert NodeInv(s, n);
      ReloadOwn(s, n);
    }
  }

  lemma ReloadOther(s: State, n: NodeId, m: NodeId)
    requires Inv(s) && n < |s.pc| && s.pc[n].Reload? && m < |s.pc| && m != n && PcLock(s.pc[m]) == s.pc[n].l
    ensures Shaped(NodeAccess(s, n)) && NodeInv(NodeAccess(s, n), m)
  {
    var t, l := NodeAccess(s, n), s.pc[n].l;
    AccessShaped(s, n);
    assert t == Goto(s, n, t.pc[n]);
    assert LockInv(s, l) && NodeInv(s, m);
    FrameNode(s, t, m, {n});
  }

  lemma ReloadOwn(s: State, n: NodeId)
    requires Inv(s) && n < |s.pc| && s.pc[n].Reload? && NodeInv(s, n)
    ensures Shaped(NodeAccess(s, n)) && NodeInv(NodeAccess(s, n), n)
  {
    var l := s.pc[n].l;
    assert LockInv(s, l);
    assert NodeAccess(s, n).pc[n] in {LinkPred(l, n), Swap(l, s.entries[l].tail)};
  }

  lemma SetHeadLock(s: State, n: NodeId)
    requires Inv(s) && n < |s.pc| && s.pc[n].SetHead? && !Races(s, Access(n))
    ensures Shaped(NodeAccess(s, n)) && LockInv(NodeAccess(s, n), s.pc[n].l)
  {
    var t, l := NodeAccess(s, n), s.pc[n].l;
    assert LockInv(s, l) && NodeInv(s, n);
    var i := Place(s, n, l);
    FirstMoves(s, t, l);
  }

  lemma SetHeadNodes(s: State, n: NodeId, m: NodeId)
    requires Inv(s) && n < |s.pc| && s.pc[n].SetHead? && !Races(s, Access(n))
    requires m < |s.pc| && (m == n || PcLock(s.pc[m]) == s.pc[n].l)
    ensures Shaped(NodeAccess(s, n)) && NodeInv(NodeAccess(s, n), m)
  {
    var l := s.pc[n].l;
    AccessShaped(s, n);
    assert LockInv(s, l) && NodeInv(s, n) && NodeInv(s, m);
    var i := Place(s, n, l);
    if InQueue(s.pc[m], l) {
      var j := Place(s, m, l);
    }
  }

  lemma LinkPredQueue(s: State, n: NodeId)
    requires Inv(s) && n < |s.pc| && s.pc[n].LinkPred?
    ensures Shaped(NodeAccess(s, n))
    ensures QueueInv(NodeAccess(s, n), s.pc[n].l)
  {
    var t, l := NodeAccess(s, n), s.pc[n].l;
    AccessShaped(s, n);
    assert LockInv(s, l);
    assert t.pc == s.pc[n := Waiting(l)] && t.queue == s.queue && t.entries == s.entries;
    assert forall m :: 0 <= m < |s.nodes| ==> t.nodes[m].waiting == s.nodes[m].waiting;
  }

  lemma LinkPredLog(s: State, n: NodeId)
    requires Inv(s) && n < |s.pc| && s.pc[n].LinkPred?
    ensures Shaped(NodeAccess(s, n)) && SameSize(s, NodeAccess(s, n))
    ensures LogInv(NodeAccess(s, n), s.pc[n].l)
  {
    var i := Place(s, n, s.pc[n].l);
  }

  lemma LinkPredLinks(s: State, n: NodeId)
    requires Inv(s) && n < |s.pc| && s.pc[n].LinkPred?
    requires Shaped(NodeAccess(s, n)) && QueueInv(NodeAccess(s, n), s.pc[n].l)
    ensures LinkInv(NodeAccess(s, n), s.pc[n].l)
  {
    var t, l := NodeAccess(s, n), s.pc[n].l;
    var j := Place(s, n, l);
    var q := s.queue[l];
    forall i | 1 <= i < |q| ensures LinkedAt(t, l, i) {
      assert LinkedAt(s, l, i);
      assert i != j ==> q[i] != n && q[i - 1] != q[j - 1];
    }
  }

  lemma LinkPredLock(s: State, n: NodeId)
    requires Inv(s) && n < |s.pc| && s.pc[n].LinkPred?
    ensures Shaped(NodeAccess(s, n)) && LockInv(NodeAccess(s, n), s.pc[n].l)
  {
    var j := Place(s, n, s.pc[n].l);
    LinkPredQueue(s, n);
    LinkPredLog(s, n);
    LinkPredLinks(s, n);
  }

  /** The node to link behind is queued and is not yet handing the lock on. */
  lemma PredIsQueued(s: State, n: NodeId)
    requires Inv(s) && n < |s.pc| && s.pc[n].LinkPred?
    ensures var p, l := s.pc[n].pred, s.pc[n].l;
            && p < |s.pc| && p != n && InQueue(s.pc[p], l) && !s.pc[p].PassHead? && !s.pc[p].PassOwner?
  {
    var l := s.pc[n].l;
    var i := Place(s, n, l);
    var p := s.queue[l][i - 1];
    assert InQueue(s.pc[p], l);
    assert NodeInv(s, p);
  }

  lemma LinkPredNodes(s: State, n: NodeId, m: NodeId)
    requires Inv(s) && n < |s.pc| && s.pc[n].LinkPred? && !Races(s, Access(n))
    requires m < |s.pc| && (m == n || PcLock(s.pc[m]) == s.pc[n].l)
    ensures Shaped(NodeAccess(s, n)) && NodeInv(NodeAccess(s, n), m)
  {
    AccessShaped(s, n);
    PredIsQueued(s, n);
    assert NodeInv(s, n) && NodeInv(s, m);
  }

  predicate IsPolling(p: Pc)
  {
    p.Waiting? || p.PollLock? || p.CheckCancel?
  }

  lemma PollsMoves(s: State, n: NodeId, l: LockId)
    requires Shaped(s) && n < |s.pc| && IsPolling(s.pc[n]) && s.pc[n].l == l
    ensures var t := NodeAccess(s, n);
            && Shaped(t) && SameSize(s, t) && OnlyPcMoves(s, t, l, n) && t.entries == s.entries && InQueue(t.pc[n], l)
            && (Polling(t.pc[n], l) || t.pc[n] == Holding(l) || (t.pc[n] == ReadNext(l) && s.entries[l].owner == n))
  {
    AccessShaped(s, n);
  }

  lemma PollsFirst(s: State, n: NodeId, l: LockId)
    requires Inv(s) && n < |s.pc| && IsPolling(s.pc[n]) && s.pc[n].l == l && !Races(s, Access(n))
    requires l < |s.queue| && s.queue[l] != [] && s.queue[l][0] == n
    ensures Shaped(NodeAccess(s, n)) && LockInv(NodeAccess(s, n), l)
  {
    PollsMoves(s, n, l);
    assert NodeInv(s, n) && LockInv(s, l);
    FirstMoves(s, NodeAccess(s, n), l);
  }

  lemma PollsBehind(s: State, n: NodeId, l: LockId, j: nat)
    requires Inv(s) && n < |s.pc| && IsPolling(s.pc[n]) && s.pc[n].l == l && !Races(s, Access(n))
    requires l < |s.queue| && 1 <= j < |s.queue[l]| && s.queue[l][j] == n
    ensures Shaped(NodeAccess(s, n)) && LockInv(NodeAccess(s, n), l)
  {
    PollsMoves(s, n, l);
    assert NodeInv(s, n) && LockInv(s, l) && LinkedAt(s, l, j);
    PollerMoves(s, NodeAccess(s, n), l, j);
  }

  lemma PollsLock(s: State, n: NodeId)
    requires Inv(s) && n < |s.pc| && IsPolling(s.pc[n]) && !Races(s, Access(n))
    ensures Shaped(NodeAccess(s, n)) && LockInv(NodeAccess(s, n), s.pc[n].l)
  {
    var l := s.pc[n].l;
    var j := Place(s, n, l);
    if j == 0 {
      PollsFirst(s, n, l);
    } else {
      PollsBehind(s, n, l, j);
    }
  }

  lemma PollsNodes(s: State, n: NodeId, m: NodeId)
    requires Inv(s) && n < |s.pc| && IsPolling(s.pc[n]) && !Races(s, Access(n))
    requires m < |s.pc| && (m == n || PcLock(s.pc[m]) == s.pc[n].l)
    ensures Shaped(NodeAccess(s, n)) && NodeInv(NodeAccess(s, n), m)
  {
    var l := s.pc[n].l;
    AccessShaped(s, n);
    assert LockInv(s, l) && NodeInv(s, n) && NodeInv(s, m);
    var i := Place(s, n, l);
    if InQueue(s.pc[m], l) {
      var j := Place(s, m, l);
    }
  }

  lemma CheckOwnerLock(s: State, n: NodeId)
    requires Inv(s) && n < |s.pc| && s.pc[n].CheckOwner? && !Races(s, Access(n))
    ensures Shaped(NodeAccess(s, n)) && LockInv(NodeAccess(s, n), s.pc[n].l)
  {
    var t, l := NodeAccess(s, n), s.pc[n].l;
    assert LockInv(s, l) && NodeInv(s, n);
    var i := Place(s, n, l);
    FirstMoves(s, t, l);
  }

  lemma CheckOwnerNodes(s: State, n: NodeId, m: NodeId)
    requires Inv(s) && n < |s.pc| && s.pc[n].CheckOwner? && !Races(s, Access(n))
    requires m < |s.pc| && (m == n || PcLock(s.pc[m]) == s.pc[n].l)
    ensures Shaped(NodeAccess(s, n)) && NodeInv(NodeAccess(s, n), m)
  {
    var l := s.pc[n].l;
    AccessShaped(s, n);
    assert LockInv(s, l) && NodeInv(s, n) && NodeInv(s, m);
    var i := Place(s, n, l);
    if InQueue(s.pc[m], l) {
      var j := Place(s, m, l);
    }
  }

  lemma LooksBehindLock(s: State, n: NodeId)
    requires Inv(s) && n < |s.pc| && (s.pc[n].ReadNext? || s.pc[n].Spin?) && !Races(s, Access(n))
    ensures Shaped(NodeAccess(s, n)) && LockInv(NodeAccess(s, n), s.pc[n].l)
  {
    var t, l := NodeAccess(s, n), s.pc[n].l;
    assert LockInv(s, l) && NodeInv(s, n);
    var i := Place(s, n, l);
    FirstMoves(s, t, l);
  }

  lemma LooksBehindNodes(s: State, n: NodeId, m: NodeId)
    requires Inv(s) && n < |s.pc| && (s.pc[n].ReadNext? || s.pc[n].Spin?) && !Races(s, Access(n))
    requires m < |s.pc| && (m == n || PcLock(s.pc[m]) == s.pc[n].l)
    ensures Shaped(NodeAccess(s, n)) && NodeInv(NodeAccess(s, n), m)
  {
    var l := s.pc[n].l;
    AccessShaped(s, n);
    assert LockInv(s, l) && NodeInv(s, n) && NodeInv(s, m);
    var i := Place(s, n, l);
    if |s.queue[l]| >= 2 {
      assert LinkedAt(s, l, 1);
    }
    if InQueue(s.pc[m], l) {
      var j := Place(s, m, l);
    }
  }

  lemma PassHeadLock(s: State, n: NodeId)
    requires Inv(s) && n < |s.pc| && s.pc[n].PassHead? && !Races(s, Access(n))
    ensures Shaped(NodeAccess(s, n)) && LockInv(NodeAccess(s, n), s.pc[n].l)
  {
    var t, l := NodeAccess(s, n), s.pc[n].l;
    assert LockInv(s, l) && NodeInv(s, n);
    var i := Place(s, n, l);
    FirstMoves(s, t, l);
  }

  lemma PassHeadNodes(s: State, n: NodeId, m: NodeId)
    requires Inv(s) && n < |s.pc| && s.pc[n].PassHead? && !Races(s, Access(n))
    requires m < |s.pc| && (m == n || PcLock(s.pc[m]) == s.pc[n].l)
    ensures Shaped(NodeAccess(s, n)) && NodeInv(NodeAccess(s, n), m)
  {
    var l := s.pc[n].l;
    AccessShaped(s, n);
    assert LockInv(s, l) && NodeInv(s, n) && NodeInv(s, m);
    var i := Place(s, n, l);
    if InQueue(s.pc[m], l) {
      var j := Place(s, m, l);
    }
  }

  lemma WakeLock(s: State, n: NodeId)
    requires Inv(s) && n < |s.pc| && s.pc[n].Wake? && !Races(s, Access(n))
    ensures Shaped(NodeAccess(s, n)) && LockInv(NodeAccess(s, n), s.pc[n].l)
  {
    var t, l := NodeAccess(s, n), s.pc[n].l;
    assert LockInv(s, l) && NodeInv(s, n);
    WakeLinks(s, n);
  }

  lemma WakeLinks(s: State, n: NodeId)
    requires Inv(s) && n < |s.pc| && s.pc[n].Wake?
    ensures Shaped(NodeAccess(s, n)) && QueueInv(NodeAccess(s, n), s.pc[n].l) && LinkInv(NodeAccess(s, n), s.pc[n].l)
  {
    var t, l := NodeAccess(s, n), s.pc[n].l;
    assert LockInv(s, l) && NodeInv(s, n);
    forall i | 1 <= i < |t.queue[l]| ensures LinkedAt(t, l, i) {
      assert LinkedAt(s, l, i);
    }
  }

  lemma WakeNodes(s: State, n: NodeId, m: NodeId)
    requires Inv(s) && n < |s.pc| && s.pc[n].Wake? && !Races(s, Access(n))
    requires m < |s.pc| && (m == n || PcLock(s.pc[m]) == s.pc[n].l)
    ensures Shaped(NodeAccess(s, n)) && NodeInv(NodeAccess(s, n), m)
  {
    var l := s.pc[n].l;
    AccessShaped(s, n);
    assert LockInv(s, l) && NodeInv(s, n) && NodeInv(s, m);
    assert WakesOn(s.pc[n], l) && (m != n ==> !WakesOn(s.pc[m], l));
  }

  lemma LeavesLinks(s: State, n: NodeId)
    requires Inv(s) && n < |s.pc| && (s.pc[n].ClearHead? || s.pc[n].ClearOwner?)
    ensures Shaped(NodeAccess(s, n)) && QueueInv(NodeAccess(s, n), s.pc[n].l) && LinkInv(NodeAccess(s, n), s.pc[n].l)
  {
    var t, l := NodeAccess(s, n), s.pc[n].l;
    LeavesQueue(s, n);
    assert LockInv(s, l);
    forall i | 1 <= i < |t.queue[l]| ensures LinkedAt(t, l, i) {
      assert LinkedAt(s, l, i);
    }
  }

  lemma LeavesQueue(s: State, n: NodeId)
    requires Inv(s) && n < |s.pc| && (s.pc[n].ClearHead? || s.pc[n].ClearOwner?)
    ensures Shaped(NodeAccess(s, n)) && SameSize(s, NodeAccess(s, n)) && QueueInv(NodeAccess(s, n), s.pc[n].l)
    ensures NodeAccess(s, n).queue == s.queue && NodeAccess(s, n).nodes == s.nodes
  {
    AccessShaped(s, n);
    assert LockInv(s, s.pc[n].l);
  }

  lemma LeavesLock(s: State, n: NodeId)
    requires Inv(s) && n < |s.pc| && (s.pc[n].ClearHead? || s.pc[n].ClearOwner?) && !Races(s, Access(n))
    ensures Shaped(NodeAccess(s, n)) && LockInv(NodeAccess(s, n), s.pc[n].l)
  {
    LeavesLinks(s, n);
    assert LockInv(s, s.pc[n].l) && NodeInv(s, n);
  }

  lemma LeavesNodes(s: State, n: NodeId, m: NodeId)
    requires Inv(s) && n < |s.pc| && (s.pc[n].ClearHead? || s.pc[n].ClearOwner?) && !Races(s, Access(n))
    requires m < |s.pc| && (m == n || PcLock(s.pc[m]) == s.pc[n].l)
    ensures Shaped(NodeAccess(s, n)) && NodeInv(NodeAccess(s, n), m)
  {
    var l := s.pc[n].l;
    AccessShaped(s, n);
    assert LockInv(s, l) && NodeInv(s, n) && NodeInv(s, m);
  }

  predicate SwapsIn(s: State, n: NodeId)
    requires Shaped(s)
  {
    n < |s.pc| && s.pc[n].Swap? && s.entries[s.pc[n].l].tail == s.pc[n].seen
  }

  lemma DistinctWith(q: seq<NodeId>, n: NodeId)
    requires Distinct(q) && n !in q
    ensures Distinct(q + [n])
  {
  }

  lemma SwapInQueue(s: State, n: NodeId)
    requires Inv(s) && SwapsIn(s, n)
    ensures Shaped(NodeAccess(s, n)) && QueueInv(NodeAccess(s, n), s.pc[n].l)
    ensures n !in s.queue[s.pc[n].l]
  {
    var l := s.pc[n].l;
    var q := s.queue[l];
    var t := NodeAccess(s, n);
    assert LockInv(s, l) && NodeInv(s, n);
    assert forall i :: 0 <= i < |q| ==> InQueue(s.pc[q[i]], l) && q[i] != n;
    AccessShaped(s, n);
    DistinctWith(q, n);
    assert t.queue[l] == q + [n] && t.nodes == s.nodes && t.pc == s.pc[n := t.pc[n]];
    assert forall i :: 0 <= i < |q| ==> t.queue[l][i] == q[i] && t.pc[q[i]] == s.pc[q[i]];
  }

  lemma SwapInLinks(s: State, n: NodeId)
    requires Inv(s) && SwapsIn(s, n)
    ensures Shaped(NodeAccess(s, n)) && QueueInv(NodeAccess(s, n), s.pc[n].l)
    ensures LinkInv(NodeAccess(s, n), s.pc[n].l)
  {
    var t, l := NodeAccess(s, n), s.pc[n].l;
    assert LockInv(s, l) && NodeInv(s, n);
    SwapInQueue(s, n);
    forall i | 1 <= i < |t.queue[l]| ensures LinkedAt(t, l, i) {
      if i < |s.queue[l]| {
        assert LinkedAt(s, l, i);
      }
    }
  }

  lemma SwapInFirst(s: State, n: NodeId)
    requires Inv(s) && SwapsIn(s, n)
    ensures Shaped(NodeAccess(s, n)) && QueueInv(NodeAccess(s, n), s.pc[n].l)
    ensures FirstInv(NodeAccess(s, n), s.pc[n].l)
  {
    var l := s.pc[n].l;
    SwapInQueue(s, n);
    assert LockInv(s, l) && NodeInv(s, n);
    assert s.entries[l].owner != n;
    assert s.mgr != StoreOwner(l, n);
  }

  lemma SwapInLog(s: State, n: NodeId)
    requires Inv(s) && SwapsIn(s, n)
    ensures Shaped(NodeAccess(s, n))
    ensures OwnerInv(NodeAccess(s, n), s.pc[n].l) && LogInv(NodeAccess(s, n), s.pc[n].l)
  {
    var t, l := NodeAccess(s, n), s.pc[n].l;
    AccessShaped(s, n);
    SwapInQueue(s, n);
    assert LockInv(s, l) && NodeInv(s, n);
    assert t.queue[l] == s.queue[l] + [n] && t.swaps[l] == s.swaps[l] + [n];
    assert t.entries[l].owner == s.entries[l].owner != n && s.mgr != StoreOwner(l, n);
    assert Holder(t, l) == Holder(s, l);
  }

  lemma SwapInLock(s: State, n: NodeId)
    requires Inv(s) && SwapsIn(s, n)
    ensures Shaped(NodeAccess(s, n)) && LockInv(NodeAccess(s, n), s.pc[n].l)
  {
    SwapInLinks(s, n);
    SwapInFirst(s, n);
    SwapInLog(s, n);
  }

  lemma SwapLock(s: State, n: NodeId)
    requires Inv(s) && n < |s.pc| && s.pc[n].Swap?
    ensures Shaped(NodeAccess(s, n)) && LockInv(NodeAccess(s, n), s.pc[n].l)
  {
    var t, l := NodeAccess(s, n), s.pc[n].l;
    assert LockInv(s, l) && NodeInv(s, n);
    if s.entries[l].tail == s.pc[n].seen {
      SwapInLock(s, n);
    } else {
      FrameLock(s, t, l, {n});
    }
  }

  lemma SwapInNodes(s: State, n: NodeId, m: NodeId)
    requires Inv(s) && SwapsIn(s, n)
    requires m < |s.pc| && (m == n || PcLock(s.pc[m]) == s.pc[n].l)
    ensures Shaped(NodeAccess(s, n)) && NodeInv(NodeAccess(s, n), m)
  {
    var t, l := NodeAccess(s, n), s.pc[n].l;
    assert NodeInv(s, n) && NodeInv(s, m);
    AccessShaped(s, n);
    assert t.queue[l] == s.queue[l] + [n];
  }

  lemma SwapNodes(s: State, n: NodeId, m: NodeId)
    requires Inv(s) && n < |s.pc| && s.pc[n].Swap?
    requires m < |s.pc| && (m == n || PcLock(s.pc[m]) == s.pc[n].l)
    ensures Shaped(NodeAccess(s, n)) && NodeInv(NodeAccess(s, n), m)
  {
    var l := s.pc[n].l;
    AccessShaped(s, n);
    if SwapsIn(s, n) {
      SwapInNodes(s, n, m);
    } else {
      SwapFailsNodes(s, n, m);
    }
  }

  lemma SwapFailsNodes(s: State, n: NodeId, m: NodeId)
    requires Inv(s) && n < |s.pc| && s.pc[n].Swap? && !SwapsIn(s, n)
    requires m < |s.pc| && (m == n || PcLock(s.pc[m]) == s.pc[n].l)
    ensures Shaped(NodeAccess(s, n)) && NodeInv(NodeAccess(s, n), m)
  {
    var l := s.pc[n].l;
    AccessShaped(s, n);
    assert NodeAccess(s, n) == Goto(s, n, Reload(l));
    assert LockInv(s, l) && NodeInv(s, n) && NodeInv(s, m);
    if m != n {
      FrameNode(s, NodeAccess(s, n), m, {n});
    }
  }

  lemma DropTailEmpties(s: State, n: NodeId)
    requires Inv(s) && n < |s.pc| && s.pc[n].DropTail? && s.entries[s.pc[n].l].tail == n
    ensures Shaped(NodeAccess(s, n)) && s.queue[s.pc[n].l] == [n]
    ensures LockInv(NodeAccess(s, n), s.pc[n].l)
  {
    var i := Place(s, n, s.pc[n].l);
    assert NodeInv(s, n);
  }

  lemma DropTailLock(s: State, n: NodeId)
    requires Inv(s) && n < |s.pc| && s.pc[n].DropTail? && !Races(s, Access(n))
    ensures Shaped(NodeAccess(s, n)) && LockInv(NodeAccess(s, n), s.pc[n].l)
  {
    var t, l := NodeAccess(s, n), s.pc[n].l;
    var i := Place(s, n, l);
    if s.entries[l].tail == n {
      DropTailEmpties(s, n);
    } else {
      FirstMoves(s, t, l);
    }
  }

  lemma DropTailNodes(s: State, n: NodeId, m: NodeId)
    requires Inv(s) && n < |s.pc| && s.pc[n].DropTail? && !Races(s, Access(n))
    requires m < |s.pc| && (m == n || PcLock(s.pc[m]) == s.pc[n].l)
    ensures Shaped(NodeAccess(s, n)) && NodeInv(NodeAccess(s, n), m)
  {
    var l := s.pc[n].l;
    AccessShaped(s, n);
    assert LockInv(s, l) && NodeInv(s, n) && NodeInv(s, m);
    var i := Place(s, n, l);
    if InQueue(s.pc[m], l) {
      var j := Place(s, m, l);
    }
  }

  lemma PassOwnerQueue(s: State, n: NodeId)
    requires Inv(s) && n < |s.pc| && s.pc[n].PassOwner?
    ensures Shaped(NodeAccess(s, n))
    ensures QueueInv(NodeAccess(s, n), s.pc[n].l)
    ensures s.queue[s.pc[n].l] == [n] + NodeAccess(s, n).queue[s.pc[n].l]
  {
    var l := s.pc[n].l;
    var i := Place(s, n, l);
    assert NodeInv(s, n);
  }

  lemma PassOwnerLinks(s: State, n: NodeId)
    requires Inv(s) && n < |s.pc| && s.pc[n].PassOwner?
    ensures Shaped(NodeAccess(s, n))
    ensures QueueInv(NodeAccess(s, n), s.pc[n].l) && LinkInv(NodeAccess(s, n), s.pc[n].l)
  {
    var t, l := NodeAccess(s, n), s.pc[n].l;
    PassOwnerQueue(s, n);
    assert LockInv(s, l);
    forall i | 1 <= i < |t.queue[l]| ensures LinkedAt(t, l, i) {
      assert LinkedAt(s, l, i + 1);
    }
  }

  lemma PassOwnerFirst(s: State, n: NodeId)
    requires Inv(s) && n < |s.pc| && s.pc[n].PassOwner?
    ensures Shaped(NodeAccess(s, n)) && SameSize(s, NodeAccess(s, n))
    ensures NodeAccess(s, n).queue[s.pc[n].l] != [] && QueueInv(NodeAccess(s, n), s.pc[n].l)
    ensures FirstInv(NodeAccess(s, n), s.pc[n].l) && OwnerInv(NodeAccess(s, n), s.pc[n].l)
  {
    PassOwnerQueue(s, n);
    var i := Place(s, n, s.pc[n].l);
    assert NodeInv(s, n) && LinkedAt(s, s.pc[n].l, 1);
  }

  /** Dropping the first of the queue and logging the second as owner. */
  lemma LogShifts(swaps: seq<NodeId>, released: nat, queue: seq<NodeId>, owners: seq<NodeId>)
    requires released < |swaps| && queue == swaps[released..] && |queue| >= 2
    requires |owners| == released + 1 && owners == swaps[..|owners|]
    ensures released + 1 < |swaps| && queue[1..] == swaps[released + 1..]
    ensures owners + [queue[1]] == swaps[..|owners| + 1]
  {
    assert queue[1] == swaps[released + 1];
  }

  /** The holder that passes the lock on is logged, and somebody stands behind it. */
  lemma PassOwnerHolds(s: State, n: NodeId)
    requires Inv(s) && n < |s.pc| && s.pc[n].PassOwner?
    ensures var l := s.pc[n].l;
            && |s.queue[l]| >= 2 && s.queue[l][0] == n && s.queue[l][1] == s.pc[n].succ && Holder(s, l) == Some(n) && LogInv(s, l)
  {
    var i := Place(s, n, s.pc[n].l);
    assert NodeInv(s, n);
  }

  lemma PassOwnerLog(s: State, n: NodeId)
    requires Inv(s) && n < |s.pc| && s.pc[n].PassOwner?
    ensures Shaped(NodeAccess(s, n)) && SameSize(s, NodeAccess(s, n)) && LogInv(NodeAccess(s, n), s.pc[n].l)
  {
    var l := s.pc[n].l;
    PassOwnerFirst(s, n);
    PassOwnerHolds(s, n);
    LogShifts(s.swaps[l], s.releases[l], s.queue[l], s.owners[l]);
    var t := NodeAccess(s, n);
    assert t.queue[l] == s.queue[l][1..] && t.owners[l] == s.owners[l] + [s.queue[l][1]] && t.swaps[l] == s.swaps[l];
    assert Holder(t, l) == Some(s.queue[l][1]);
  }

  lemma PassOwnerLock(s: State, n: NodeId)
    requires Inv(s) && n < |s.pc| && s.pc[n].PassOwner?
    ensures Shaped(NodeAccess(s, n)) && LockInv(NodeAccess(s, n), s.pc[n].l)
  {
    var t, l := NodeAccess(s, n), s.pc[n].l;
    PassOwnerLinks(s, n);
    PassOwnerFirst(s, n);
    PassOwnerLog(s, n);
  }

  lemma PassOwnerNodes(s: State, n: NodeId, m: NodeId)
    requires Inv(s) && n < |s.pc| && s.pc[n].PassOwner? && !Races(s, Access(n))
    requires m < |s.pc| && (m == n || PcLock(s.pc[m]) == s.pc[n].l)
    ensures Shaped(NodeAccess(s, n)) && NodeInv(NodeAccess(s, n), m)
  {
    var l := s.pc[n].l;
    AccessShaped(s, n);
    assert LockInv(s, l) && NodeInv(s, n) && NodeInv(s, m);
    if m == n {
      PassOwnerOwn(s, n);
    } else {
      var i := Place(s, n, l);
      assert LinkedAt(s, l, 1);
      if InQueue(s.pc[m], l) {
        var j := Place(s, m, l);
      }
    }
  }

  lemma PassOwnerOwn(s: State, n: NodeId)
    requires Inv(s) && n < |s.pc| && s.pc[n].PassOwner?
    ensures Shaped(NodeAccess(s, n)) && NodeInv(NodeAccess(s, n), n)
  {
    AccessShaped(s, n);
    assert NodeInv(s, n);
    var i := Place(s, n, s.pc[n].l);
    assert LinkedAt(s, s.pc[n].l, 1);
  }

  /** A step that concerns lock `l` only: `l` and the touched nodes are as they should be. */
  ghost predicate Settled(s: State, t: State, l: LockId, touched: set<NodeId>)
    requires Shaped(s)
  {
    && Shaped(t) && SameSize(s, t) && l < |s.entries| && t.mgr == s.mgr
    && (forall k :: 0 <= k < |s.entries| && k != l ==> SameLock(s, t, k))
    && SameNodes(s, t, touched)
    && (forall m :: m in touched && m < |s.pc| ==> PcLock(s.pc[m]) == l)
    && LockInv(t, l)
    && (forall m :: 0 <= m < |s.pc| && (m in touched || PcLock(s.pc[m]) == l) ==> NodeInv(t, m))
  }

  lemma SettledLock(s: State, t: State, l: LockId, touched: set<NodeId>, k: LockId)
    requires Inv(s) && Settled(s, t, l, touched) && k < |t.entries|
    ensures LockInv(t, k)
  {
    if k != l {
      assert LockInv(s, k);
      FrameLock(s, t, k, touched);
    }
  }

  lemma SettledNode(s: State, t: State, l: LockId, touched: set<NodeId>, m: NodeId)
    requires Inv(s) && Settled(s, t, l, touched) && m < |t.pc|
    ensures NodeInv(t, m)
  {
    if m !in touched && PcLock(s.pc[m]) != l {
      assert LockInv(s, PcLock(s.pc[m])) && NodeInv(s, m);
      FrameNode(s, t, m, touched);
    }
  }

  lemma SettledManager(s: State, t: State, l: LockId, touched: set<NodeId>)
    requires Inv(s) && Settled(s, t, l, touched)
    requires s.mgr != Between && s.mgr.l != l
    ensures ManagerInv(t)
  {
    assert LockInv(s, s.mgr.l) && SameLock(s, t, s.mgr.l);
    if !s.mgr.LoadHead? {
      assert InQueue(s.pc[s.mgr.h], s.mgr.l);
    }
  }

  lemma KeepsOneWaker(s: State, t: State, n: NodeId)
    requires OneWaker(s) && n < |s.pc| && |t.pc| == |s.pc| && t.pc == s.pc[n := t.pc[n]]
    requires !t.pc[n].Wake?
    ensures OneWaker(t)
  {
    forall a, b, l | 0 <= a < |t.pc| && 0 <= b < |t.pc| && WakesOn(t.pc[a], l) && WakesOn(t.pc[b], l)
      ensures a == b
    {
      assert WakesOn(s.pc[a], l) && WakesOn(s.pc[b], l);
    }
  }

  /** A step of node `n` on the lock the manager is looking at. */
  lemma ManagerStays(s: State, t: State, l: LockId, n: NodeId)
    requires Inv(s) && Shaped(t) && SameSize(s, t) && t.mgr == s.mgr
    requires s.mgr != Between ==> s.mgr.l == l
    requires l < |s.entries| && t.entries[l] == s.entries[l] && t.queue[l] == s.queue[l]
    requires forall m :: 0 <= m < |s.pc| && m != n ==> t.pc[m] == s.pc[m]
    requires n < |s.pc| && t.pc[n] != SetHead(l) && !Leaving(t.pc[n], l)
    ensures ManagerInv(t)
  {
  }

  lemma Assemble(s: State, t: State, l: LockId, touched: set<NodeId>)
    requires Inv(s) && Settled(s, t, l, touched) && OneWaker(t)
    requires s.mgr != Between && s.mgr.l == l ==> ManagerInv(t)
    ensures Inv(t)
  {
    forall k | 0 <= k < |t.entries| ensures LockInv(t, k) {
      SettledLock(s, t, l, touched, k);
    }
    forall m | 0 <= m < |t.pc| ensures NodeInv(t, m) {
      SettledNode(s, t, l, touched, m);
    }
    if s.mgr != Between && s.mgr.l != l {
      SettledManager(s, t, l, touched);
    }
  }

  // ------------------------------------------------------------------------------------
  // The accesses of a node to a lock, together
  // ------------------------------------------------------------------------------------

  /** An access of `n` that concerns the lock it works on, and does not race. */
  ghost predicate LockAccess(s: State, n: NodeId)
  {
    && Inv(s) && n < |s.pc| && Enabled(s, Access(n)) && !Races(s, Access(n))
    && !s.pc[n].ResetNext? && !s.pc[n].ResetLocked? && !s.pc[n].ResetWaiting?
  }

  /** The nodes whose record or program counter the access may change. */
  function Touched(s: State, n: NodeId): set<NodeId>
    requires n < |s.pc|
  {
    if s.pc[n].LinkPred? then {n, s.pc[n].pred} else if s.pc[n].Wake? then {n, s.pc[n].succ} else {n}
  }

  lemma AccessKeepsLock(s: State, n: NodeId)
    requires LockAccess(s, n)
    ensures Shaped(NodeAccess(s, n)) && s.pc[n].l < |NodeAccess(s, n).entries| && LockInv(NodeAccess(s, n), s.pc[n].l)
  {
    AccessShaped(s, n);
    match s.pc[n] {
      case Swap(_, _) => SwapLock(s, n);
      case Reload(_) => ReloadLock(s, n);
      case SetHead(_) => SetHeadLock(s, n);
      case LinkPred(_, _) => LinkPredLock(s, n);
      case Waiting(_) => PollsLock(s, n);
      case PollLock(_, _) => PollsLock(s, n);
      case CheckCancel(_) => PollsLock(s, n);
      case CheckOwner(_) => CheckOwnerLock(s, n);
      case ReadNext(_) => LooksBehindLock(s, n);
      case DropTail(_) => DropTailLock(s, n);
      case Spin(_) => LooksBehindLock(s, n);
      case PassHead(_, _) => PassHeadLock(s, n);
      case PassOwner(_, _) => PassOwnerLock(s, n);
      case Wake(_, _) => WakeLock(s, n);
      case ClearHead(_) => LeavesLock(s, n);
      case ClearOwner(_) => LeavesLock(s, n);
    }
  }

  lemma AccessKeepsNodes(s: State, n: NodeId, m: NodeId)
    requires LockAccess(s, n) && m < |s.pc| && (m == n || PcLock(s.pc[m]) == s.pc[n].l)
    ensures Shaped(NodeAccess(s, n)) && m < |NodeAccess(s, n).pc| && NodeInv(NodeAccess(s, n), m)
  {
    AccessShaped(s, n);
    match s.pc[n] {
      case Swap(_, _) => SwapNodes(s, n, m);
      case Reload(_) => ReloadNodes(s, n, m);
      case SetHead(_) => SetHeadNodes(s, n, m);
      case LinkPred(_, _) => LinkPredNodes(s, n, m);
      case Waiting(_) => PollsNodes(s, n, m);
      case PollLock(_, _) => PollsNodes(s, n, m);
      case CheckCancel(_) => PollsNodes(s, n, m);
      case CheckOwner(_) => CheckOwnerNodes(s, n, m);
      case ReadNext(_) => LooksBehindNodes(s, n, m);
      case DropTail(_) => DropTailNodes(s, n, m);
      case Spin(_) => LooksBehindNodes(s, n, m);
      case PassHead(_, _) => PassHeadNodes(s, n, m);
      case PassOwner(_, _) => PassOwnerNodes(s, n, m);
      case Wake(_, _) => WakeNodes(s, n, m);
      case ClearHead(_) => LeavesNodes(s, n, m);
      case ClearOwner(_) => LeavesNodes(s, n, m);
    }
  }

  /** The access stores in the entry of the lock and not in a node record. */
  predicate StoresEntry(p: Pc)
  {
    p.Swap? || p.SetHead? || p.DropTail? || p.PassHead? || p.PassOwner? || p.ClearHead? || p.ClearOwner?
  }

  lemma EntryStoreFrame(s: State, n: NodeId)
    requires Shaped(s) && Enabled(s, Access(n)) && StoresEntry(s.pc[n])
    ensures var t := NodeAccess(s, n);
            && Shaped(t) && SameSize(s, t) && t.mgr == s.mgr && t.nodes == s.nodes && t.pc == s.pc[n := t.pc[n]]
            && (forall k :: 0 <= k < |s.entries| && k != s.pc[n].l ==> SameLock(s, t, k))
  {
    AccessShaped(s, n);
  }

  /** Nothing changes in other locks and in the records of nodes that are not touched. */
  lemma AccessFrame(s: State, n: NodeId)
    requires Shaped(s) && Enabled(s, Access(n))
    ensures var t := NodeAccess(s, n);
            && Shaped(t) && SameSize(s, t) && t.mgr == s.mgr && SameNodes(s, t, Touched(s, n))
            && (forall k :: 0 <= k < |s.entries| && k != PcLock(s.pc[n]) ==> SameLock(s, t, k))
            && t.pc == s.pc[n := t.pc[n]]
  {
    AccessShaped(s, n);
    if StoresEntry(s.pc[n]) {
      EntryStoreFrame(s, n);
    }
  }

  lemma TouchedAreOnTheLock(s: State, n: NodeId, m: NodeId)
    requires LockAccess(s, n) && m in Touched(s, n) && m < |s.pc|
    ensures PcLock(s.pc[m]) == s.pc[n].l
  {
    if s.pc[n].LinkPred? {
      PredIsQueued(s, n);
    } else if s.pc[n].Wake? {
      assert NodeInv(s, n) && LockInv(s, s.pc[n].l);
      assert InQueue(s.pc[s.pc[n].succ], s.pc[n].l);
    }
  }

  lemma AccessSettles(s: State, n: NodeId)
    requires LockAccess(s, n)
    ensures Settled(s, NodeAccess(s, n), s.pc[n].l, Touched(s, n))
  {
    var t, l, touched := NodeAccess(s, n), s.pc[n].l, Touched(s, n);
    AccessFrame(s, n);
    AccessKeepsLock(s, n);
    forall m | m in touched && m < |s.pc| ensures PcLock(s.pc[m]) == l {
      TouchedAreOnTheLock(s, n, m);
    }
    forall m | 0 <= m < |s.pc| && (m in touched || PcLock(s.pc[m]) == l) ensures NodeInv(t, m) {
      AccessKeepsNodes(s, n, m);
    }
  }

  /** The manager's loads of the lock stay true. */
  lemma AccessKeepsManager(s: State, n: NodeId)
    requires LockAccess(s, n) && s.mgr != Between && s.mgr.l == s.pc[n].l
    ensures Shaped(NodeAccess(s, n)) && ManagerInv(NodeAccess(s, n))
  {
    var t, l := NodeAccess(s, n), s.pc[n].l;
    AccessFrame(s, n);
    if s.pc[n].Reload? || s.pc[n].LinkPred? || IsPolling(s.pc[n]) {
      ManagerStays(s, t, l, n);
    } else if s.pc[n].Swap? {
      SwapKeepsManager(s, n);
    } else {
      OwnerAccessKeepsManager(s, n);
    }
  }

  lemma SwapKeepsManager(s: State, n: NodeId)
    requires LockAccess(s, n) && s.mgr != Between && s.mgr.l == s.pc[n].l && s.pc[n].Swap?
    ensures Shaped(NodeAccess(s, n)) && ManagerInv(NodeAccess(s, n))
  {
    AccessShaped(s, n);
    assert LockInv(s, s.pc[n].l) && NodeInv(s, n);
  }

  /** The manager looks only at a lock without an owner. */
  lemma OwnerAccessKeepsManager(s: State, n: NodeId)
    requires LockAccess(s, n) && s.mgr != Between && s.mgr.l == s.pc[n].l
    requires !s.pc[n].Swap? && !s.pc[n].Reload? && !s.pc[n].LinkPred? && !IsPolling(s.pc[n])
    ensures Shaped(NodeAccess(s, n)) && ManagerInv(NodeAccess(s, n))
  {
    AccessShaped(s, n);
    var l := s.pc[n].l;
    assert LockInv(s, l) && NodeInv(s, n);
    if InQueue(s.pc[n], l) {
      var i := Place(s, n, l);
    }
  }

  /** A pending wake-up is for the first node of the queue, which is not passing the lock on. */
  lemma PassOwnerOneWaker(s: State, n: NodeId)
    requires Inv(s) && n < |s.pc| && s.pc[n].PassOwner?
    ensures OneWaker(NodeAccess(s, n))
  {
    var t := NodeAccess(s, n);
    var i := Place(s, n, s.pc[n].l);
    forall a, b, l | 0 <= a < |t.pc| && 0 <= b < |t.pc| && WakesOn(t.pc[a], l) && WakesOn(t.pc[b], l)
      ensures a == b
    {
      assert NodeInv(s, a) && NodeInv(s, b);
      assert a != n ==> WakesOn(s.pc[a], l);
      assert b != n ==> WakesOn(s.pc[b], l);
    }
  }

  lemma AccessKeepsOneWaker(s: State, n: NodeId)
    requires LockAccess(s, n)
    ensures Shaped(NodeAccess(s, n)) && OneWaker(NodeAccess(s, n))
  {
    AccessFrame(s, n);
    if s.pc[n].PassOwner? {
      PassOwnerOneWaker(s, n);
    } else {
      KeepsOneWaker(s, NodeAccess(s, n), n);
    }
  }

  lemma StepAccess(s: State, n: NodeId)
    requires LockAccess(s, n)
    ensures Inv(NodeAccess(s, n))
  {
    var t, l := NodeAccess(s, n), s.pc[n].l;
    AccessSettles(s, n);
    AccessKeepsOneWaker(s, n);
    if s.mgr != Between && s.mgr.l == l {
      AccessKeepsManager(s, n);
    }
    Assemble(s, t, l, Touched(s, n));
  }

  /** A step of a node that is on no lock and changes its own record only. */
  lemma Detached(s: State, t: State, n: NodeId)
    requires Inv(s) && Shaped(t) && SameSize(s, t) && n < |s.pc|
    requires forall k :: !On(s.pc[n], k)
    requires t == s.(pc := t.pc, nodes := t.nodes)
    requires forall m :: 0 <= m < |s.pc| && m != n ==> t.pc[m] == s.pc[m] && t.nodes[m] == s.nodes[m]
    requires NodeInv(t, n) && OneWaker(t)
    ensures Inv(t)
  {
    forall k | 0 <= k < |t.entries| ensures LockInv(t, k) {
      assert LockInv(s, k);
      FrameLock(s, t, k, {n});
    }
    forall m | 0 <= m < |t.pc| ensures NodeInv(t, m) {
      if m != n {
        assert LockInv(s, PcLock(s.pc[m])) && NodeInv(s, m);
        FrameNode(s, t, m, {n});
      }
    }
    if s.mgr != Between {
      assert LockInv(s, s.mgr.l) && !On(s.pc[n], s.mgr.l);
      if !s.mgr.LoadHead? {
        assert InQueue(s.pc[s.mgr.h], s.mgr.l);
      }
    }
  }

  lemma StepAcquire(s: State, n: NodeId, l: LockId)
    requires Inv(s) && Enabled(s, Acquire(n, l))
    ensures Inv(Apply(s, Acquire(n, l)))
  {
    KeepsOneWaker(s, Apply(s, Acquire(n, l)), n);
    Detached(s, Apply(s, Acquire(n, l)), n);
  }

  lemma BeginReleaseLock(s: State, n: NodeId)
    requires Inv(s) && Enabled(s, BeginRelease(n))
    ensures Shaped(Apply(s, BeginRelease(n))) && SameSize(s, Apply(s, BeginRelease(n)))
    ensures LockInv(Apply(s, BeginRelease(n)), s.pc[n].l) && s.pc[n].Holding?
  {
    var t, l := Apply(s, BeginRelease(n)), s.pc[n].l;
    assert NodeInv(s, n);
    var i := Place(s, n, l);
    FirstMoves(s, t, l);
  }

  lemma BeginReleaseNode(s: State, n: NodeId, m: NodeId)
    requires Inv(s) && Enabled(s, BeginRelease(n)) && s.pc[n].Holding? && m < |s.pc|
    ensures NodeInv(Apply(s, BeginRelease(n)), m)
  {
    assert NodeInv(s, n) && NodeInv(s, m);
  }

  lemma BeginReleaseSettled(s: State, n: NodeId)
    requires Inv(s) && Enabled(s, BeginRelease(n))
    ensures Settled(s, Apply(s, BeginRelease(n)), s.pc[n].l, {n})
  {
    BeginReleaseLock(s, n);
    forall m | 0 <= m < |s.pc| ensures NodeInv(Apply(s, BeginRelease(n)), m) {
      BeginReleaseNode(s, n, m);
    }
  }

  lemma StepBeginRelease(s: State, n: NodeId)
    requires Inv(s) && Enabled(s, BeginRelease(n))
    ensures Inv(Apply(s, BeginRelease(n)))
  {
    var t, l := Apply(s, BeginRelease(n)), s.pc[n].l;
    BeginReleaseSettled(s, n);
    KeepsOneWaker(s, t, n);
    if s.mgr != Between && s.mgr.l == l {
      ManagerStays(s, t, l, n);
    }
    Assemble(s, t, l, {n});
  }

  lemma BeginCancelLock(s: State, n: NodeId)
    requires Inv(s) && Enabled(s, BeginCancel(n))
    ensures Shaped(Apply(s, BeginCancel(n))) && SameSize(s, Apply(s, BeginCancel(n)))
    ensures LockInv(Apply(s, BeginCancel(n)), s.pc[n].l)
  {
    var t, l := Apply(s, BeginCancel(n)), s.pc[n].l;
    var j := Place(s, n, l);
    assert OnlyPcMoves(s, t, l, n);
    if j == 0 {
      FirstMoves(s, t, l);
    } else {
      PollerMoves(s, t, l, j);
    }
  }

  lemma BeginCancelNode(s: State, n: NodeId, m: NodeId)
    requires Inv(s) && Enabled(s, BeginCancel(n)) && m < |s.pc|
    ensures NodeInv(Apply(s, BeginCancel(n)), m)
  {
    assert NodeInv(s, n) && NodeInv(s, m);
  }

  lemma BeginCancelSettled(s: State, n: NodeId)
    requires Inv(s) && Enabled(s, BeginCancel(n))
    ensures Settled(s, Apply(s, BeginCancel(n)), s.pc[n].l, {n})
  {
    BeginCancelLock(s, n);
    forall m | 0 <= m < |s.pc| ensures NodeInv(Apply(s, BeginCancel(n)), m) {
      BeginCancelNode(s, n, m);
    }
  }

  lemma StepBeginCancel(s: State, n: NodeId)
    requires Inv(s) && Enabled(s, BeginCancel(n))
    ensures Inv(Apply(s, BeginCancel(n)))
  {
    var t, l := Apply(s, BeginCancel(n)), s.pc[n].l;
    BeginCancelSettled(s, n);
    KeepsOneWaker(s, t, n);
    if s.mgr != Between && s.mgr.l == l {
      ManagerStays(s, t, l, n);
    }
    Assemble(s, t, l, {n});
  }

  lemma StepReset(s: State, n: NodeId)
    requires Inv(s) && n < |s.pc| && (s.pc[n].ResetNext? || s.pc[n].ResetLocked? || s.pc[n].ResetWaiting?)
    ensures Inv(NodeAccess(s, n))
  {
    KeepsOneWaker(s, NodeAccess(s, n), n);
    Detached(s, NodeAccess(s, n), n);
  }

  /** The manager moves without a store. */
  lemma ManagerLooks(s: State, t: State)
    requires Inv(s) && Shaped(t) && t == s.(mgr := t.mgr) && !s.mgr.StoreOwner? && !t.mgr.StoreOwner?
    requires ManagerInv(t)
    ensures Inv(t)
  {
    forall k | 0 <= k < |t.entries| ensures LockInv(t, k) {
      assert LockInv(s, k);
      FrameLock(s, t, k, {});
    }
    forall m | 0 <= m < |t.pc| ensures NodeInv(t, m) {
      assert LockInv(s, PcLock(s.pc[m])) && NodeInv(s, m);
      FrameNode(s, t, m, {});
    }
  }

  lemma StepCheck(s: State, l: LockId)
    requires Inv(s) && s.mgr == Between && l < |s.entries|
    ensures Inv(ManagerCheck(s, l))
  {
    ManagerLooks(s, ManagerCheck(s, l));
  }

  lemma ManagerLoads(s: State)
    requires Inv(s) && s.mgr != Between && !s.mgr.StoreLocked? && !s.mgr.StoreOwner?
    ensures Inv(ManagerAccess(s))
  {
    assert LockInv(s, s.mgr.l);
    if s.queue[s.mgr.l] != [] {
      assert InQueue(s.pc[s.queue[s.mgr.l][0]], s.mgr.l);
    }
    ManagerLooks(s, ManagerAccess(s));
  }

  /** A step of the manager that stores in lock `l` and the record of its first node. */
  ghost predicate ManagerStored(s: State, t: State, l: LockId)
    requires Shaped(s) && Shaped(t)
  {
    && SameSize(s, t) && s.mgr != Between && s.mgr.l == l && !s.mgr.LoadHead? && IsFirst(s, l, s.mgr.h)
    && (t.mgr != Between ==> t.mgr.l == l)
    && t == s.(entries := t.entries, nodes := t.nodes, owners := t.owners, mgr := t.mgr)
    && (forall k :: 0 <= k < |s.entries| && k != l ==> t.entries[k] == s.entries[k] && t.owners[k] == s.owners[k])
    && (forall m :: 0 <= m < |s.pc| && m != s.mgr.h ==> t.nodes[m] == s.nodes[m])
  }

  lemma ManagerStoredElsewhere(s: State, t: State, l: LockId, k: LockId)
    requires Inv(s) && Shaped(t) && ManagerStored(s, t, l) && k < |s.entries| && k != l
    ensures LockInv(t, k)
    ensures forall m :: 0 <= m < |s.pc| && PcLock(s.pc[m]) == k ==> NodeInv(t, m)
  {
    assert LockInv(s, l) && InQueue(s.pc[s.mgr.h], l) && LockInv(s, k);
    FrameLock(s, t, k, {s.mgr.h});
    forall m | 0 <= m < |s.pc| && PcLock(s.pc[m]) == k ensures NodeInv(t, m) {
      assert NodeInv(s, m);
      FrameNode(s, t, m, {s.mgr.h});
    }
  }

  lemma ManagerStores(s: State, t: State, l: LockId)
    requires Inv(s) && Shaped(t) && ManagerStored(s, t, l)
    requires LockInv(t, l) && ManagerInv(t)
    requires forall m :: 0 <= m < |s.pc| && PcLock(s.pc[m]) == l ==> NodeInv(t, m)
    ensures Inv(t)
  {
    forall k | 0 <= k < |t.entries| && k != l
      ensures LockInv(t, k)
      ensures forall m :: 0 <= m < |s.pc| && PcLock(s.pc[m]) == k ==> NodeInv(t, m)
    {
      ManagerStoredElsewhere(s, t, l, k);
    }
    forall m | 0 <= m < |t.pc| ensures NodeInv(t, m) {
      if PcLock(s.pc[m]) != l {
        ManagerStoredElsewhere(s, t, l, PcLock(s.pc[m]));
      }
    }
  }

  lemma StoreLockedLock(s: State)
    requires Inv(s) && s.mgr.StoreLocked?
    ensures Shaped(ManagerAccess(s)) && LockInv(ManagerAccess(s), s.mgr.l)
  {
    var t, l, h := ManagerAccess(s), s.mgr.l, s.mgr.h;
    assert LockInv(s, l) && InQueue(s.pc[h], l);
    assert QueueInv(t, l);
    forall i | 1 <= i < |t.queue[l]| ensures LinkedAt(t, l, i) {
      assert LinkedAt(s, l, i);
    }
    assert h == s.swaps[l][s.releases[l]];
    assert LogInv(t, l);
  }

  lemma StepStoreLocked(s: State)
    requires Inv(s) && s.mgr.StoreLocked?
    ensures Inv(ManagerAccess(s))
  {
    var t, l := ManagerAccess(s), s.mgr.l;
    assert LockInv(s, l);
    StoreLockedLock(s);
    forall m | 0 <= m < |s.pc| && PcLock(s.pc[m]) == l ensures NodeInv(t, m) {
      assert NodeInv(s, m);
    }
    ManagerStores(s, t, l);
  }

  lemma StepStoreOwner(s: State)
    requires Inv(s) && s.mgr.StoreOwner?
    ensures Inv(ManagerAccess(s))
  {
    var t, l, h := ManagerAccess(s), s.mgr.l, s.mgr.h;
    assert LockInv(s, l) && InQueue(s.pc[h], l);
    assert QueueInv(t, l);
    forall i | 1 <= i < |t.queue[l]| ensures LinkedAt(t, l, i) {
      assert LinkedAt(s, l, i);
    }
    forall m | 0 <= m < |s.pc| && PcLock(s.pc[m]) == l ensures NodeInv(t, m) {
      assert NodeInv(s, m);
    }
    ManagerStores(s, t, l);
  }

  /** Every step of a race-free run keeps the invariant. */
  lemma StepInv(s: State, st: Step)
    requires Inv(s) && Enabled(s, st) && !Races(s, st)
    ensures Inv(Apply(s, st))
  {
    match st {
      case Acquire(n, l) => StepAcquire(s, n, l);
      case BeginRelease(n) => StepBeginRelease(s, n);
      case BeginCancel(n) => StepBeginCancel(s, n);
      case Check(l) => StepCheck(s, l);
      case Manage =>
        match s.mgr {
          case StoreLocked(_, _) => StepStoreLocked(s);
          case StoreOwner(_, _) => StepStoreOwner(s);
          case _ => ManagerLoads(s);
        }
      case Access(n) =>
        if s.pc[n].ResetNext? || s.pc[n].ResetLocked? || s.pc[n].ResetWaiting? {
          StepReset(s, n);
        } else {
          StepAccess(s, n);
        }
    }
  }
}
