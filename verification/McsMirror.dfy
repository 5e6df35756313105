/**
 The runs of the MCS queue lock in which the races may happen.  As long as no wake-up comes
 too late, such a run is the image of a race-free one: a refused owner check has not been
 made there, a head that was stored to be erased has not been stored, and a wake-up that a
 cancel did not wait for has been made.
 */
module McsMirror {
  import opened LockTypes
  import opened McsProtocol
  import opened McsInvariant
  import opened McsPreservation
  import opened McsTheorems

  /** The node has asked for its lock, and has not seen the grant. */
  predicate Requesting(p: Pc)
  {
    p.Swap? || p.Reload? || p.SetHead? || p.LinkPred? || IsPolling(p)
  }

  /** The step is a wake-up that lands in the record of a node that has asked again and has not been granted. */
  predicate WakesTooLate(s: State, st: Step)
    requires Shaped(s)
  {
    st.Access? && st.n < |s.pc| && s.pc[st.n].Wake? &&
    var m := s.pc[st.n].succ;
    m < |s.pc| && Requesting(s.pc[m]) && !Granted(s, s.pc[m].l, m)
  }

  /** No wake-up comes too late, and a refused holder does nothing but ask again. */
  predicate Calm(s: State, st: Step)
    requires Shaped(s)
  {
    !WakesTooLate(s, st) && (st.Acquire? && st.n < |s.pc| ==> s.pc[st.n] == Idle)
  }

  /** The program counter `p` of a node, and `q` of its mirror image. */
  predicate PcMirrors(p: Pc, q: Pc)
  {
    || p == q
    || (q.CheckOwner? && p == Refused(q.l))
    || (q.SetHead? && (p == Waiting(q.l) || p == PollLock(q.l, 1) || p == CheckCancel(q.l)))
    || (q == ResetNext && p.Wake?)
    || (q.PollLock? && q.v == 2 && p == PollLock(q.l, 0))
  }

  /** `locked` is read only while the node asks; the manager's 2 and a hand-off's 0 both say "granted". */
  predicate RecordMirrors(a: McsNode, b: McsNode, q: Pc)
  {
    a.next == b.next && a.waiting == b.waiting &&
    (Requesting(q) ==> a.locked == b.locked || (a.locked == 0 && b.locked == 2))
  }

  predicate NodeMirrors(s: State, u: State, n: NodeId)
    requires n < |s.pc| && n < |u.pc| && n < |s.nodes| && n < |u.nodes|
  {
    PcMirrors(s.pc[n], u.pc[n]) && RecordMirrors(s.nodes[n], u.nodes[n], u.pc[n])
  }

  predicate EntryMirrors(s: State, u: State, l: LockId)
    requires Shaped(u) && l < |s.entries| && l < |u.entries|
  {
    && s.entries[l].tail == u.entries[l].tail && s.entries[l].owner == u.entries[l].owner
    && (s.entries[l].head == u.entries[l].head || Departing(u, l))
  }

  /** `u` is the mirror image of `s`. */
  ghost predicate Mirrors(s: State, u: State)
  {
    && Shaped(s) && Shaped(u) && |s.pc| == |u.pc| && |s.entries| == |u.entries|
    && s.mgr == u.mgr && s.queue == u.queue && s.swaps == u.swaps && s.owners == u.owners && s.releases == u.releases
    && (forall n :: 0 <= n < |s.pc| ==> NodeMirrors(s, u, n))
    && (forall l :: 0 <= l < |s.entries| ==> EntryMirrors(s, u, l))
  }

  // ------------------------------------------------------------------------------------
  // Steps that the mirror image takes, too
  // ------------------------------------------------------------------------------------

  /** At most the nodes `a` and `b` have moved, in `s` or in `u`. */
  ghost predicate Moved(s: State, u: State, t: State, v: State, a: NodeId, b: NodeId)
  {
    && Mirrors(s, u) && Shaped(t) && Shaped(v)
    && |t.pc| == |s.pc| == |v.pc| && |t.entries| == |s.entries| == |v.entries|
    && t.mgr == v.mgr && t.queue == v.queue && t.swaps == v.swaps && t.owners == v.owners && t.releases == v.releases
    && (forall m :: 0 <= m < |s.pc| && m != a && m != b ==> t.pc[m] == s.pc[m] && v.pc[m] == u.pc[m])
  }

  lemma Follow(s: State, u: State, t: State, v: State, a: NodeId, b: NodeId)
    requires a < |s.pc| && b < |s.pc| && Moved(s, u, t, v, a, b) && NodeMirrors(t, v, a) && NodeMirrors(t, v, b)
    requires forall m :: 0 <= m < |s.pc| && m != a && m != b && NodeMirrors(s, u, m) ==> NodeMirrors(t, v, m)
    requires forall l :: 0 <= l < |s.entries| && EntryMirrors(s, u, l) ==> EntryMirrors(t, v, l)
    ensures Mirrors(t, v)
  {
  }

  lemma SwapBoth(s: State, u: State, n: NodeId)
    requires Mirrors(s, u) && n < |s.pc| && s.pc[n] == u.pc[n] && (u.pc[n].Swap? || u.pc[n].Reload?)
    ensures Mirrors(NodeAccess(s, n), NodeAccess(u, n))
  {
    AccessShaped(s, n);
    AccessShaped(u, n);
    AccessKeepsOthers(s, n);
    AccessKeepsOthers(u, n);
    assert NodeMirrors(s, u, n) && EntryMirrors(s, u, s.pc[n].l);
    Follow(s, u, NodeAccess(s, n), NodeAccess(u, n), n, n);
  }

  lemma LinkBoth(s: State, u: State, n: NodeId)
    requires Mirrors(s, u) && n < |s.pc| && s.pc[n] == u.pc[n] && u.pc[n].LinkPred?
    ensures Mirrors(NodeAccess(s, n), NodeAccess(u, n))
  {
    AccessShaped(s, n);
    AccessShaped(u, n);
    AccessKeepsOthers(s, n);
    AccessKeepsOthers(u, n);
    assert NodeMirrors(s, u, n) && EntryMirrors(s, u, s.pc[n].l);
    Follow(s, u, NodeAccess(s, n), NodeAccess(u, n), n, n);
  }

  lemma SetHeadBoth(s: State, u: State, n: NodeId)
    requires Mirrors(s, u) && n < |s.pc| && s.pc[n] == u.pc[n] && u.pc[n].SetHead?
    ensures Mirrors(NodeAccess(s, n), NodeAccess(u, n))
  {
    AccessShaped(s, n);
    AccessShaped(u, n);
    AccessKeepsOthers(s, n);
    AccessKeepsOthers(u, n);
    assert NodeMirrors(s, u, n) && EntryMirrors(s, u, s.pc[n].l);
    Follow(s, u, NodeAccess(s, n), NodeAccess(u, n), n, n);
  }

  lemma PollBoth(s: State, u: State, n: NodeId)
    requires Mirrors(s, u) && n < |s.pc| && (s.pc[n] == u.pc[n] || u.pc[n].PollLock?) && IsPolling(u.pc[n])
    ensures Enabled(s, Access(n)) && Mirrors(NodeAccess(s, n), NodeAccess(u, n))
  {
    assert NodeMirrors(s, u, n) && EntryMirrors(s, u, s.pc[n].l);
    AccessShaped(s, n);
    AccessShaped(u, n);
    AccessKeepsOthers(s, n);
    AccessKeepsOthers(u, n);
    Follow(s, u, NodeAccess(s, n), NodeAccess(u, n), n, n);
  }

  lemma CheckBoth(s: State, u: State, n: NodeId)
    requires Mirrors(s, u) && n < |s.pc| && s.pc[n] == u.pc[n]
    requires (u.pc[n].CheckOwner? || u.pc[n].ReadNext? || u.pc[n].Spin?)
    ensures Mirrors(NodeAccess(s, n), NodeAccess(u, n))
  {
    assert NodeMirrors(s, u, n) && EntryMirrors(s, u, s.pc[n].l);
    AccessShaped(s, n);
    AccessShaped(u, n);
    AccessKeepsOthers(s, n);
    AccessKeepsOthers(u, n);
    Follow(s, u, NodeAccess(s, n), NodeAccess(u, n), n, n);
  }

  lemma DropTailBoth(s: State, u: State, n: NodeId)
    requires Mirrors(s, u) && n < |s.pc| && s.pc[n] == u.pc[n] && u.pc[n].DropTail?
    ensures Mirrors(NodeAccess(s, n), NodeAccess(u, n))
  {
    assert NodeMirrors(s, u, n) && EntryMirrors(s, u, s.pc[n].l);
    AccessShaped(s, n);
    AccessShaped(u, n);
    AccessKeepsOthers(s, n);
    AccessKeepsOthers(u, n);
    Follow(s, u, NodeAccess(s, n), NodeAccess(u, n), n, n);
  }

  lemma PassHeadBoth(s: State, u: State, n: NodeId)
    requires Mirrors(s, u) && n < |s.pc| && s.pc[n] == u.pc[n] && u.pc[n].PassHead?
    ensures Mirrors(NodeAccess(s, n), NodeAccess(u, n))
  {
    assert NodeMirrors(s, u, n) && EntryMirrors(s, u, s.pc[n].l);
    AccessShaped(s, n);
    AccessShaped(u, n);
    AccessKeepsOthers(s, n);
    AccessKeepsOthers(u, n);
    Follow(s, u, NodeAccess(s, n), NodeAccess(u, n), n, n);
  }

  lemma PassOwnerBoth(s: State, u: State, n: NodeId)
    requires Inv(u) && Mirrors(s, u) && n < |s.pc| && s.pc[n] == u.pc[n] && u.pc[n].PassOwner?
    ensures Mirrors(NodeAccess(s, n), NodeAccess(u, n))
  {
    var t, v := NodeAccess(s, n), NodeAccess(u, n);
    OwnerStoreMoves(s, u, n);
    forall k | 0 <= k < |s.entries| && EntryMirrors(s, u, k) ensures EntryMirrors(t, v, k) {
      OwnerStoreMirrors(s, u, n, k);
    }
    Follow(s, u, t, v, n, n);
  }

  lemma OwnerStoreMoves(s: State, u: State, n: NodeId)
    requires Mirrors(s, u) && n < |s.pc| && s.pc[n] == u.pc[n] && u.pc[n].PassOwner?
    ensures var t, v := NodeAccess(s, n), NodeAccess(u, n);
            Moved(s, u, t, v, n, n) && NodeMirrors(t, v, n) && t.nodes == s.nodes && v.nodes == u.nodes
  {
    assert NodeMirrors(s, u, n) && EntryMirrors(s, u, u.pc[n].l);
    AccessShaped(s, n);
    AccessShaped(u, n);
    AccessKeepsOthers(s, n);
    AccessKeepsOthers(u, n);
  }

  lemma OwnerStoreMirrors(s: State, u: State, n: NodeId, k: LockId)
    requires Inv(u) && Mirrors(s, u) && n < |s.pc| && s.pc[n] == u.pc[n] && u.pc[n].PassOwner?
    requires k < |s.entries| && EntryMirrors(s, u, k)
    ensures Shaped(NodeAccess(u, n)) && |NodeAccess(s, n).entries| == |s.entries| == |NodeAccess(u, n).entries|
    ensures EntryMirrors(NodeAccess(s, n), NodeAccess(u, n), k)
  {
    AccessShaped(s, n);
    AccessShaped(u, n);
    var i := Place(u, n, u.pc[n].l);
    assert !Departing(u, u.pc[n].l);
  }

  lemma WakeBoth(s: State, u: State, n: NodeId)
    requires Mirrors(s, u) && n < |s.pc| && s.pc[n] == u.pc[n] && u.pc[n].Wake?
    ensures Mirrors(NodeAccess(s, n), NodeAccess(u, n))
  {
    assert NodeMirrors(s, u, n);
    AccessShaped(s, n);
    AccessShaped(u, n);
    AccessKeepsOthers(s, n);
    AccessKeepsOthers(u, n);
    Follow(s, u, NodeAccess(s, n), NodeAccess(u, n), n, n);
  }

  lemma ClearBoth(s: State, u: State, n: NodeId)
    requires Inv(u) && Mirrors(s, u) && n < |s.pc| && s.pc[n] == u.pc[n] && (u.pc[n].ClearHead? || u.pc[n].ClearOwner?)
    ensures Mirrors(NodeAccess(s, n), NodeAccess(u, n))
  {
    assert NodeMirrors(s, u, n) && NodeInv(u, n);
    AccessShaped(s, n);
    AccessShaped(u, n);
    AccessKeepsOthers(s, n);
    AccessKeepsOthers(u, n);
    Follow(s, u, NodeAccess(s, n), NodeAccess(u, n), n, n);
  }

  predicate Resets(p: Pc)
  {
    p.ResetNext? || p.ResetLocked? || p.ResetWaiting?
  }

  lemma ResetBoth(s: State, u: State, n: NodeId)
    requires Mirrors(s, u) && n < |s.pc| && s.pc[n] == u.pc[n] && Resets(u.pc[n])
    ensures Mirrors(NodeAccess(s, n), NodeAccess(u, n))
  {
    assert NodeMirrors(s, u, n);
    AccessShaped(s, n);
    AccessShaped(u, n);
    AccessKeepsOthers(s, n);
    AccessKeepsOthers(u, n);
    Follow(s, u, NodeAccess(s, n), NodeAccess(u, n), n, n);
  }

  lemma AcquireBoth(s: State, u: State, n: NodeId, l: LockId)
    requires Mirrors(s, u) && n < |s.pc| && l < |s.entries| && s.pc[n] == Idle
    ensures Enabled(u, Acquire(n, l)) && Mirrors(Apply(s, Acquire(n, l)), Apply(u, Acquire(n, l)))
  {
    assert NodeMirrors(s, u, n);
    Follow(s, u, Apply(s, Acquire(n, l)), Apply(u, Acquire(n, l)), n, n);
  }

  lemma BeginBoth(s: State, u: State, st: Step)
    requires Mirrors(s, u) && (st.BeginRelease? || st.BeginCancel?) && Enabled(s, st) && s.pc[st.n] == u.pc[st.n]
    ensures Enabled(u, st) && Mirrors(Apply(s, st), Apply(u, st))
  {
    assert NodeMirrors(s, u, st.n);
    Follow(s, u, Apply(s, st), Apply(u, st), st.n, st.n);
  }

  /** The first node of an unowned queue is only asking, and its record says so. */
  lemma FirstStillAsks(u: State, l: LockId, h: NodeId)
    requires Inv(u) && l < |u.entries| && IsFirst(u, l, h) && u.entries[l].owner == INVALID_NODE_ID
    requires u.mgr != StoreOwner(l, h)
    ensures Requesting(u.pc[h]) && u.nodes[h].locked == 1 && !Departing(u, l)
  {
    assert LockInv(u, l) && InQueue(u.pc[h], l);
  }

  /** The manager moves in both. */
  ghost predicate ManagerMoved(s: State, u: State, t: State, v: State)
  {
    && Mirrors(s, u) && Shaped(t) && Shaped(v)
    && |t.pc| == |s.pc| == |v.pc| && |t.entries| == |s.entries| == |v.entries|
    && t.mgr == v.mgr && t.queue == v.queue && t.swaps == v.swaps && t.owners == v.owners && t.releases == v.releases
  }

  lemma FollowManager(s: State, u: State, t: State, v: State)
    requires ManagerMoved(s, u, t, v)
    requires forall m :: 0 <= m < |s.pc| && NodeMirrors(s, u, m) ==> NodeMirrors(t, v, m)
    requires forall l :: 0 <= l < |s.entries| && EntryMirrors(s, u, l) ==> EntryMirrors(t, v, l)
    ensures Mirrors(t, v)
  {
  }

  lemma ManagerLoadsBoth(s: State, u: State)
    requires Inv(u) && Mirrors(s, u) && (s.mgr.LoadHead? || s.mgr.LoadLocked? || s.mgr.LoadWaiting?)
    ensures Mirrors(ManagerAccess(s), ManagerAccess(u))
  {
    var l := u.mgr.l;
    assert EntryMirrors(s, u, l);
    if u.mgr.LoadHead? {
      assert !Departing(u, l);
    } else {
      FirstStillAsks(u, l, u.mgr.h);
      assert NodeMirrors(s, u, u.mgr.h);
    }
    assert ManagerAccess(s).mgr == ManagerAccess(u).mgr;
    FollowManager(s, u, ManagerAccess(s), ManagerAccess(u));
  }

  lemma ManagerStoresBoth(s: State, u: State)
    requires Inv(u) && Mirrors(s, u) && (s.mgr.StoreLocked? || s.mgr.StoreOwner?)
    ensures Mirrors(ManagerAccess(s), ManagerAccess(u))
  {
    assert EntryMirrors(s, u, u.mgr.l) && !Departing(u, u.mgr.l);
    FollowManager(s, u, ManagerAccess(s), ManagerAccess(u));
  }

  // ------------------------------------------------------------------------------------
  // Steps that the mirror image does not take
  // ------------------------------------------------------------------------------------

  /** The race at the store of the head. */
  lemma HeadStoreSkipped(s: State, u: State, n: NodeId)
    requires Mirrors(s, u) && n < |s.pc| && s.pc[n] == u.pc[n] && u.pc[n].SetHead? && Departing(u, u.pc[n].l)
    ensures Mirrors(NodeAccess(s, n), u)
  {
    AccessShaped(s, n);
    assert NodeMirrors(s, u, n) && EntryMirrors(s, u, s.pc[n].l);
    Follow(s, u, NodeAccess(s, n), u, n, n);
  }

  /** After it the node polls in vain. */
  lemma HeadlessPolls(s: State, u: State, n: NodeId)
    requires Inv(u) && Mirrors(s, u) && n < |s.pc| && u.pc[n].SetHead? && IsPolling(s.pc[n])
    ensures Mirrors(NodeAccess(s, n), u)
  {
    AccessShaped(s, n);
    var i := Place(u, n, u.pc[n].l);
    assert NodeMirrors(s, u, n) && EntryMirrors(s, u, u.pc[n].l);
    Follow(s, u, NodeAccess(s, n), u, n, n);
  }

  lemma HeadlessCancels(s: State, u: State, n: NodeId)
    requires Mirrors(s, u) && n < |s.pc| && u.pc[n].SetHead? && s.pc[n].Waiting?
    ensures Mirrors(Apply(s, BeginCancel(n)), u)
  {
    assert NodeMirrors(s, u, n);
    Follow(s, u, Apply(s, BeginCancel(n)), u, n, n);
  }

  /** The race at the owner check of a holder, and the second attempt. */
  lemma CheckSkipped(s: State, u: State, n: NodeId)
    requires Mirrors(s, u) && n < |s.pc| && s.pc[n] == u.pc[n] && u.pc[n].CheckOwner? && u.entries[u.pc[n].l].owner != n
    ensures Mirrors(NodeAccess(s, n), u)
  {
    AccessShaped(s, n);
    assert NodeMirrors(s, u, n) && EntryMirrors(s, u, s.pc[n].l);
    Follow(s, u, NodeAccess(s, n), u, n, n);
  }

  lemma AsksAgain(s: State, u: State, n: NodeId)
    requires Inv(u) && Mirrors(s, u) && n < |s.pc| && s.pc[n].Refused?
    ensures Mirrors(Apply(s, BeginRelease(n)), u)
  {
    assert NodeMirrors(s, u, n) && NodeInv(u, n);
    Follow(s, u, Apply(s, BeginRelease(n)), u, n, n);
  }

  /** A wake-up that nobody waits for any more. */
  lemma WakeSkipped(s: State, u: State, n: NodeId)
    requires Inv(u) && Mirrors(s, u) && n < |s.pc| && s.pc[n].Wake? && u.pc[n] == ResetNext
    requires var m := s.pc[n].succ; m < |u.pc| && Requesting(u.pc[m]) ==> u.nodes[m].locked in {0, 2}
    ensures Mirrors(NodeAccess(s, n), u)
  {
    AccessShaped(s, n);
    AccessKeepsOthers(s, n);
    assert NodeMirrors(s, u, n);
    Follow(s, u, NodeAccess(s, n), u, n, n);
  }

  // ------------------------------------------------------------------------------------
  // Wake-ups that the mirror image makes early
  // ------------------------------------------------------------------------------------

  lemma WakeStores(u: State, r: NodeId)
    requires Shaped(u) && r < |u.pc| && u.pc[r].Wake? && u.pc[r].succ < |u.nodes|
    ensures var v, m := NodeAccess(u, r), u.pc[r].succ;
            && Shaped(v) && |v.entries| == |u.entries| && v == Goto(u, r, ResetNext).(nodes := v.nodes)
            && v.nodes == u.nodes[m := u.nodes[m].(locked := 0)]
  {
    AccessShaped(u, r);
  }

  lemma CancelPasses(s: State, n: NodeId)
    requires Shaped(s) && n < |s.pc| && s.pc[n].CheckCancel? && s.entries[s.pc[n].l].owner == n
    ensures Shaped(NodeAccess(s, n)) && NodeAccess(s, n) == Goto(s, n, ReadNext(s.pc[n].l))
  {
    AccessShaped(s, n);
  }

  /** The race at the owner check of a waiter. */
  lemma CancelWakesFirst(s: State, u: State, n: NodeId, r: NodeId)
    requires Mirrors(s, u) && n < |s.pc| && s.pc[n] == u.pc[n] && u.pc[n].CheckCancel?
    requires u.entries[u.pc[n].l].owner == n
    requires r < |u.pc| && u.pc[r] == Wake(u.pc[n].l, n)
    ensures var v := NodeAccess(u, r);
            Shaped(v) && Enabled(v, Access(n)) && !Races(v, Access(n)) && Mirrors(NodeAccess(s, n), NodeAccess(v, n))
  {
    var v := NodeAccess(u, r);
    assert NodeMirrors(s, u, n) && NodeMirrors(s, u, r) && EntryMirrors(s, u, u.pc[n].l);
    WakeStores(u, r);
    AccessKeepsOthers(u, r);
    CancelPasses(v, n);
    CancelPasses(s, n);
    Follow(s, u, NodeAccess(s, n), NodeAccess(v, n), n, r);
  }

  /** The old wake-up lands when a new one is due. */
  lemma OldWakeIsNew(s: State, u: State, n: NodeId, r: NodeId)
    requires Mirrors(s, u) && n < |s.pc| && s.pc[n].Wake? && u.pc[n] == ResetNext
    requires r < |u.pc| && u.pc[r].Wake? && u.pc[r].succ == s.pc[n].succ
    ensures Mirrors(NodeAccess(s, n), NodeAccess(u, r))
  {
    AccessShaped(u, r);
    AccessKeepsOthers(u, r);
    AccessShaped(s, n);
    AccessKeepsOthers(s, n);
    assert NodeMirrors(s, u, n) && NodeMirrors(s, u, r);
    Follow(s, u, NodeAccess(s, n), NodeAccess(u, r), n, r);
  }

  // ------------------------------------------------------------------------------------
  // Every calm step has its image
  // ------------------------------------------------------------------------------------

  /** The image `v` is reached from `u` without a race, and performs the operations of the step. */
  ghost predicate Images(s: State, u: State, st: Step, more: seq<Step>, v: State)
    requires Shaped(s) && Enabled(s, st)
  {
    && Shaped(u) && RaceFreeRun(u, more, v) && Mirrors(Apply(s, st), v) && |u.entries| == |s.entries|
    && ManagerSteps(more) == (if st.Manage? then 1 else 0)
    && forall l :: 0 <= l < |s.entries| ==> History(u, more, v, l) == StepOps(s, st, l)
  }

  lemma ImageIsSkipped(s: State, u: State, st: Step)
    requires Mirrors(s, u) && Enabled(s, st) && Mirrors(Apply(s, st), u)
    requires forall l :: 0 <= l < |s.entries| ==> StepOps(s, st, l) == []
    ensures Images(s, u, st, [], u)
  {
  }

  lemma ImageIsSame(s: State, u: State, st: Step)
    requires Mirrors(s, u) && Enabled(s, st) && Enabled(u, st) && !Races(u, st) && Mirrors(Apply(s, st), Apply(u, st))
    requires forall l :: 0 <= l < |s.entries| ==> StepOps(s, st, l) == StepOps(u, st, l)
    ensures Images(s, u, st, [st], Apply(u, st))
  {
    var v := Apply(u, st);
    assert [st][1..] == [];
    forall l | 0 <= l < |s.entries| ensures History(u, [st], v, l) == StepOps(s, st, l) {
      assert History(v, [], v, l) == [];
    }
  }

  /** The image makes the access of `r` instead. */
  lemma ImageIsOther(s: State, u: State, st: Step, r: NodeId)
    requires Mirrors(s, u) && Enabled(s, st) && r < |u.pc| && u.pc[r].Wake? && Mirrors(Apply(s, st), NodeAccess(u, r))
    requires forall l :: 0 <= l < |s.entries| ==> StepOps(s, st, l) == []
    ensures Images(s, u, st, [Access(r)], NodeAccess(u, r))
  {
    var v := NodeAccess(u, r);
    assert [Access(r)][1..] == [];
    forall l | 0 <= l < |s.entries| ensures History(u, [Access(r)], v, l) == [] {
      assert History(v, [], v, l) == [];
    }
  }

  lemma SameOps(s: State, u: State, st: Step, l: LockId)
    requires Mirrors(s, u) && Enabled(s, st) && Enabled(u, st) && l < |s.entries|
    requires st.Access? ==>
               s.pc[st.n] == u.pc[st.n] || !(s.pc[st.n].Swap? || s.pc[st.n].DropTail? || s.pc[st.n].PassOwner?)
    ensures StepOps(s, st, l) == StepOps(u, st, l)
  {
    assert EntryMirrors(s, u, l);
    if st.Access? { assert NodeMirrors(s, u, st.n); }
  }

  /** The first of a queue that owns the lock and has asked only reads "granted" or is about to be woken. */
  lemma OwnerReads(u: State, m: NodeId) returns (r: NodeId)
    requires Reachable(u) && m < |u.pc| && Requesting(u.pc[m]) && Granted(u, u.pc[m].l, m)
    requires u.nodes[m].locked !in {0, 2}
    ensures r < |u.pc| && u.pc[r] == Wake(u.pc[m].l, m)
  {
    ReachableInv(u);
    var l := u.pc[m].l;
    assert LockInv(u, l) && NodeInv(u, m);
    assert u.queue[l] != [] && u.queue[l][0] == m;
    r := OwnerIsWoken(u, l, m);
  }

  lemma NotTooLate(s: State, u: State, n: NodeId, m: NodeId)
    requires Mirrors(s, u) && n < |s.pc| && s.pc[n].Wake? && s.pc[n].succ == m < |u.pc|
    requires Requesting(u.pc[m]) && !WakesTooLate(s, Access(n))
    ensures Granted(u, u.pc[m].l, m)
  {
    assert NodeMirrors(s, u, m) && EntryMirrors(s, u, u.pc[m].l);
  }

  /** A wake-up that the mirror image has made already. */
  lemma OldWakeImaged(s: State, u: State, n: NodeId) returns (more: seq<Step>, v: State)
    requires Reachable(u) && Mirrors(s, u) && n < |s.pc| && s.pc[n].Wake? && u.pc[n] == ResetNext
    requires !WakesTooLate(s, Access(n))
    ensures Images(s, u, Access(n), more, v)
  {
    ReachableInv(u);
    var m := s.pc[n].succ;
    if m < |u.pc| && Requesting(u.pc[m]) && u.nodes[m].locked !in {0, 2} {
      NotTooLate(s, u, n, m);
      var r := OwnerReads(u, m);
      OldWakeIsNew(s, u, n, r);
      ImageIsOther(s, u, Access(n), r);
      more, v := [Access(r)], NodeAccess(u, r);
    } else {
      WakeSkipped(s, u, n);
      ImageIsSkipped(s, u, Access(n));
      more, v := [], u;
    }
  }

  lemma TwoNodeSteps(a: NodeId, b: NodeId)
    ensures ManagerSteps([Access(a), Access(b)]) == 0
  {
    var run := [Access(a), Access(b)];
    assert run[1..] == [Access(b)] && run[1..][1..] == [];
    assert ManagerSteps(run[1..]) == 0;
  }

  /** The image makes the access of `r` first. */
  lemma ImageIsBoth(s: State, u: State, n: NodeId, r: NodeId)
    requires Mirrors(s, u) && Enabled(s, Access(n)) && s.pc[n].CheckCancel? && r < |u.pc| && u.pc[r].Wake?
    requires var m := NodeAccess(u, r);
             && Shaped(m) && Enabled(m, Access(n)) && m.pc[n].CheckCancel? && !Races(m, Access(n))
             && Mirrors(NodeAccess(s, n), NodeAccess(m, n))
    ensures Images(s, u, Access(n), [Access(r), Access(n)], NodeAccess(NodeAccess(u, r), n))
  {
    var m, run := NodeAccess(u, r), [Access(r), Access(n)];
    var v := NodeAccess(m, n);
    FirstStep(m, Access(n), [], v);
    FirstStep(u, Access(r), [Access(n)], v);
    assert [Access(n)] + [] == [Access(n)] && [Access(r)] + [Access(n)] == run;
    assert run[1..] == [Access(n)] && [Access(n)][1..] == [];
    forall l | 0 <= l < |s.entries| ensures History(u, run, v, l) == StepOps(s, Access(n), l) {
      assert History(v, [], v, l) == [] && History(m, [Access(n)], v, l) == [];
    }
    TwoNodeSteps(r, n);
  }

  /** A cancel by an owner that has not been woken: the image wakes it first. */
  lemma EarlyCancelImaged(s: State, u: State, n: NodeId) returns (more: seq<Step>, v: State)
    requires Reachable(u) && Mirrors(s, u) && n < |s.pc| && s.pc[n] == u.pc[n] && u.pc[n].CheckCancel?
    requires Races(u, Access(n))
    ensures Images(s, u, Access(n), more, v)
  {
    ReachableInv(u);
    var r := OwnerReads(u, n);
    CancelWakesFirst(s, u, n, r);
    AccessKeepsOthers(u, r);
    ImageIsBoth(s, u, n, r);
    return [Access(r), Access(n)], NodeAccess(NodeAccess(u, r), n);
  }

  /** The same access, where the program counters agree and the image does not race. */
  lemma AccessBoth(s: State, u: State, n: NodeId)
    requires Inv(u) && Mirrors(s, u) && Enabled(s, Access(n)) && s.pc[n] == u.pc[n]
    ensures Mirrors(NodeAccess(s, n), NodeAccess(u, n))
  {
    var q := u.pc[n];
    if q.Swap? || q.Reload? {
      SwapBoth(s, u, n);
    } else if q.LinkPred? {
      LinkBoth(s, u, n);
    } else if q.SetHead? {
      SetHeadBoth(s, u, n);
    } else if IsPolling(q) {
      PollBoth(s, u, n);
    } else if q.CheckOwner? || q.ReadNext? || q.Spin? {
      CheckBoth(s, u, n);
    } else if q.DropTail? {
      DropTailBoth(s, u, n);
    } else if q.PassHead? {
      PassHeadBoth(s, u, n);
    } else if q.PassOwner? {
      PassOwnerBoth(s, u, n);
    } else if q.Wake? {
      WakeBoth(s, u, n);
    } else if Resets(q) {
      ResetBoth(s, u, n);
    } else {
      ClearBoth(s, u, n);
    }
  }

  lemma AgreeingImaged(s: State, u: State, n: NodeId) returns (more: seq<Step>, v: State)
    requires Reachable(u) && Mirrors(s, u) && Enabled(s, Access(n)) && s.pc[n] == u.pc[n]
    ensures Images(s, u, Access(n), more, v)
  {
    ReachableInv(u);
    if !Races(u, Access(n)) {
      AccessBoth(s, u, n);
      forall l | 0 <= l < |s.entries| ensures StepOps(s, Access(n), l) == StepOps(u, Access(n), l) {
        SameOps(s, u, Access(n), l);
      }
      ImageIsSame(s, u, Access(n));
      more, v := [Access(n)], NodeAccess(u, n);
    } else if u.pc[n].CheckCancel? {
      more, v := EarlyCancelImaged(s, u, n);
    } else {
      if u.pc[n].SetHead? {
        HeadStoreSkipped(s, u, n);
      } else {
        CheckSkipped(s, u, n);
      }
      ImageIsSkipped(s, u, Access(n));
      more, v := [], u;
    }
  }

  lemma AccessImaged(s: State, u: State, n: NodeId) returns (more: seq<Step>, v: State)
    requires Reachable(u) && Mirrors(s, u) && Enabled(s, Access(n)) && Calm(s, Access(n))
    ensures Images(s, u, Access(n), more, v)
  {
    ReachableInv(u);
    assert NodeMirrors(s, u, n);
    if s.pc[n] == u.pc[n] {
      more, v := AgreeingImaged(s, u, n);
    } else if u.pc[n].SetHead? {
      HeadlessPolls(s, u, n);
      ImageIsSkipped(s, u, Access(n));
      more, v := [], u;
    } else if s.pc[n].Wake? {
      more, v := OldWakeImaged(s, u, n);
    } else {
      PollBoth(s, u, n);
      ImageIsSame(s, u, Access(n));
      more, v := [Access(n)], NodeAccess(u, n);
    }
  }

  /** A step that is not an access of a node. */
  lemma OtherImaged(s: State, u: State, st: Step) returns (more: seq<Step>, v: State)
    requires Reachable(u) && Mirrors(s, u) && Enabled(s, st) && Calm(s, st) && !st.Access?
    ensures Images(s, u, st, more, v)
  {
    ReachableInv(u);
    if st.BeginRelease? && s.pc[st.n].Refused? {
      AsksAgain(s, u, st.n);
      ImageIsSkipped(s, u, st);
      return [], u;
    }
    if st.BeginCancel? && u.pc[st.n].SetHead? {
      HeadlessCancels(s, u, st.n);
      ImageIsSkipped(s, u, st);
      return [], u;
    }
    match st {
      case Acquire(n, l) => AcquireBoth(s, u, n, l);
      case BeginRelease(n) =>
        assert NodeMirrors(s, u, n);
        BeginBoth(s, u, st);
      case BeginCancel(n) =>
        assert NodeMirrors(s, u, n);
        BeginBoth(s, u, st);
      case Check(l) => CheckLockBoth(s, u, l);
      case Manage => ManagerBoth(s, u);
    }
    ImageIsSame(s, u, st);
    return [st], Apply(u, st);
  }

  lemma CheckLockBoth(s: State, u: State, l: LockId)
    requires Mirrors(s, u) && l < |s.entries|
    ensures Mirrors(ManagerCheck(s, l), ManagerCheck(u, l))
  {
    assert EntryMirrors(s, u, l);
    FollowManager(s, u, ManagerCheck(s, l), ManagerCheck(u, l));
  }

  lemma ManagerBoth(s: State, u: State)
    requires Inv(u) && Mirrors(s, u) && s.mgr != Between
    ensures Mirrors(ManagerAccess(s), ManagerAccess(u))
  {
    if s.mgr.StoreLocked? || s.mgr.StoreOwner? {
      ManagerStoresBoth(s, u);
    } else {
      ManagerLoadsBoth(s, u);
    }
  }

  /** Every calm step has an image: no step, the same step, or a step with or instead of it. */
  lemma StepImaged(s: State, u: State, st: Step) returns (more: seq<Step>, v: State)
    requires Reachable(u) && Mirrors(s, u) && Enabled(s, st) && Calm(s, st)
    ensures Images(s, u, st, more, v) && Reachable(v)
  {
    if st.Access? {
      more, v := AccessImaged(s, u, st.n);
    } else {
      more, v := OtherImaged(s, u, st);
    }
    ReachFurther(u, more, v);
  }
}
