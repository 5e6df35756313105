/**
 The three races of the MCS queue lock: exactly which steps they are, and what follows.
 */
module McsRaces {
  import opened LockTypes
  import opened McsProtocol
  import opened McsInvariant
  import opened McsPreservation
  import opened McsTheorems

  /** A run in which the races may happen, too. */
  predicate AnyRun(s: State, run: seq<Step>, t: State)
    requires Shaped(s)
    decreases run
  {
    if run == [] then s == t
    else Enabled(s, run[0]) && (ApplyShaped(s, run[0]); AnyRun(Apply(s, run[0]), run[1..], t))
  }

  // ------------------------------------------------------------------------------------
  // Which steps they are
  // ------------------------------------------------------------------------------------

  /** A holder's release is refused exactly when its owner check falls between the manager's two stores. */
  lemma RefusedExactlyInTheRace(s: State, n: NodeId)
    requires Reachable(s) && n < |s.pc| && s.pc[n].CheckOwner?
    ensures Holder(s, s.pc[n].l) == Some(n)
    ensures Apply(s, Access(n)).pc[n].Refused? <==> Races(s, Access(n))
    ensures Races(s, Access(n)) <==> s.entries[s.pc[n].l].owner != n
  {
    ReachableInv(s);
    var i := Place(s, n, s.pc[n].l);
  }

  /** A refused holder is let through if it asks again after the manager has stored the owner. */
  lemma RefusedHolderCanRetry(s: State, n: NodeId)
    requires Reachable(s) && n < |s.pc| && s.pc[n].CheckOwner? && Races(s, Access(n))
    ensures var s1 := Apply(s, Access(n));
            && Shaped(s1) && s1.mgr == StoreOwner(s.pc[n].l, n)
            && var s2 := Apply(s1, Manage);
            && Shaped(s2) && Enabled(s2, BeginRelease(n))
            && var s3 := Apply(s2, BeginRelease(n));
            && Shaped(s3) && Enabled(s3, Access(n)) && !Races(s3, Access(n))
            && Apply(s3, Access(n)).pc[n] == ReadNext(s.pc[n].l)
  {
    RefusedExactlyInTheRace(s, n);
    AccessShaped(s, n);
    var s1 := Apply(s, Access(n));
    ApplyShaped(s1, Manage);
    ApplyShaped(Apply(s1, Manage), BeginRelease(n));
  }

  /**
   A release by a waiter is accepted exactly if the waiter is the recorded owner.  Its
   record then says so already, or it still says "waiting" and exactly one node is about to
   store into it: that is the race.
   */
  lemma CancelExactlyAcceptedIfOwner(s: State, n: NodeId) returns (r: NodeId)
    requires Reachable(s) && n < |s.pc| && s.pc[n].CheckCancel?
    ensures var l := s.pc[n].l;
            && (Apply(s, Access(n)).pc[n] == ReadNext(l) <==> s.entries[l].owner == n)
            && (s.entries[l].owner == n <==> Holder(s, l) == Some(n) && s.mgr != StoreOwner(l, n))
            && (s.entries[l].owner != n ==> Apply(s, Access(n)) == Goto(s, n, Waiting(l)))
            && (Races(s, Access(n)) <==> exists m :: 0 <= m < |s.pc| && WakesOn(s.pc[m], l) && s.pc[m].succ == n)
            && (Races(s, Access(n)) ==> r < |s.pc| && s.pc[r] == Wake(l, n) && s.nodes[n].locked == 1)
            && (s.entries[l].owner == n && !Races(s, Access(n)) ==> s.nodes[n].locked in {0, 2})
  {
    ReachableInv(s);
    var l := s.pc[n].l;
    var i := Place(s, n, l);
    r := 0;
    if AwaitsWake(s, l, n) {
      r := OwnerIsWoken(s, l, n);
    }
    forall m | 0 <= m < |s.pc| && WakesOn(s.pc[m], l) && s.pc[m].succ == n ensures Races(s, Access(n)) {
      assert NodeInv(s, m);
    }
  }

  /** The first node of the queue relies on a head that is gone or about to be cleared. */
  predicate Headless(s: State, l: LockId)
    requires Shaped(s) && l < |s.entries|
  {
    && s.queue[l] != [] && (s.queue[l][0] < |s.pc| ==> s.pc[s.queue[l][0]] != SetHead(l))
    && (s.entries[l].head == INVALID_NODE_ID || Departing(s, l))
  }

  lemma NotHeadless(s: State, l: LockId)
    requires Inv(s) && l < |s.entries|
    ensures !Headless(s, l)
  {
    assert LockInv(s, l);
    if s.queue[l] != [] {
      assert NodeInv(s, s.queue[l][0]);
    }
  }

  /** A racing step at other places than the store of the head stores nothing. */
  lemma OtherRacesStoreNothing(s: State, st: Step)
    requires Shaped(s) && Enabled(s, st) && Races(s, st) && !s.pc[st.n].SetHead?
    ensures var t := Apply(s, st);
            t.entries == s.entries && t.queue == s.queue && |t.pc| == |s.pc| && t.mgr == s.mgr
            && (forall m :: 0 <= m < |s.pc| && m != st.n ==> t.pc[m] == s.pc[m])
            && !t.pc[st.n].ClearHead? && !t.pc[st.n].SetHead? && !s.pc[st.n].ClearHead?
  {
  }

  lemma HeadStoreRace(s: State, n: NodeId)
    requires Inv(s) && n < |s.pc| && s.pc[n].SetHead? && Races(s, Access(n))
    ensures var l, t := s.pc[n].l, NodeAccess(s, n);
            && Shaped(t) && |t.entries| == |s.entries| && Headless(t, l) && s.queue[l] != [] && s.queue[l][0] == n
            && s.entries[l].owner < |s.pc| && s.entries[l].owner != n && s.pc[s.entries[l].owner] == ClearHead(l)
  {
    AccessShaped(s, n);
    var i := Place(s, n, s.pc[n].l);
  }

  /**
   A lock loses its head by a step if and only if the step is the race at the store of the
   head.  In every other case the first node of the queue stays, or will be, the head.
   */
  lemma HeadLostExactlyInTheRace(s: State, st: Step, l: LockId)
    requires Reachable(s) && Enabled(s, st) && l < |s.entries|
    ensures Shaped(Apply(s, st)) && |Apply(s, st).entries| == |s.entries|
    ensures Headless(Apply(s, st), l) <==> Races(s, st) && s.pc[st.n] == SetHead(l)
  {
    ReachableInv(s);
    ApplyShaped(s, st);
    NotHeadless(s, l);
    if !Races(s, st) {
      StepInv(s, st);
      NotHeadless(Apply(s, st), l);
    } else if !s.pc[st.n].SetHead? {
      OtherRacesStoreNothing(s, st);
      assert LockInv(s, l);
    } else {
      HeadStoreRace(s, st.n);
      assert LockInv(s, l);
    }
  }

  lemma RaceBreaksInv(s: State, st: Step)
    requires Reachable(s) && Enabled(s, st) && Races(s, st)
    ensures !Inv(Apply(s, st))
  {
    ReachableInv(s);
    ApplyShaped(s, st);
    var n, t := st.n, Apply(s, st);
    var l := s.pc[n].l;
    if s.pc[n].SetHead? {
      HeadStoreRace(s, n);
      if Inv(t) { NotHeadless(t, l); }
    } else if s.pc[n].CheckOwner? {
      RefusedExactlyInTheRace(s, n);
      assert !NodeInv(t, n);
    } else {
      var r := CancelExactlyAcceptedIfOwner(s, n);
      assert r != n;
      assert !NodeInv(t, r);
    }
  }

  /** The invariant that proves the race-free runs is kept by exactly the steps that do not race. */
  lemma InvariantKeptExactlyWithoutRace(s: State, st: Step)
    requires Reachable(s) && Enabled(s, st)
    ensures Inv(Apply(s, st)) <==> !Races(s, st)
  {
    ReachableInv(s);
    if Races(s, st) {
      RaceBreaksInv(s, st);
    } else {
      StepInv(s, st);
    }
  }

  // ------------------------------------------------------------------------------------
  // What follows from a lost head
  // ------------------------------------------------------------------------------------

  /** The node is about to store the head or the owner of `l`, or to empty its queue. */
  predicate Revives(p: Pc, l: LockId)
  {
    (p.SetHead? || p.ReadNext? || p.DropTail? || p.Spin? || p.PassHead? || p.PassOwner?) && p.l == l
  }

  predicate Clears(p: Pc, l: LockId)
  {
    p == ClearHead(l) || p == ClearOwner(l)
  }

  /** The recorded owner is none, or the last holder on its way out; with it goes the head. */
  predicate LastHolderLeaves(s: State, l: LockId)
    requires Shaped(s) && l < |s.entries|
  {
    var e := s.entries[l];
    if e.owner == INVALID_NODE_ID then e.head == INVALID_NODE_ID
    else
      && e.owner < |s.pc|
      && (s.pc[e.owner] == ClearHead(l) || (s.pc[e.owner] == ClearOwner(l) && e.head == INVALID_NODE_ID))
  }

  /** The lock has waiters and nothing left that could give it to one of them. */
  predicate Dead(s: State, l: LockId)
    requires Shaped(s) && l < |s.entries|
  {
    && s.entries[l].tail != INVALID_NODE_ID && LastHolderLeaves(s, l)
    && (forall n :: 0 <= n < |s.pc| ==> !Revives(s.pc[n], l) && (Clears(s.pc[n], l) ==> n == s.entries[l].owner))
    && (s.mgr != Between && s.mgr.l == l ==> s.mgr.LoadHead? && s.entries[l].owner == INVALID_NODE_ID)
  }

  lemma AccessKeepsDead(s: State, n: NodeId, l: LockId)
    requires Shaped(s) && l < |s.entries| && Dead(s, l) && Enabled(s, Access(n))
    ensures var t := NodeAccess(s, n);
            && Shaped(t) && |t.entries| == |s.entries| && t.mgr == s.mgr && t.owners[l] == s.owners[l]
            && t.entries[l].tail != INVALID_NODE_ID
            && (forall m :: 0 <= m < |s.pc| && m != n ==> t.pc[m] == s.pc[m])
  {
    AccessShaped(s, n);
    assert !Revives(s.pc[n], l);
  }

  lemma AccessRevivesNothing(s: State, n: NodeId, l: LockId)
    requires Shaped(s) && l < |s.entries| && Dead(s, l) && Enabled(s, Access(n))
    ensures Shaped(NodeAccess(s, n)) && |NodeAccess(s, n).pc| == |s.pc|
    ensures !Revives(NodeAccess(s, n).pc[n], l) && (Clears(NodeAccess(s, n).pc[n], l) ==> Clears(s.pc[n], l))
  {
    AccessShaped(s, n);
    assert !Revives(s.pc[n], l);
  }

  lemma AccessClears(s: State, n: NodeId, l: LockId)
    requires Shaped(s) && l < |s.entries| && Dead(s, l) && Enabled(s, Access(n))
    ensures Shaped(NodeAccess(s, n)) && |NodeAccess(s, n).entries| == |s.entries|
    ensures var t := NodeAccess(s, n);
            if Clears(s.pc[n], l) then LastHolderLeaves(t, l)
            else t.entries[l].owner == s.entries[l].owner && t.entries[l].head == s.entries[l].head
  {
    AccessShaped(s, n);
    assert !Revives(s.pc[n], l);
  }

  /** Every step, racing or not, leaves a dead lock dead and makes no node its owner. */
  lemma StepKeepsDead(s: State, st: Step, l: LockId)
    requires Shaped(s) && l < |s.entries| && Dead(s, l) && Enabled(s, st)
    ensures var t := Apply(s, st);
            Shaped(t) && |t.entries| == |s.entries| && Dead(t, l) && t.owners[l] == s.owners[l]
  {
    ApplyShaped(s, st);
    if st.Access? {
      AccessKeepsDead(s, st.n, l);
      AccessRevivesNothing(s, st.n, l);
      AccessClears(s, st.n, l);
    } else if st.Manage? {
      ManagerKeepsDead(s, l);
    }
  }

  lemma ManagerKeepsDead(s: State, l: LockId)
    requires Shaped(s) && l < |s.entries| && Dead(s, l) && s.mgr != Between
    ensures var t := ManagerAccess(s);
            Shaped(t) && |t.entries| == |s.entries| && Dead(t, l) && t.owners[l] == s.owners[l]
  {
    assert ManagerAccess(s).pc == s.pc && ManagerAccess(s).entries[l] == s.entries[l];
  }

  lemma {:induction false} DeadForEver(s: State, run: seq<Step>, t: State, l: LockId)
    requires Shaped(s) && l < |s.entries| && Dead(s, l) && AnyRun(s, run, t)
    ensures Shaped(t) && |t.entries| == |s.entries| && Dead(t, l) && t.owners[l] == s.owners[l]
    decreases run
  {
    if run != [] {
      StepKeepsDead(s, run[0], l);
      DeadForEver(Apply(s, run[0]), run[1..], t, l);
    }
  }

  /**
   After the race at the store of the head no run, racing or not, ever gives the lock to a
   node again: nobody is logged as its owner, and the manager never gets past the head.
   */
  lemma LostHeadKillsTheLock(s: State, n: NodeId, run: seq<Step>, t: State)
    requires Reachable(s) && n < |s.pc| && s.pc[n].SetHead? && Races(s, Access(n))
    requires Shaped(Apply(s, Access(n))) && AnyRun(Apply(s, Access(n)), run, t)
    ensures var l := s.pc[n].l;
            && Shaped(t) && |t.entries| == |s.entries| && Dead(t, l) && t.owners[l] == s.owners[l]
            && t.entries[l].tail != INVALID_NODE_ID && !(t.mgr.StoreLocked? && t.mgr.l == l)
  {
    var l, m := s.pc[n].l, Apply(s, Access(n));
    ReachableInv(s);
    HeadStoreRace(s, n);
    RaceLeavesDead(s, n);
    DeadForEver(m, run, t, l);
  }

  lemma RaceLeavesDead(s: State, n: NodeId)
    requires Inv(s) && n < |s.pc| && s.pc[n].SetHead? && Races(s, Access(n))
    ensures Shaped(NodeAccess(s, n)) && |NodeAccess(s, n).entries| == |s.entries| && Dead(NodeAccess(s, n), s.pc[n].l)
  {
    var l, t := s.pc[n].l, NodeAccess(s, n);
    HeadStoreRace(s, n);
    assert LockInv(s, l);
    forall m | 0 <= m < |t.pc| ensures !Revives(t.pc[m], l) && (Clears(t.pc[m], l) ==> m == t.entries[l].owner) {
      assert NodeInv(s, m);
      if InQueue(s.pc[m], l) {
        var i := Place(s, m, l);
      }
    }
  }
}
