/** What holds in every race-free run of the MCS queue lock. */
module McsTheorems {
  import opened LockTypes
  import opened LockService
  import opened McsProtocol
  import opened McsInvariant
  import opened McsPreservation

  lemma {:induction false} RunInv(s: State, run: seq<Step>, t: State)
    requires Inv(s) && RaceFreeRun(s, run, t)
    ensures Inv(t)
    decreases run
  {
    if run != [] {
      StepInv(s, run[0]);
      ApplyShaped(s, run[0]);
      RunInv(Apply(s, run[0]), run[1..], t);
    }
  }

  /** Reached from the initial state of some cluster by a race-free run. */
  ghost predicate Reachable(s: State)
  {
    Shaped(s) && exists nodeCount: nat, lockCount: nat, run: seq<Step> :: ReachedBy(nodeCount, lockCount, run, s)
  }

  ghost predicate ReachedBy(nodeCount: nat, lockCount: nat, run: seq<Step>, s: State)
  {
    && nodeCount <= INVALID_NODE_ID && 0 < lockCount <= INVALID_LOCK_ID
    && RaceFreeRun(InitState(nodeCount, lockCount), run, s)
  }

  lemma ReachableInv(s: State)
    requires Reachable(s)
    ensures Inv(s)
  {
    var nodeCount: nat, lockCount: nat, run: seq<Step> :| ReachedBy(nodeCount, lockCount, run, s);
    InitInv(nodeCount, lockCount);
    RunInv(InitState(nodeCount, lockCount), run, s);
  }

  /** The one node that will store the link from `a` to `b`. */
  predicate PendingLink(s: State, l: LockId, a: NodeId, b: NodeId)
  {
    b < |s.pc| && s.pc[b] == LinkPred(l, a)
  }

  /** `a` is linked to `b`, or exactly `b` is about to store the link. */
  ghost predicate Neighbours(s: State, l: LockId, a: NodeId, b: NodeId)
    requires a < |s.nodes|
  {
    if s.nodes[a].next == b then forall m :: !PendingLink(s, l, a, m)
    else s.nodes[a].next == INVALID_NODE_ID && forall m :: PendingLink(s, l, a, m) <==> m == b
  }

  /**
   The shape of the queue in every reachable state: no node twice, the tail is the last
   node, the head is the first (unless the first has yet to store it, or the holder has
   already stored its successor), and neighbours are linked or have exactly one node that
   is about to link them.
   */
  lemma QueueShape(s: State, l: LockId)
    requires Reachable(s) && l < |s.entries|
    ensures l < |s.queue| && Distinct(s.queue[l]) && |s.pc| == |s.nodes|
    ensures forall i :: 0 <= i < |s.queue[l]| ==> s.queue[l][i] < |s.nodes|
    ensures s.entries[l].tail == (if s.queue[l] == [] then INVALID_NODE_ID else s.queue[l][|s.queue[l]| - 1])
    ensures s.queue[l] != [] ==>
              || s.entries[l].head == s.queue[l][0]
              || s.pc[s.queue[l][0]] == SetHead(l)
              || (|s.queue[l]| >= 2 && s.pc[s.queue[l][0]] == PassOwner(l, s.queue[l][1]) && s.entries[l].head == s.queue[l][1])
    ensures forall i :: 1 <= i < |s.queue[l]| ==> Neighbours(s, l, s.queue[l][i - 1], s.queue[l][i])
  {
    ReachableInv(s);
    assert LockInv(s, l);
    var q := s.queue[l];
    assert q != [] ==> NodeInv(s, q[0]);
    forall i | 1 <= i < |q| ensures Neighbours(s, l, q[i - 1], q[i]) {
      AreNeighbours(s, l, i);
    }
  }

  lemma AreNeighbours(s: State, l: LockId, i: nat)
    requires Inv(s) && l < |s.entries| && 1 <= i < |s.queue[l]|
    ensures |s.pc| == |s.nodes| && s.queue[l][i - 1] < |s.nodes| && s.queue[l][i] < |s.nodes|
    ensures Neighbours(s, l, s.queue[l][i - 1], s.queue[l][i])
  {
    assert LockInv(s, l) && LinkedAt(s, l, i);
    var a := s.queue[l][i - 1];
    forall m | PendingLink(s, l, a, m) ensures m == s.queue[l][i] {
      var j := Place(s, m, l);
    }
  }

  /** Queues of different locks have no node in common. */
  lemma QueuesAreDisjoint(s: State, k: LockId, l: LockId, n: NodeId)
    requires Reachable(s) && k < |s.entries| && l < |s.entries|
    requires n in s.queue[k] && n in s.queue[l]
    ensures k == l
  {
    ReachableInv(s);
    assert LockInv(s, k) && LockInv(s, l);
    assert InQueue(s.pc[n], k) && InQueue(s.pc[n], l);
  }

  /** At most one node in the cluster is between a successful poll and giving the lock up. */
  lemma MutualExclusion(s: State, l: LockId, a: NodeId, b: NodeId)
    requires Reachable(s) && l < |s.entries| && a < |s.pc| && b < |s.pc|
    requires Owning(s.pc[a], l) && Owning(s.pc[b], l)
    ensures a == b
  {
    ReachableInv(s);
    var i := Place(s, a, l);
    var j := Place(s, b, l);
  }

  /** The test of the poll on the node's own record. */
  predicate PollTest(locked: nat, waiting: LockId, l: LockId)
  {
    (locked == 2 || locked == 0) && waiting == l
  }

  /**
   A polling node whose record passes the test, or that has seen it pass, is the recorded
   owner of the lock, or the manager is recording it at this moment; no other node passes.
   */
  lemma PollIsSound(s: State, n: NodeId, l: LockId)
    requires Reachable(s) && n < |s.pc| && l < |s.entries| && Polling(s.pc[n], l)
    requires var v := if s.pc[n].PollLock? then s.pc[n].v else s.nodes[n].locked;
             PollTest(v, s.nodes[n].waiting, l)
    ensures s.entries[l].owner == n || s.mgr == StoreOwner(l, n)
    ensures Holder(s, l) == Some(n)
  {
    ReachableInv(s);
    var i := Place(s, n, l);
  }

  // ------------------------------------------------------------------------------------
  // Refinement of the FIFO service
  // ------------------------------------------------------------------------------------

  /** What lock `l` looks like to the clients. */
  function Abstract(s: State, l: LockId): FifoService
    requires Shaped(s) && l < |s.entries|
  {
    FifoService(Holder(s, l), if Holder(s, l).Some? then s.queue[l][1..] else s.queue[l])
  }

  /** The operations of the service that a step performs on lock `l`. */
  function StepOps(s: State, st: Step, l: LockId): seq<Op>
    requires Shaped(s) && Enabled(s, st)
  {
    match st
    case Access(n) =>
      var p := s.pc[n];
      if p.Swap? && p.l == l && s.entries[l].tail == p.seen then [Request(n)]
      else if p.DropTail? && p.l == l && s.entries[l].tail == n then [Release(n)]
      else if p.PassOwner? && p.l == l then [Release(n), Grant(p.succ)]
      else []
    case Manage => if s.mgr.StoreLocked? && s.mgr.l == l then [Grant(s.mgr.h)] else []
    case _ => []
  }

  lemma AbstractIsProper(s: State, l: LockId)
    requires Inv(s) && l < |s.entries|
    ensures Proper(Abstract(s, l))
  {
    assert LockInv(s, l);
  }

  lemma SwapKeepsHolder(s: State, n: NodeId)
    requires Inv(s) && SwapsIn(s, n)
    ensures var t, l := NodeAccess(s, n), s.pc[n].l;
            && Shaped(t) && l < |t.entries| && l < |s.queue| && n !in s.queue[l]
            && t.queue[l] == s.queue[l] + [n] && Holder(t, l) == Holder(s, l)
  {
    AccessShaped(s, n);
    SwapInQueue(s, n);
    assert LockInv(s, s.pc[n].l) && NodeInv(s, n);
  }

  lemma SwapRefines(s: State, n: NodeId)
    requires Inv(s) && SwapsIn(s, n)
    ensures Shaped(NodeAccess(s, n))
    ensures FifoPerforms(Abstract(s, s.pc[n].l), [Request(n)], Abstract(NodeAccess(s, n), s.pc[n].l))
  {
    var l := s.pc[n].l;
    SwapKeepsHolder(s, n);
    assert LockInv(s, l);
    FifoPerformsOne(Abstract(s, l), Request(n), Abstract(NodeAccess(s, n), l));
  }

  lemma DropTailRefines(s: State, n: NodeId)
    requires Inv(s) && n < |s.pc| && s.pc[n].DropTail? && s.entries[s.pc[n].l].tail == n
    ensures Shaped(NodeAccess(s, n))
    ensures FifoPerforms(Abstract(s, s.pc[n].l), [Release(n)], Abstract(NodeAccess(s, n), s.pc[n].l))
  {
    var t, l := NodeAccess(s, n), s.pc[n].l;
    AccessShaped(s, n);
    var i := Place(s, n, l);
    var f := Abstract(s, l);
    assert s.queue[l] == [n];
    assert t.queue[l] == [];
    assert f == FifoService(Some(n), []);
    assert FifoDo(f, Release(n)) == Abstract(t, l);
  }

  lemma PassOwnerRefines(s: State, n: NodeId)
    requires Inv(s) && n < |s.pc| && s.pc[n].PassOwner?
    ensures Shaped(NodeAccess(s, n))
    ensures FifoPerforms(Abstract(s, s.pc[n].l), [Release(n), Grant(s.pc[n].succ)], Abstract(NodeAccess(s, n), s.pc[n].l))
  {
    var t, l, succ := NodeAccess(s, n), s.pc[n].l, s.pc[n].succ;
    AccessShaped(s, n);
    PassOwnerQueue(s, n);
    var i := Place(s, n, l);
    assert NodeInv(s, n);
    var f := Abstract(s, l);
    assert f == FifoService(Some(n), t.queue[l]);
    var g := FifoDo(f, Release(n));
    assert FifoDo(g, Grant(succ)) == Abstract(t, l);
    assert [Release(n), Grant(succ)][1..] == [Grant(succ)];
    assert FifoPerforms(g, [Grant(succ)], Abstract(t, l));
  }

  lemma StoreLockedRefines(s: State)
    requires Inv(s) && s.mgr.StoreLocked?
    ensures Shaped(ManagerAccess(s))
    ensures FifoPerforms(Abstract(s, s.mgr.l), [Grant(s.mgr.h)], Abstract(ManagerAccess(s), s.mgr.l))
  {
    var t, l, h := ManagerAccess(s), s.mgr.l, s.mgr.h;
    assert LockInv(s, l);
    assert FifoDo(Abstract(s, l), Grant(h)) == Abstract(t, l);
  }

  /** An access that performs no operation leaves the queue, and the owner up to a departed one. */
  lemma OtherAccess(s: State, n: NodeId, l: LockId)
    requires Inv(s) && Enabled(s, Access(n)) && l < |s.entries|
    requires StepOps(s, Access(n), l) == []
    ensures var t := NodeAccess(s, n);
            && Shaped(t) && |t.entries| == |s.entries| && t.queue[l] == s.queue[l] && t.mgr == s.mgr
            && (t.entries[l].owner != s.entries[l].owner ==>
                  s.pc[n] == ClearOwner(l) && t.entries[l].owner == INVALID_NODE_ID)
  {
    AccessShaped(s, n);
  }

  lemma OtherAccessRefines(s: State, n: NodeId, l: LockId)
    requires Inv(s) && Enabled(s, Access(n)) && l < |s.entries|
    requires StepOps(s, Access(n), l) == []
    ensures Shaped(NodeAccess(s, n)) && |NodeAccess(s, n).entries| == |s.entries|
    ensures Abstract(NodeAccess(s, n), l) == Abstract(s, l)
  {
    OtherAccess(s, n, l);
    assert LockInv(s, l) && NodeInv(s, n);
    if s.queue[l] != [] {
      assert InQueue(s.pc[s.queue[l][0]], l);
    }
  }

  lemma OtherStepRefines(s: State, st: Step, l: LockId)
    requires Inv(s) && Enabled(s, st) && l < |s.entries| && !st.Access?
    requires StepOps(s, st, l) == []
    ensures Shaped(Apply(s, st)) && |Apply(s, st).entries| == |s.entries|
    ensures Abstract(Apply(s, st), l) == Abstract(s, l)
  {
    ApplyShaped(s, st);
    assert LockInv(s, l);
  }

  /** Every step of a race-free run performs its operations on the FIFO service. */
  lemma StepRefines(s: State, st: Step, l: LockId)
    requires Inv(s) && Enabled(s, st) && !Races(s, st) && l < |s.entries|
    ensures Inv(Apply(s, st)) && |Apply(s, st).entries| == |s.entries|
    ensures FifoPerforms(Abstract(s, l), StepOps(s, st, l), Abstract(Apply(s, st), l))
  {
    StepInv(s, st);
    ApplyShaped(s, st);
    if StepOps(s, st, l) == [] {
      if st.Access? {
        OtherAccessRefines(s, st.n, l);
      } else {
        OtherStepRefines(s, st, l);
      }
    } else if st.Manage? {
      StoreLockedRefines(s);
    } else if s.pc[st.n].Swap? {
      SwapRefines(s, st.n);
    } else if s.pc[st.n].DropTail? {
      DropTailRefines(s, st.n);
    } else {
      PassOwnerRefines(s, st.n);
    }
  }

  /** The history of lock `l` in a run. */
  function History(s: State, run: seq<Step>, t: State, l: LockId): seq<Op>
    requires Shaped(s) && RaceFreeRun(s, run, t)
    decreases run
  {
    if run == [] then []
    else
      ApplyShaped(s, run[0]);
      StepOps(s, run[0], l) + History(Apply(s, run[0]), run[1..], t, l)
  }

  /** Every race-free run performs a history of the FIFO service on each lock. */
  lemma {:induction false} RunRefines(s: State, run: seq<Step>, t: State, l: LockId)
    requires Inv(s) && RaceFreeRun(s, run, t) && l < |s.entries|
    ensures Inv(t) && |t.entries| == |s.entries|
    ensures FifoPerforms(Abstract(s, l), History(s, run, t, l), Abstract(t, l))
    decreases run
  {
    if run != [] {
      var m := Apply(s, run[0]);
      StepRefines(s, run[0], l);
      RunRefines(m, run[1..], t, l);
      FifoPerformsConcat(Abstract(s, l), StepOps(s, run[0], l), Abstract(m, l), History(m, run[1..], t, l), Abstract(t, l));
    }
  }

  lemma {:induction false} NoCancels(s: State, run: seq<Step>, t: State, l: LockId)
    requires Shaped(s) && RaceFreeRun(s, run, t) && l < |s.entries|
    ensures forall i :: 0 <= i < |History(s, run, t, l)| ==> !History(s, run, t, l)[i].Cancel?
    decreases run
  {
    if run != [] {
      ApplyShaped(s, run[0]);
      NoCancels(Apply(s, run[0]), run[1..], t, l);
    }
  }

  /**
   FIFO over whole runs: in any run from the initial state, the nodes granted so far,
   followed by the nodes that wait, are the nodes that asked, in the order in which they
   asked; and every grant is released before the next.
   */
  lemma FifoOverRuns(nodeCount: nat, lockCount: nat, run: seq<Step>, t: State, l: LockId)
    requires ReachedBy(nodeCount, lockCount, run, t) && l < lockCount
    ensures Shaped(t) && |t.entries| == lockCount
    ensures var h := History(InitState(nodeCount, lockCount), run, t, l);
            && Grants(h) + Abstract(t, l).line == Requests(h)
            && Grants(h) == Releases(h) + Held(Forget(Abstract(t, l)))
  {
    var s := InitState(nodeCount, lockCount);
    InitInv(nodeCount, lockCount);
    RunRefines(s, run, t, l);
    NoCancels(s, run, t, l);
    AbstractIsProper(s, l);
    var h := History(s, run, t, l);
    GrantsFollowRequests(Abstract(s, l), h, Abstract(t, l));
    FifoRefines(Abstract(s, l), h, Abstract(t, l));
    GrantsAreReleasedInTurn(Forget(Abstract(s, l)), h, Forget(Abstract(t, l)));
  }

  /** The log of owners followed by the waiting nodes is the log of tail swaps. */
  lemma OwnersFollowSwaps(s: State, l: LockId)
    requires Reachable(s) && l < |s.entries|
    ensures s.owners[l] + Abstract(s, l).line == s.swaps[l]
  {
    ReachableInv(s);
    assert LockInv(s, l);
  }

  /** `t` extends the logs of `s`. */
  ghost predicate Extends(s: State, t: State, l: LockId)
    requires Shaped(s) && Shaped(t) && |s.entries| == |t.entries| && l < |s.entries|
  {
    s.releases[l] <= t.releases[l] && s.swaps[l] <= t.swaps[l]
  }

  lemma StepExtends(s: State, st: Step, l: LockId)
    requires Inv(s) && Enabled(s, st) && l < |s.entries|
    ensures Shaped(Apply(s, st)) && |Apply(s, st).entries| == |s.entries| && Extends(s, Apply(s, st), l)
  {
    ApplyShaped(s, st);
  }

  lemma {:induction false} RunExtends(s: State, run: seq<Step>, t: State, l: LockId)
    requires Inv(s) && RaceFreeRun(s, run, t) && l < |s.entries|
    ensures Inv(t) && |s.entries| == |t.entries| && Extends(s, t, l)
    decreases run
  {
    if run != [] {
      StepExtends(s, run[0], l);
      StepInv(s, run[0]);
      RunExtends(Apply(s, run[0]), run[1..], t, l);
    }
  }

  lemma StandsAt(s: State, t: State, l: LockId, k: nat)
    requires Inv(s) && Inv(t) && |t.entries| == |s.entries| && l < |s.entries| && k < |s.queue[l]|
    requires Extends(s, t, l) && t.releases[l] - s.releases[l] <= k
    ensures var d := t.releases[l] - s.releases[l];
            && k - d < |t.queue[l]|
            && (forall i :: d <= i <= k ==> t.queue[l][i - d] == s.queue[l][i])
            && (Holder(t, l) == Some(s.queue[l][k]) ==> d == k)
  {
    assert LockInv(s, l) && LockInv(t, l);
    assert s.queue[l] == s.swaps[l][s.releases[l]..] && t.queue[l] == t.swaps[l][t.releases[l]..];
    var d := t.releases[l] - s.releases[l];
    forall i | d <= i <= k ensures i - d < |t.queue[l]| && t.queue[l][i - d] == s.queue[l][i] {
      assert s.queue[l][i] == s.swaps[l][s.releases[l] + i];
    }
  }

  /** A release with somebody behind logs the next owner in the same step. */
  lemma StepLogsOwners(s: State, st: Step, l: LockId)
    requires Inv(s) && Enabled(s, st) && l < |s.entries|
    ensures Shaped(Apply(s, st)) && |Apply(s, st).entries| == |s.entries|
    ensures var t := Apply(s, st);
            && |t.owners[l]| >= |s.owners[l]| && s.releases[l] <= t.releases[l] <= s.releases[l] + 1
            && (t.releases[l] > s.releases[l] ==> Holder(s, l).Some?)
            && (t.releases[l] > s.releases[l] && |s.queue[l]| >= 2 ==> |t.owners[l]| > |s.owners[l]|)
  {
    ApplyShaped(s, st);
    if st.Access? && (s.pc[st.n] == DropTail(l) || s.pc[st.n].PassOwner?) && s.pc[st.n].l == l {
      var i := Place(s, st.n, l);
    }
    if st.Access? && s.pc[st.n].DropTail? && s.pc[st.n].l == l && s.entries[l].tail == st.n {
      DropTailEmpties(s, st.n);
    }
  }

  /** Whether the lock is held can be read off the logs. */
  lemma HolderByLogs(s: State, l: LockId)
    requires Inv(s) && l < |s.entries|
    ensures Holder(s, l).Some? <==> |s.owners[l]| > s.releases[l]
    ensures Holder(s, l).Some? ==> s.queue[l] != [] && Holder(s, l).value == s.queue[l][0]
  {
    assert LockInv(s, l);
  }

  /**
   After the first release with somebody behind, the lock stays held as long as the nodes
   that were behind are in the queue.
   */
  lemma {:induction false} StaysHeld(s: State, run: seq<Step>, t: State, l: LockId, ahead: nat)
    requires Inv(s) && RaceFreeRun(s, run, t) && l < |s.entries| && ahead < |s.queue[l]|
    requires s.releases[l] <= t.releases[l] <= s.releases[l] + ahead
    requires Holder(s, l).Some? || t.releases[l] > s.releases[l]
    ensures Inv(t) && |t.entries| == |s.entries| && Holder(t, l).Some?
    decreases run
  {
    if run != [] {
      var m := Apply(s, run[0]);
      StepLogsOwners(s, run[0], l);
      StepInv(s, run[0]);
      RunExtends(m, run[1..], t, l);
      StepExtends(s, run[0], l);
      StandsAt(s, m, l, ahead);
      HolderByLogs(s, l);
      HolderByLogs(m, l);
      StaysHeld(m, run[1..], t, l, ahead - (m.releases[l] - s.releases[l]));
    }
  }

  /**
   A node with `k` nodes ahead of it (the holder included) moves up by one with each
   release and is never overtaken: after `d <= k` releases exactly the `k - d` nodes that
   were closest before it are still ahead.  With somebody ahead of it, it is the holder
   exactly after `k` releases; the first of the queue can be the holder only without a
   release in between.
   */
  lemma TurnComesInOrder(s: State, run: seq<Step>, t: State, l: LockId, k: nat)
    requires Reachable(s) && RaceFreeRun(s, run, t) && l < |s.entries| && k < |s.queue[l]|
    requires t.releases[l] - s.releases[l] <= k
    ensures s.releases[l] <= t.releases[l]
    ensures var d := t.releases[l] - s.releases[l];
            && k - d < |t.queue[l]|
            && (forall i :: d <= i <= k ==> t.queue[l][i - d] == s.queue[l][i])
            && (Holder(t, l) == Some(s.queue[l][k]) ==> d == k)
            && (k > 0 ==> (Holder(t, l) == Some(s.queue[l][k]) <==> d == k))
  {
    ReachableInv(s);
    RunExtends(s, run, t, l);
    RunInv(s, run, t);
    StandsAt(s, t, l, k);
    if k > 0 && t.releases[l] - s.releases[l] == k {
      StaysHeld(s, run, t, l, k);
      HolderByLogs(t, l);
    }
  }

  lemma {:induction false} RunConcat(s: State, run: seq<Step>, t: State, more: seq<Step>, u: State)
    requires Shaped(s) && RaceFreeRun(s, run, t) && RaceFreeRun(t, more, u)
    ensures RaceFreeRun(s, run + more, u)
    decreases run
  {
    if run == [] {
      assert run + more == more;
    } else {
      ApplyShaped(s, run[0]);
      RunConcat(Apply(s, run[0]), run[1..], t, more, u);
      FirstStep(s, run[0], run[1..] + more, u);
      assert [run[0]] + (run[1..] + more) == run + more;
    }
  }

  /** One more step at the end of a run. */
  lemma Extend(s: State, run: seq<Step>, t: State, st: Step)
    requires Shaped(s) && RaceFreeRun(s, run, t) && Enabled(t, st) && !Races(t, st)
    ensures RaceFreeRun(s, run + [st], Apply(t, st))
  {
    ApplyShaped(t, st);
    var u := Apply(t, st);
    assert RaceFreeRun(u, [], u);
    assert RaceFreeRun(t, [st], u) by {
      assert [st][1..] == [];
    }
    RunConcat(s, run, t, [st], u);
  }

  /** What is reached from a reachable state is reachable. */
  lemma ReachFurther(u: State, run: seq<Step>, v: State)
    requires Reachable(u) && RaceFreeRun(u, run, v)
    ensures Reachable(v)
  {
    var nodeCount: nat, lockCount: nat, before: seq<Step> :| ReachedBy(nodeCount, lockCount, before, u);
    RunConcat(InitState(nodeCount, lockCount), before, u, run, v);
    assert ReachedBy(nodeCount, lockCount, before + run, v);
  }

  // ------------------------------------------------------------------------------------
  // Progress
  // ------------------------------------------------------------------------------------

  /** A retrying acquirer never finds itself in the tail, so the loop is only left by a swap. */
  lemma TailIsNeverSelf(s: State, n: NodeId)
    requires Reachable(s) && n < |s.pc| && s.pc[n].Reload?
    ensures s.entries[s.pc[n].l].tail != n
    ensures Apply(s, Access(n)).pc[n].Swap?
  {
    ReachableInv(s);
    var l := s.pc[n].l;
    assert LockInv(s, l) && NodeInv(s, n);
    assert forall i :: 0 <= i < |s.queue[l]| ==> InQueue(s.pc[s.queue[l][i]], l);
  }

  /**
   A releasing node that spins has exactly one node behind it whose link ends the spin:
   either the link is stored, or that node's next access stores it.
   */
  lemma SpinEnds(s: State, n: NodeId) returns (b: NodeId)
    requires Reachable(s) && n < |s.pc| && s.pc[n].Spin?
    ensures b < |s.pc| && b != n && b in s.queue[s.pc[n].l]
    ensures forall m :: PendingLink(s, s.pc[n].l, n, m) ==> m == b
    ensures s.nodes[n].next == b || (PendingLink(s, s.pc[n].l, n, b) && Apply(s, Access(b)).nodes[n].next == b)
    ensures s.nodes[n].next == b ==> Apply(s, Access(n)).pc[n] == PassHead(s.pc[n].l, b)
  {
    ReachableInv(s);
    var l := s.pc[n].l;
    var i := Place(s, n, l);
    assert NodeInv(s, n);
    b := s.queue[l][1];
    assert LinkedAt(s, l, 1);
    forall m | PendingLink(s, l, n, m) ensures m == b {
      var j := Place(s, m, l);
    }
  }

  /** A node that was handed the lock but still reads "waiting" has somebody about to wake it. */
  ghost predicate Woken(s: State, l: LockId)
    requires Shaped(s) && l < |s.entries|
  {
    s.queue[l] != [] && AwaitsWake(s, l, s.queue[l][0]) ==>
      exists r :: 0 <= r < |s.pc| && WakesOn(s.pc[r], l)
  }

  predicate AwaitsWake(s: State, l: LockId, n: NodeId)
    requires Shaped(s) && l < |s.entries|
  {
    n < |s.pc| && s.entries[l].owner == n && Polling(s.pc[n], l) && s.nodes[n].locked != 0 && s.nodes[n].locked != 2
  }

  /** Only a hand-off makes a new owner among the nodes, and no access sets "waiting". */
  lemma AccessStores(s: State, n: NodeId, l: LockId, m: NodeId)
    requires Shaped(s) && l < |s.entries| && Enabled(s, Access(n)) && m < |s.pc|
    requires s.pc[n].PassOwner? ==> s.pc[n].l != l
    ensures Shaped(NodeAccess(s, n)) && |NodeAccess(s, n).entries| == |s.entries|
    ensures var t := NodeAccess(s, n);
            && (t.nodes[m].locked == s.nodes[m].locked || t.nodes[m].locked == 0)
            && (t.entries[l].owner == s.entries[l].owner || t.entries[l].owner == INVALID_NODE_ID)
            && (s.pc[n].Wake? && s.pc[n].succ < |s.nodes| ==> t.nodes[s.pc[n].succ].locked == 0)
  {
    AccessShaped(s, n);
  }

  lemma AccessPolls(s: State, n: NodeId, l: LockId, m: NodeId)
    requires Shaped(s) && l < |s.entries| && Enabled(s, Access(n)) && m < |s.pc|
    ensures Shaped(NodeAccess(s, n)) && |NodeAccess(s, n).pc| == |s.pc|
    ensures var t := NodeAccess(s, n);
            && (m != n ==> t.pc[m] == s.pc[m])
            && (Polling(t.pc[n], l) ==> s.pc[n] == SetHead(l) || (s.pc[n].LinkPred? && s.pc[n].l == l) || Polling(s.pc[n], l))
  {
    AccessShaped(s, n);
    AccessKeepsOthers(s, n);
    PollsAfter(s, n);
  }

  /** Where a node can come from that polls after its access. */
  lemma PollsAfter(s: State, n: NodeId)
    requires Shaped(s) && Enabled(s, Access(n)) && |NodeAccess(s, n).pc| == |s.pc|
    ensures IsPolling(NodeAccess(s, n).pc[n]) ==>
              (s.pc[n].SetHead? || s.pc[n].LinkPred? || IsPolling(s.pc[n])) && NodeAccess(s, n).pc[n].l == s.pc[n].l
  {
    if s.pc[n].SetHead? {
    } else if s.pc[n].LinkPred? {
    } else if !IsPolling(s.pc[n]) {
      assert !IsPolling(NodeAccess(s, n).pc[n]);
    }
  }

  lemma FirstBefore(s: State, n: NodeId, l: LockId)
    requires Inv(s) && l < |s.entries| && Enabled(s, Access(n))
    requires s.pc[n].PassOwner? ==> s.pc[n].l != l
    ensures Shaped(NodeAccess(s, n)) && |NodeAccess(s, n).entries| == |s.entries|
    ensures var t := NodeAccess(s, n);
            t.queue[l] != [] ==>
              (s.queue[l] != [] && t.queue[l][0] == s.queue[l][0]) || (t.queue[l][0] < |t.pc| && t.pc[t.queue[l][0]] == SetHead(l))
  {
    AccessShaped(s, n);
    assert LockInv(s, l);
    if s.pc[n].DropTail? && s.pc[n].l == l {
      var i := Place(s, n, l);
    }
  }

  lemma AwaitedBefore(s: State, n: NodeId, l: LockId)
    requires Inv(s) && l < |s.entries| && Enabled(s, Access(n))
    requires s.pc[n].PassOwner? ==> s.pc[n].l != l
    ensures Shaped(NodeAccess(s, n)) && |NodeAccess(s, n).entries| == |s.entries|
    ensures var t := NodeAccess(s, n);
            t.queue[l] != [] && AwaitsWake(t, l, t.queue[l][0]) ==>
              s.queue[l] != [] && s.queue[l][0] == t.queue[l][0] && AwaitsWake(s, l, s.queue[l][0]) && !WakesOn(s.pc[n], l)
  {
    FirstBefore(s, n, l);
    var t := NodeAccess(s, n);
    if t.queue[l] != [] && AwaitsWake(t, l, t.queue[l][0]) {
      AccessStores(s, n, l, t.queue[l][0]);
      AccessPolls(s, n, l, t.queue[l][0]);
      assert LockInv(s, l) && NodeInv(s, n);
    }
  }

  lemma AccessKeepsWoken(s: State, n: NodeId, l: LockId)
    requires Inv(s) && l < |s.entries| && Woken(s, l) && Enabled(s, Access(n))
    ensures Shaped(NodeAccess(s, n)) && |NodeAccess(s, n).entries| == |s.entries| && Woken(NodeAccess(s, n), l)
  {
    AccessShaped(s, n);
    var t := NodeAccess(s, n);
    if s.pc[n].PassOwner? && s.pc[n].l == l {
      assert WakesOn(t.pc[n], l);
    } else {
      AwaitedBefore(s, n, l);
      if t.queue[l] != [] && AwaitsWake(t, l, t.queue[l][0]) {
        var r :| 0 <= r < |s.pc| && WakesOn(s.pc[r], l);
        assert WakesOn(t.pc[r], l);
      }
    }
  }

  lemma StepKeepsWoken(s: State, st: Step, l: LockId)
    requires Inv(s) && l < |s.entries| && Woken(s, l) && Enabled(s, st) && !Races(s, st)
    ensures Inv(Apply(s, st)) && |Apply(s, st).entries| == |s.entries| && Woken(Apply(s, st), l)
  {
    StepInv(s, st);
    ApplyShaped(s, st);
    if st.Access? {
      AccessKeepsWoken(s, st.n, l);
    } else {
      var t := Apply(s, st);
      assert LockInv(s, l);
      if t.queue[l] != [] && AwaitsWake(t, l, t.queue[l][0]) {
        assert InQueue(s.pc[s.queue[l][0]], l);
        assert AwaitsWake(s, l, s.queue[l][0]);
        var r :| 0 <= r < |s.pc| && WakesOn(s.pc[r], l);
        assert WakesOn(t.pc[r], l);
      }
    }
  }

  lemma {:induction false} RunKeepsWoken(s: State, run: seq<Step>, t: State, l: LockId)
    requires Inv(s) && RaceFreeRun(s, run, t) && l < |s.entries| && Woken(s, l)
    ensures Woken(t, l)
    decreases run
  {
    if run != [] {
      StepKeepsWoken(s, run[0], l);
      RunKeepsWoken(Apply(s, run[0]), run[1..], t, l);
    }
  }

  /**
   No wake-up is lost: a node that owns a lock while it polls either reads "granted", or
   exactly one other node is about to store that.
   */
  lemma OwnerIsWoken(s: State, l: LockId, n: NodeId) returns (r: NodeId)
    requires Reachable(s) && l < |s.entries| && n < |s.pc|
    requires Polling(s.pc[n], l) && s.entries[l].owner == n && s.nodes[n].locked != 0 && s.nodes[n].locked != 2
    ensures s.nodes[n].locked == 1
    ensures r < |s.pc| && r != n && s.pc[r] == Wake(l, n)
    ensures forall m :: 0 <= m < |s.pc| && WakesOn(s.pc[m], l) ==> m == r
  {
    ReachableInv(s);
    var nodeCount: nat, lockCount: nat, run: seq<Step> :| ReachedBy(nodeCount, lockCount, run, s);
    InitInv(nodeCount, lockCount);
    RunKeepsWoken(InitState(nodeCount, lockCount), run, s, l);
    var i := Place(s, n, l);
    assert FirstInv(s, l) && i == 0;
    r :| 0 <= r < |s.pc| && WakesOn(s.pc[r], l);
    assert NodeInv(s, r);
  }

  /**
   The manager acts on what it loaded: when it stores into the record of `h`, `h` is still
   the head, first in the queue, polling with "waiting" in its record, and the lock is
   unowned, whatever the nodes did since the loads.
   */
  lemma GrantIsStable(s: State)
    requires Reachable(s) && s.mgr.StoreLocked?
    ensures var l, h := s.mgr.l, s.mgr.h;
            && l < |s.entries| == |s.queue| && h < |s.nodes| == |s.pc| && s.queue[l] != [] && s.queue[l][0] == h
            && s.entries[l].head == h && s.entries[l].owner == INVALID_NODE_ID
            && Polling(s.pc[h], l) && s.nodes[h].locked == 1 && s.nodes[h].waiting == l
            && Holder(s, l) == None
  {
    ReachableInv(s);
    assert LockInv(s, s.mgr.l);
    assert InQueue(s.pc[s.mgr.h], s.mgr.l);
  }

  /** A step that does not race before a run that does not race. */
  lemma FirstStep(s: State, st: Step, run: seq<Step>, t: State)
    requires Shaped(s) && Enabled(s, st) && !Races(s, st) && Shaped(Apply(s, st)) && RaceFreeRun(Apply(s, st), run, t)
    ensures RaceFreeRun(s, [st] + run, t)
  {
    assert ([st] + run)[1..] == run;
  }

  /** The lock is unowned, and its first node has stored the head and waits. */
  predicate Servable(s: State, l: LockId)
    requires Shaped(s) && l < |s.entries|
  {
    && s.queue[l] != [] && s.queue[l][0] < |s.pc| && s.pc[s.queue[l][0]] != SetHead(l)
    && s.entries[l].owner == INVALID_NODE_ID && s.mgr == Between
  }

  lemma ManagerLoadsHead(s: State, l: LockId)
    requires Inv(s) && l < |s.entries| && Servable(s, l)
    ensures var h := s.queue[l][0];
            Inv(s.(mgr := StoreLocked(l, h))) && RaceFreeRun(s, [Check(l), Manage, Manage, Manage], s.(mgr := StoreLocked(l, h)))
  {
    assert LockInv(s, l);
    var h := s.queue[l][0];
    assert InQueue(s.pc[h], l);
    var s1, s2, s3 := s.(mgr := LoadHead(l)), s.(mgr := LoadLocked(l, h)), s.(mgr := LoadWaiting(l, h, 1));
    var s4 := s.(mgr := StoreLocked(l, h));
    StepInv(s, Check(l));
    StepInv(s1, Manage);
    StepInv(s2, Manage);
    StepInv(s3, Manage);
    FirstStep(s3, Manage, [], s4);
    FirstStep(s2, Manage, [Manage], s4);
    FirstStep(s1, Manage, [Manage, Manage], s4);
    FirstStep(s, Check(l), [Manage, Manage, Manage], s4);
    assert [Manage] + [] == [Manage] && [Manage] + [Manage] == [Manage, Manage];
    assert [Manage] + [Manage, Manage] == [Manage, Manage, Manage];
    assert [Check(l)] + [Manage, Manage, Manage] == [Check(l), Manage, Manage, Manage];
  }

  lemma ManagerStoresGrant(s: State) returns (t: State)
    requires Inv(s) && s.mgr.StoreLocked?
    ensures RaceFreeRun(s, [Manage, Manage], t) && Inv(t)
    ensures var l, h := s.mgr.l, s.mgr.h;
            && h < |t.nodes| && t.entries[l].owner == h && Holder(t, l) == Some(h) && t.nodes[h].locked == 2 && t.mgr == Between
  {
    var s1 := Apply(s, Manage);
    StepInv(s, Manage);
    t := Apply(s1, Manage);
    StepInv(s1, Manage);
    FirstStep(s1, Manage, [], t);
    FirstStep(s, Manage, [Manage], t);
    assert [Manage] + [] == [Manage] && [Manage] + [Manage] == [Manage, Manage];
    assert LockInv(s, s.mgr.l);
    assert InQueue(s.pc[s.mgr.h], s.mgr.l);
  }

  /** With nobody else moving, one check of an unowned lock with a waiting head and the grant give the lock to that head. */
  lemma ManagerServes(s: State, l: LockId) returns (t: State)
    requires Reachable(s) && l < |s.entries| && Servable(s, l)
    ensures var h, m := s.queue[l][0], s.(mgr := StoreLocked(l, s.queue[l][0]));
            && RaceFreeRun(s, [Check(l), Manage, Manage, Manage], m) && RaceFreeRun(m, [Manage, Manage], t)
            && h < |t.nodes| && t.entries[l].owner == h && Holder(t, l) == Some(h) && t.nodes[h].locked == 2 && t.mgr == Between
  {
    ReachableInv(s);
    ManagerLoadsHead(s, l);
    t := ManagerStoresGrant(s.(mgr := StoreLocked(l, s.queue[l][0])));
  }

  /** The manager is on its way to grant `l` to `h`. */
  ghost predicate OnTheWay(s: State, l: LockId, h: NodeId)
  {
    && Shaped(s) && l < |s.entries| && s.entries[l].owner == INVALID_NODE_ID && IsFirst(s, l, h)
    && (s.mgr == LoadHead(l) || s.mgr == LoadLocked(l, h) || s.mgr == LoadWaiting(l, h, 1) || s.mgr == StoreLocked(l, h))
  }

  /** How many accesses the manager is away from having stored the grant. */
  function Remaining(m: ManagerPc): nat
  {
    if m.LoadHead? then 4 else if m.LoadLocked? then 3 else if m.LoadWaiting? then 2 else if m.StoreLocked? then 1 else 0
  }

  /** Without an owner nobody is in its critical section or leaving it, or about to store the head. */
  lemma NobodyOwns(s: State, n: NodeId, l: LockId, h: NodeId)
    requires Inv(s) && n < |s.pc| && OnTheWay(s, l, h)
    ensures !Owning(s.pc[n], l) && s.pc[n] != SetHead(l) && s.pc[n] != ClearHead(l) && s.pc[n] != ClearOwner(l)
    ensures h < |s.pc| && InQueue(s.pc[h], l)
  {
    assert LockInv(s, l) && NodeInv(s, n);
    if InQueue(s.pc[n], l) {
      var i := Place(s, n, l);
    }
  }

  /** So nobody can take the first node of the queue away. */
  lemma NodesKeepTheQueue(s: State, n: NodeId, l: LockId, h: NodeId)
    requires Inv(s) && Enabled(s, Access(n)) && OnTheWay(s, l, h)
    ensures var t := NodeAccess(s, n);
            Shaped(t) && |t.entries| == |s.entries| && t.queue[l] != [] && t.queue[l][0] == h && t.owners[l] == s.owners[l]
  {
    AccessShaped(s, n);
    NobodyOwns(s, n, l, h);
  }

  lemma NodesKeepTheEntry(s: State, n: NodeId, l: LockId, h: NodeId)
    requires Inv(s) && Enabled(s, Access(n)) && OnTheWay(s, l, h)
    ensures var t := NodeAccess(s, n);
            && Shaped(t) && |t.entries| == |s.entries| && |t.pc| == |s.pc| && t.mgr == s.mgr
            && t.entries[l].owner == INVALID_NODE_ID && t.entries[l].head == h && t.pc[h] != SetHead(l)
  {
    AccessShaped(s, n);
    NobodyOwns(s, n, l, h);
  }

  lemma NodesKeepTheFirst(s: State, st: Step, l: LockId, h: NodeId)
    requires Inv(s) && Enabled(s, st) && !Races(s, st) && !st.Manage? && OnTheWay(s, l, h)
    ensures OnTheWay(Apply(s, st), l, h) && Apply(s, st).mgr == s.mgr && Apply(s, st).owners[l] == s.owners[l]
  {
    ApplyShaped(s, st);
    if st.Access? {
      NodesKeepTheQueue(s, st.n, l, h);
      NodesKeepTheEntry(s, st.n, l, h);
    } else if st.Acquire? {
      assert LockInv(s, l) && NodeInv(s, st.n);
    }
  }

  lemma ManagerGoesOn(s: State, l: LockId, h: NodeId)
    requires Inv(s) && OnTheWay(s, l, h)
    ensures var t := ManagerAccess(s);
            if s.mgr.StoreLocked? then l < |t.owners| && t.owners[l] == s.owners[l] + [h]
            else OnTheWay(t, l, h) && Remaining(t.mgr) == Remaining(s.mgr) - 1 && t.owners[l] == s.owners[l]
  {
    assert LockInv(s, l) && NodeInv(s, h);
  }

  function ManagerSteps(run: seq<Step>): nat
  {
    if run == [] then 0 else (if run[0].Manage? then 1 else 0) + ManagerSteps(run[1..])
  }

  lemma StepKeepsOwnersLog(s: State, st: Step, l: LockId)
    requires Shaped(s) && Enabled(s, st) && l < |s.entries|
    ensures Shaped(Apply(s, st)) && |Apply(s, st).entries| == |s.entries| && s.owners[l] <= Apply(s, st).owners[l]
  {
    ApplyShaped(s, st);
  }

  lemma {:induction false} RunKeepsOwnersLog(s: State, run: seq<Step>, t: State, l: LockId)
    requires Shaped(s) && l < |s.entries| && RaceFreeRun(s, run, t)
    ensures s.owners[l] <= t.owners[l]
    decreases run
  {
    if run != [] {
      StepKeepsOwnersLog(s, run[0], l);
      RunKeepsOwnersLog(Apply(s, run[0]), run[1..], t, l);
    }
  }

  lemma {:induction false} OnTheWayIsGranted(s: State, run: seq<Step>, t: State, l: LockId, h: NodeId)
    requires Inv(s) && OnTheWay(s, l, h) && RaceFreeRun(s, run, t) && ManagerSteps(run) >= Remaining(s.mgr)
    ensures |t.entries| == |s.entries| && |t.owners[l]| > |s.owners[l]| && t.owners[l][|s.owners[l]|] == h
    decreases run
  {
    var m := Apply(s, run[0]);
    StepInv(s, run[0]);
    if !run[0].Manage? {
      NodesKeepTheFirst(s, run[0], l, h);
      OnTheWayIsGranted(m, run[1..], t, l, h);
    } else {
      ManagerGoesOn(s, l, h);
      if s.mgr.StoreLocked? {
        RunKeepsOwnersLog(m, run[1..], t, l);
      } else {
        OnTheWayIsGranted(m, run[1..], t, l, h);
      }
    }
  }

  /**
   A check of an unowned lock with a waiting head gives the lock to that head, whatever the
   nodes do meanwhile: after four more accesses of the manager it is the next owner logged.
   */
  lemma CheckIsGranted(s: State, l: LockId, run: seq<Step>, t: State)
    requires Reachable(s) && l < |s.entries| && Servable(s, l)
    requires Shaped(Apply(s, Check(l))) && RaceFreeRun(Apply(s, Check(l)), run, t) && ManagerSteps(run) >= 4
    ensures |t.entries| == |s.entries| && |t.owners[l]| > |s.owners[l]| && t.owners[l][|s.owners[l]|] == s.queue[l][0]
  {
    ReachableInv(s);
    StepInv(s, Check(l));
    assert LockInv(s, l);
    assert InQueue(s.pc[s.queue[l][0]], l);
    OnTheWayIsGranted(Apply(s, Check(l)), run, t, l, s.queue[l][0]);
  }
}
