/** What holds in every run of the two-tier lock over CAS slots. */
module TwoTierTheorems {
  import opened LockTypes
  import opened LockService
  import opened TwoTierProtocol
  import opened TwoTierInvariant

  lemma {:induction false} RunKeepsInv(s: State, run: seq<Step>, u: State)
    requires Inv(s) && IsRun(s, run, u)
    ensures Inv(u)
    decreases run
  {
    if run != [] {
      StepInv(s, run[0]);
      RunKeepsInv(Apply(s, run[0]), run[1..], u);
    }
  }

  /** One more step at the end of a run. */
  lemma {:induction false} Append(s: State, run: seq<Step>, t: State, st: Step)
    requires Shaped(s) && IsRun(s, run, t) && Enabled(t, st)
    ensures Shaped(Apply(t, st)) && IsRun(s, run + [st], Apply(t, st))
    decreases run
  {
    ApplyShaped(t, st);
    if run == [] {
      assert [st][1..] == [] && [] + [st] == [st];
    } else {
      ApplyShaped(s, run[0]);
      Append(Apply(s, run[0]), run[1..], t, st);
      assert (run + [st])[0] == run[0] && (run + [st])[1..] == run[1..] + [st];
    }
  }

  ghost predicate ReachedBy(nodeCount: nat, lockCount: nat, homes: seq<NodeId>, run: seq<Step>, s: State)
  {
    && 0 < nodeCount && 0 < lockCount && ProperHomes(homes, nodeCount)
    && IsRun(InitState(nodeCount, lockCount, homes), run, s)
  }

  /** Reached in some cluster, with any threads on its nodes. */
  ghost predicate Reachable(s: State)
  {
    Shaped(s) &&
    exists nodeCount: nat, lockCount: nat, homes: seq<NodeId>, run: seq<Step> :: ReachedBy(nodeCount, lockCount, homes, run, s)
  }

  lemma ReachableInv(s: State)
    requires Reachable(s)
    ensures Inv(s)
  {
    var nodeCount: nat, lockCount: nat, homes: seq<NodeId>, run: seq<Step> :| ReachedBy(nodeCount, lockCount, homes, run, s);
    InitInv(nodeCount, lockCount, homes);
    RunKeepsInv(InitState(nodeCount, lockCount, homes), run, s);
  }

  /** The thread is in the critical section of `l`, or has left it and not yet written "idle". */
  predicate Inside(th: Thread, l: LockId)
  {
    l in th.held || (th.pc.AtRelease? && th.pc.l == l)
  }

  /** At most one thread in the whole cluster is in the critical section of a lock. */
  lemma MutualExclusion(s: State, l: LockId, a: ThreadId, b: ThreadId)
    requires Reachable(s) && l < Locks(s) && a < |s.threads| && b < |s.threads|
    requires Inside(s.threads[a], l) && Inside(s.threads[b], l)
    ensures a == b
  {
    ReachableInv(s);
    assert ThreadInv(s, a) && ThreadInv(s, b) && Claims(s.threads[a], l) && Claims(s.threads[b], l);
    assert CellInv(s, l, s.threads[a].home) && CellInv(s, l, s.threads[b].home);
    assert IsLocked(s, l, s.threads[a].home) && IsLocked(s, l, s.threads[b].home);
    assert OneLocked(s, l);
  }

  /** A thread in the critical section owns its node's mutex, and its node's slot is the only locked one. */
  lemma HolderOwnsBothTiers(s: State, l: LockId, t: ThreadId)
    requires Reachable(s) && l < Locks(s) && t < |s.threads| && l in s.threads[t].held
    ensures MutexOf(s, t, l) == Some(t)
    ensures forall n :: 0 <= n < Nodes(s) ==> (s.slots[l][n] == SlotLocked <==> n == s.threads[t].home)
  {
    ReachableInv(s);
    assert ThreadInv(s, t) && Claims(s.threads[t], l);
    assert CellInv(s, l, s.threads[t].home);
    assert IsLocked(s, l, s.threads[t].home);
    assert OneLocked(s, l);
    forall n | 0 <= n < Nodes(s) ensures s.slots[l][n] == SlotLocked <==> n == s.threads[t].home {
      assert IsLocked(s, l, n) == (s.slots[l][n] == SlotLocked);
    }
  }

  /** A slot that is not idle belongs to one thread of its node, which owns the mutex and is using the slot. */
  lemma UsedSlotHasAThread(s: State, l: LockId, n: NodeId) returns (t: ThreadId)
    requires Reachable(s) && l < Locks(s) && n < Nodes(s) && s.slots[l][n] != SlotIdle
    ensures t < |s.threads| && s.threads[t].home == n && s.mutexes[n][l] == Some(t)
    ensures l in s.threads[t].held ||
            ((s.threads[t].pc.AtPoll? || s.threads[t].pc.AtCancel? || s.threads[t].pc.AtRelease?) && s.threads[t].pc.l == l)
  {
    ReachableInv(s);
    assert CellInv(s, l, n);
    t := s.mutexes[n][l].value;
  }

  lemma PollReturns(s: State, t: ThreadId, giveUp: bool)
    requires Inv(s) && t < |s.threads| && s.threads[t].pc.AtPoll? && RunPoll(s, t, giveUp).threads[t].pc == Ready
    ensures var u, l := RunPoll(s, t, giveUp), s.threads[t].pc.l;
            && Shaped(u) && SameSize(s, u) && u.threads[t].result == Success && l in u.threads[t].held
            && MutexOf(u, t, l) == Some(t) && SlotOf(u, t, l) == SlotLocked
  {
    RunPollShaped(s, t, giveUp);
    assert ThreadInv(s, t);
  }

  lemma MutexRefuses(s: State, t: ThreadId)
    requires Inv(s) && t < |s.threads| && s.threads[t].pc.AtMutex? && RunMutex(s, t).threads[t].pc == Ready
    ensures var u, th := RunMutex(s, t), RunMutex(s, t).threads[t];
            && Shaped(u) && SameSize(s, u) && th.result in {Unknown, Busy}
            && u.slots == s.slots && u.mutexes == s.mutexes && th.held == s.threads[t].held
  {
    RunMutexShaped(s, t);
  }

  lemma UnlockReturns(s: State, t: ThreadId, giveUp: bool)
    requires Inv(s) && t < |s.threads| && s.threads[t].pc.AtUnlock?
    ensures var u, l := RunThread(s, t, giveUp), s.threads[t].pc.l;
            && Shaped(u) && SameSize(s, u) && u.threads[t].result == s.threads[t].pc.outcome && l !in u.threads[t].held
            && SlotOf(s, t, l) == SlotIdle && MutexOf(s, t, l) == Some(t) && MutexOf(u, t, l) == None
  {
    RunUnlockShaped(s, t, giveUp);
    var l := s.threads[t].pc.l;
    assert ThreadInv(s, t) && Claims(s.threads[t], l) && CellInv(s, l, s.threads[t].home);
  }

  /**
   A call is all or nothing.  It returns success with both tiers held.  A call that gave up
   returns after its slot is idle, and frees the mutex; a call that did not get the mutex
   changes neither tier.
   */
  lemma CallsAreAllOrNothing(s: State, t: ThreadId, giveUp: bool)
    requires Reachable(s) && Enabled(s, Run(t, giveUp))
    requires Shaped(Apply(s, Run(t, giveUp))) && t < |Apply(s, Run(t, giveUp)).threads|
    requires Apply(s, Run(t, giveUp)).threads[t].pc == Ready
    ensures var u := Apply(s, Run(t, giveUp));
            var th, l := u.threads[t], s.threads[t].pc.l;
            && SameSize(s, u)
            && (s.threads[t].pc.AtPoll? ==>
                  th.result == Success && l in th.held && MutexOf(u, t, l) == Some(t) && SlotOf(u, t, l) == SlotLocked)
            && (s.threads[t].pc.AtMutex? ==>
                  th.result in {Unknown, Busy} && u.slots == s.slots && u.mutexes == s.mutexes && th.held == s.threads[t].held)
            && (s.threads[t].pc.AtUnlock? ==>
                  th.result == s.threads[t].pc.outcome && l !in th.held
                  && SlotOf(s, t, l) == SlotIdle && MutexOf(s, t, l) == Some(t) && MutexOf(u, t, l) == None)
  {
    ReachableInv(s);
    if s.threads[t].pc.AtPoll? {
      PollReturns(s, t, giveUp);
    } else if s.threads[t].pc.AtMutex? {
      MutexRefuses(s, t);
    } else if s.threads[t].pc.AtUnlock? {
      UnlockReturns(s, t, giveUp);
    } else {
      RunSlotShaped(s, t, giveUp);
    }
  }

  lemma ExchangeLocksOnly(s: State)
    requires Inv(s) && s.mgr.Exchange? && s.slots[s.mgr.l][s.mgr.i] == SlotWaiting
    ensures var u := ManagerAccess(s);
            && SameSize(s, u) && Shaped(u)
            && (forall n :: 0 <= n < Nodes(s) ==> s.slots[s.mgr.l][n] != SlotLocked)
            && (forall n :: 0 <= n < Nodes(s) ==> (u.slots[s.mgr.l][n] == SlotLocked <==> n == s.mgr.i))
  {
    ManagerAccessShaped(s);
    var u, l := ManagerAccess(s), s.mgr.l;
    forall n | 0 <= n < Nodes(s)
      ensures s.slots[l][n] != SlotLocked
      ensures u.slots[l][n] == SlotLocked <==> n == s.mgr.i
    {
      assert !IsLocked(s, l, n);
    }
  }

  /**
   The two passes of the scan are sound although the nodes run between its reads: when the
   manager's exchange succeeds, the slot it locks is the only locked slot of the lock.
   */
  lemma GrantIsTheOnlyLock(s: State)
    requires Reachable(s) && s.mgr.Exchange? && s.slots[s.mgr.l][s.mgr.i] == SlotWaiting
    ensures var u := Apply(s, Manage);
            && SameSize(s, u) && Shaped(u)
            && (forall n :: 0 <= n < Nodes(s) ==> s.slots[s.mgr.l][n] != SlotLocked)
            && (forall n :: 0 <= n < Nodes(s) ==> (u.slots[s.mgr.l][n] == SlotLocked <==> n == s.mgr.i))
  {
    ReachableInv(s);
    ExchangeLocksOnly(s);
  }

  /** Grants of a lock minus its releases is one exactly while a slot is locked, and zero otherwise. */
  lemma GrantsMinusReleases(s: State, l: LockId)
    requires Reachable(s) && l < Locks(s)
    ensures s.grants[l] == s.releases[l] + (if exists n :: 0 <= n < Nodes(s) && s.slots[l][n] == SlotLocked then 1 else 0)
  {
    ReachableInv(s);
    assert Accounted(s, l);
    if SomeLocked(s, l) {
      var n :| 0 <= n < Nodes(s) && IsLocked(s, l, n);
      assert s.slots[l][n] == SlotLocked;
    } else if exists n :: 0 <= n < Nodes(s) && s.slots[l][n] == SlotLocked {
      var n :| 0 <= n < Nodes(s) && s.slots[l][n] == SlotLocked;
      assert IsLocked(s, l, n);
    }
  }

  // ------------------------------------------------------------------------------------
  // Refinement of the lock service
  // ------------------------------------------------------------------------------------

  /** What lock `l` looks like to the nodes. */
  ghost predicate Abstracts(s: State, l: LockId, a: Service)
    requires Shaped(s) && l < Locks(s)
  {
    && a.waiters == Waiters(s, l)
    && (match a.holder
        case None => !SomeLocked(s, l)
        case Some(n) => n < Nodes(s) && IsLocked(s, l, n))
  }

  function Waiters(s: State, l: LockId): set<NodeId>
    requires Shaped(s) && l < Locks(s)
  {
    set n | 0 <= n < Nodes(s) && s.slots[l][n] == SlotWaiting
  }

  lemma AbstractOf(s: State, l: LockId) returns (a: Service)
    requires Shaped(s) && l < Locks(s)
    ensures Abstracts(s, l, a)
  {
    if SomeLocked(s, l) {
      var n :| 0 <= n < Nodes(s) && IsLocked(s, l, n);
      a := Service(Some(n), Waiters(s, l));
    } else {
      a := Service(None, Waiters(s, l));
    }
  }

  /** The operations of the service that a step performs on lock `l`. */
  function StepOps(s: State, st: Step, l: LockId): seq<Op>
    requires Shaped(s) && Enabled(s, st) && l < Locks(s)
  {
    match st
    case Run(t, _) =>
      var th := s.threads[t];
      if th.pc.AtMutex? || th.pc.l != l then []
      else if th.pc.AtRequest? then [Request(th.home)]
      else if (th.pc.AtCancel? || th.pc.AtRelease?) && SlotOf(s, t, l) == SlotLocked then [Release(th.home)]
      else if th.pc.AtCancel? && SlotOf(s, t, l) == SlotWaiting then [Cancel(th.home)]
      else []
    case Manage =>
      if s.mgr.Exchange? && s.mgr.l == l && s.slots[l][s.mgr.i] == SlotWaiting then [Grant(s.mgr.i)] else []
    case _ => []
  }

  /** The holder is unique. */
  lemma AbstractHolder(s: State, l: LockId, a: Service, n: NodeId)
    requires Inv(s) && l < Locks(s) && Abstracts(s, l, a) && n < Nodes(s)
    ensures s.slots[l][n] == SlotLocked <==> a.holder == Some(n)
  {
    assert OneLocked(s, l);
    assert IsLocked(s, l, n) == (s.slots[l][n] == SlotLocked);
  }

  /** Changing one slot changes the abstraction at that node only. */
  lemma AbstractAfter(s: State, u: State, l: LockId, n: NodeId, a: Service, b: Service)
    requires Inv(s) && Inv(u) && l < Locks(s) && n < Nodes(s) && OneSlot(s, u, l, n)
    requires Abstracts(s, l, a)
    requires b.waiters == if u.slots[l][n] == SlotWaiting then a.waiters + {n} else a.waiters - {n}
    requires b.holder == if u.slots[l][n] == SlotLocked then Some(n) else if a.holder == Some(n) then None else a.holder
    ensures Abstracts(u, l, b)
  {
    forall i | 0 <= i < Nodes(u) && i != n ensures u.slots[l][i] == s.slots[l][i] {
    }
    assert b.waiters == Waiters(u, l);
    if b.holder == None && SomeLocked(u, l) {
      var i :| 0 <= i < Nodes(u) && IsLocked(u, l, i);
      assert i != n;
      assert IsLocked(s, l, i);
      AbstractHolder(s, l, a, i);
      assert false;
    }
    if b.holder.Some? && b.holder.value != n {
      assert IsLocked(s, l, b.holder.value);
    }
  }

  /** A thread changes at most the slot of its node. */
  lemma ThreadWritesOwnSlot(s: State, t: ThreadId, giveUp: bool)
    requires Inv(s) && Enabled(s, Run(t, giveUp)) && s.threads[t].pc.l < Locks(s)
    ensures var u, l := RunThread(s, t, giveUp), s.threads[t].pc.l;
            && Shaped(u) && SameSize(s, u) && OneSlot(s, u, l, s.threads[t].home)
            && (StepOps(s, Run(t, giveUp), l) == [] ==> u.slots == s.slots)
  {
    RunShaped(s, t, giveUp);
    var l, n := s.threads[t].pc.l, s.threads[t].home;
    assert CellInv(s, l, n) && ThreadInv(s, t);
    NoWrite(s, l, n);
  }

  lemma ThreadActs(s: State, t: ThreadId, giveUp: bool, a: Service)
    requires Inv(s) && Enabled(s, Run(t, giveUp)) && s.threads[t].pc.l < Locks(s)
    requires Abstracts(s, s.threads[t].pc.l, a) && StepOps(s, Run(t, giveUp), s.threads[t].pc.l) != []
    requires Inv(RunThread(s, t, giveUp)) && OneSlot(s, RunThread(s, t, giveUp), s.threads[t].pc.l, s.threads[t].home)
    ensures var l := s.threads[t].pc.l;
            var ops := StepOps(s, Run(t, giveUp), l);
            |ops| == 1 && Allowed(a, ops[0]) && Abstracts(RunThread(s, t, giveUp), l, Do(a, ops[0]))
  {
    var u, l, n := RunThread(s, t, giveUp), s.threads[t].pc.l, s.threads[t].home;
    assert CellInv(s, l, n) && ThreadInv(s, t);
    AbstractHolder(s, l, a, n);
    AbstractAfter(s, u, l, n, a, Do(a, StepOps(s, Run(t, giveUp), l)[0]));
  }

  lemma ThreadRefines(s: State, t: ThreadId, giveUp: bool, a: Service) returns (b: Service)
    requires Inv(s) && Enabled(s, Run(t, giveUp)) && s.threads[t].pc.l < Locks(s)
    requires Abstracts(s, s.threads[t].pc.l, a)
    ensures var u, l := Apply(s, Run(t, giveUp)), s.threads[t].pc.l;
            Inv(u) && SameSize(s, u) && Performs(a, StepOps(s, Run(t, giveUp), l), b) && Abstracts(u, l, b)
  {
    StepInv(s, Run(t, giveUp));
    ThreadWritesOwnSlot(s, t, giveUp);
    var u, l := Apply(s, Run(t, giveUp)), s.threads[t].pc.l;
    var ops := StepOps(s, Run(t, giveUp), l);
    if ops == [] {
      b := a;
      SameSlots(s, u, l, a);
    } else {
      ThreadActs(s, t, giveUp, a);
      b := Do(a, ops[0]);
      PerformsOne(a, ops[0], b);
    }
  }

  lemma SameSlots(s: State, u: State, l: LockId, a: Service)
    requires Shaped(s) && Shaped(u) && SameSize(s, u) && l < Locks(s) && Abstracts(s, l, a) && u.slots[l] == s.slots[l]
    ensures Abstracts(u, l, a)
  {
    assert forall i :: 0 <= i < Nodes(s) ==> IsLocked(u, l, i) == IsLocked(s, l, i);
    assert Waiters(u, l) == Waiters(s, l);
  }

  lemma ManagerRefines(s: State, a: Service) returns (b: Service)
    requires Inv(s) && s.mgr.Exchange? && Abstracts(s, s.mgr.l, a)
    ensures var u, l := Apply(s, Manage), s.mgr.l;
            Inv(u) && SameSize(s, u) && Performs(a, StepOps(s, Manage, l), b) && Abstracts(u, l, b)
  {
    StepInv(s, Manage);
    ApplyShaped(s, Manage);
    var u, l, n := Apply(s, Manage), s.mgr.l, s.mgr.i;
    NoWrite(s, l, n);
    if s.slots[l][n] == SlotWaiting {
      assert a.holder == None by {
        assert forall i :: 0 <= i < Nodes(s) ==> !IsLocked(s, l, i);
      }
      b := Do(a, Grant(n));
      PerformsOne(a, Grant(n), b);
      AbstractAfter(s, u, l, n, a, b);
    } else {
      b := a;
      SameSlots(s, u, l, a);
    }
  }

  /** A step leaves the slots of all locks but the one it works on. */
  lemma OtherLockRefines(s: State, st: Step, l: LockId, a: Service)
    requires Inv(s) && Enabled(s, st) && l < Locks(s) && Abstracts(s, l, a)
    requires st.Run? ==> s.threads[st.t].pc.l != l
    requires st.Manage? ==> !s.mgr.Exchange? || s.mgr.l != l
    ensures Inv(Apply(s, st)) && SameSize(s, Apply(s, st))
    ensures StepOps(s, st, l) == [] && Abstracts(Apply(s, st), l, a)
  {
    StepInv(s, st);
    ApplyShaped(s, st);
    var u := Apply(s, st);
    assert u.slots[l] == s.slots[l];
    SameSlots(s, u, l, a);
  }

  /** Every step performs its operations on the service. */
  lemma StepRefines(s: State, st: Step, l: LockId, a: Service) returns (b: Service)
    requires Inv(s) && Enabled(s, st) && l < Locks(s) && Abstracts(s, l, a)
    ensures Inv(Apply(s, st)) && SameSize(s, Apply(s, st))
    ensures Performs(a, StepOps(s, st, l), b) && Abstracts(Apply(s, st), l, b)
  {
    if st.Run? && s.threads[st.t].pc.l == l {
      b := ThreadRefines(s, st.t, st.giveUp, a);
    } else if st.Manage? && s.mgr.Exchange? && s.mgr.l == l {
      b := ManagerRefines(s, a);
    } else {
      OtherLockRefines(s, st, l, a);
      b := a;
    }
  }

  function History(s: State, run: seq<Step>, u: State, l: LockId): seq<Op>
    requires Shaped(s) && IsRun(s, run, u) && l < Locks(s)
    decreases run
  {
    if run == [] then []
    else
      ApplyShaped(s, run[0]);
      StepOps(s, run[0], l) + History(Apply(s, run[0]), run[1..], u, l)
  }

  /** Every run performs a history of the lock service on each lock. */
  lemma {:induction false} RunRefines(s: State, run: seq<Step>, u: State, l: LockId, a: Service) returns (b: Service)
    requires Inv(s) && IsRun(s, run, u) && l < Locks(s) && Abstracts(s, l, a)
    ensures Performs(a, History(s, run, u, l), b) && Abstracts(u, l, b)
    decreases run
  {
    if run == [] {
      b := a;
    } else {
      var m := Apply(s, run[0]);
      var c := StepRefines(s, run[0], l, a);
      b := RunRefines(m, run[1..], u, l, c);
      PerformsConcat(a, StepOps(s, run[0], l), c, History(m, run[1..], u, l), b);
    }
  }

  /** In every run from the initial state each grant is released before the next, by the same node. */
  lemma GrantsAlternate(nodeCount: nat, lockCount: nat, homes: seq<NodeId>, run: seq<Step>, u: State, l: LockId)
    requires ReachedBy(nodeCount, lockCount, homes, run, u) && l < lockCount
    ensures Shaped(u) && Locks(u) == lockCount
    ensures var h := History(InitState(nodeCount, lockCount, homes), run, u, l);
            if exists n :: 0 <= n < Nodes(u) && u.slots[l][n] == SlotLocked
            then Grants(h) != [] && Grants(h)[..|Grants(h)| - 1] == Releases(h)
            else Grants(h) == Releases(h)
  {
    var s := InitState(nodeCount, lockCount, homes);
    InitInv(nodeCount, lockCount, homes);
    var a := AbstractOf(s, l);
    assert a.holder == None by {
      assert forall i :: 0 <= i < Nodes(s) ==> !IsLocked(s, l, i);
    }
    var b := RunRefines(s, run, u, l, a);
    var h := History(s, run, u, l);
    GrantsAreReleasedInTurn(a, h, b);
    assert Held(a) + Grants(h) == Grants(h);
    if b.holder == None {
      forall n | 0 <= n < Nodes(u) ensures u.slots[l][n] != SlotLocked {
        assert !IsLocked(u, l, n);
      }
      assert Releases(h) + Held(b) == Releases(h);
    } else {
      assert IsLocked(u, l, b.holder.value);
      assert u.slots[l][b.holder.value] == SlotLocked;
      assert Grants(h)[..|Grants(h)| - 1] == Releases(h);
    }
  }

  // ------------------------------------------------------------------------------------
  // The statistics of the manager
  // ------------------------------------------------------------------------------------

  function Sum(q: seq<nat>): nat
  {
    if q == [] then 0 else q[0] + Sum(q[1..])
  }

  lemma {:induction false} SumAfterIncrement(q: seq<nat>, i: nat)
    requires i < |q|
    ensures Sum(q[i := q[i] + 1]) == Sum(q) + 1
  {
    if i == 0 {
      assert q[0 := q[0] + 1][1..] == q[1..];
    } else {
      SumAfterIncrement(q[1..], i - 1);
      assert q[i := q[i] + 1][1..] == q[1..][i - 1 := q[1..][i - 1] + 1];
    }
  }

  lemma {:induction false} SumOfZeros(n: nat)
    ensures Sum(Zeros(n)) == 0
  {
    if n > 0 {
      assert Zeros(n)[1..] == Zeros(n - 1);
      SumOfZeros(n - 1);
    }
  }

  /** How many locks the running scan has finished. */
  function Finished(s: State): nat
  {
    if s.mgr.Between? || s.mgr.EndScan? then Locks(s) else s.mgr.l
  }

  /** Scans that granted something and have ended. */
  function BusyScans(s: State): int
  {
    s.stats.cycles - s.stats.idle
  }

  ghost predicate StatsInv(s: State)
    requires Shaped(s)
  {
    var working := !s.mgr.Between? && s.anyWork;
    && s.stats.total == Sum(s.stats.byLock)
    && s.stats.idle <= s.stats.cycles
    && (!s.wasReset ==>
          && (forall l :: 0 <= l < Locks(s) ==> s.grants[l] == s.stats.byLock[l] + (if s.mgr == Count(l) then 1 else 0))
          && BusyScans(s) + (if working then 1 else 0) <= s.stats.total
          && s.stats.total <= Locks(s) * BusyScans(s) + (if working then Finished(s) else 0))
  }

  lemma CountKeepsStats(s: State)
    requires Shaped(s) && s.mgr.Count? && StatsInv(s)
    ensures Shaped(ManagerAccess(s)) && SameSize(s, ManagerAccess(s)) && StatsInv(ManagerAccess(s))
  {
    ManagerAccessShaped(s);
    SumAfterIncrement(s.stats.byLock, s.mgr.l);
  }

  lemma EndScanKeepsStats(s: State)
    requires Shaped(s) && s.mgr.EndScan? && StatsInv(s)
    ensures Shaped(ManagerAccess(s)) && SameSize(s, ManagerAccess(s)) && StatsInv(ManagerAccess(s))
  {
    ManagerAccessShaped(s);
    if s.anyWork {
      assert Locks(s) * (BusyScans(s) + 1) == Locks(s) * BusyScans(s) + Locks(s);
    }
  }

  lemma ManagerKeepsStats(s: State)
    requires Shaped(s) && s.mgr != Between && StatsInv(s)
    ensures Shaped(ManagerAccess(s)) && SameSize(s, ManagerAccess(s)) && StatsInv(ManagerAccess(s))
  {
    ManagerAccessShaped(s);
    if s.mgr.Count? {
      CountKeepsStats(s);
    } else if s.mgr.EndScan? {
      EndScanKeepsStats(s);
    }
  }

  /** The threads do not touch the statistics. */
  lemma ThreadsKeepStats(s: State, st: Step)
    requires Shaped(s) && Enabled(s, st) && (st.Call? || st.Run? || st.BeginRelease?)
    ensures var u := Apply(s, st); u.stats == s.stats && u.grants == s.grants && u.mgr == s.mgr
                                   && u.anyWork == s.anyWork && u.wasReset == s.wasReset
  {
  }

  lemma StepKeepsStats(s: State, st: Step)
    requires Shaped(s) && Enabled(s, st) && StatsInv(s)
    ensures Shaped(Apply(s, st)) && SameSize(s, Apply(s, st)) && StatsInv(Apply(s, st))
  {
    ApplyShaped(s, st);
    if st.Manage? {
      ManagerKeepsStats(s);
    } else if st.ResetStats? {
      SumOfZeros(Locks(s));
    } else if !st.BeginScan? {
      ThreadsKeepStats(s, st);
    }
  }

  lemma {:induction false} RunKeepsStats(s: State, run: seq<Step>, u: State)
    requires Shaped(s) && IsRun(s, run, u) && StatsInv(s)
    ensures StatsInv(u)
    decreases run
  {
    if run != [] {
      StepKeepsStats(s, run[0]);
      RunKeepsStats(Apply(s, run[0]), run[1..], u);
    }
  }

  /**
   The statistics in every reachable state: the total is the sum over the locks, resets or
   not.  Without a reset, the counters are the grants, up to one that is just being
   counted; and between scans the total lies between the number of scans that did work and
   that number times the number of locks.
   */
  lemma StatisticsAreExact(s: State)
    requires Reachable(s)
    ensures s.stats.total == Sum(s.stats.byLock) && s.stats.idle <= s.stats.cycles
    ensures !s.wasReset ==>
              forall l :: 0 <= l < Locks(s) ==> s.grants[l] == s.stats.byLock[l] + (if s.mgr == Count(l) then 1 else 0)
    ensures !s.wasReset && s.mgr == Between ==> BusyScans(s) <= s.stats.total <= Locks(s) * BusyScans(s)
  {
    var nodeCount: nat, lockCount: nat, homes: seq<NodeId>, run: seq<Step> :| ReachedBy(nodeCount, lockCount, homes, run, s);
    InitInv(nodeCount, lockCount, homes);
    SumOfZeros(lockCount);
    RunKeepsStats(InitState(nodeCount, lockCount, homes), run, s);
  }
}
