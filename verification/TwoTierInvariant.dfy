/** The invariant of the two-tier lock over CAS slots, kept by every step. */
module TwoTierInvariant {
  import opened LockTypes
  import opened TwoTierProtocol

  /** The thread has taken the mutex for `l` and not freed it. */
  predicate Claims(th: Thread, l: LockId)
  {
    l in th.held ||
    ((th.pc.AtRequest? || th.pc.AtPoll? || th.pc.AtCancel? || th.pc.AtRelease? || th.pc.AtUnlock?) && th.pc.l == l)
  }

  /** What the slot of a node may be while one of its threads claims the lock. */
  predicate SlotFits(th: Thread, l: LockId, v: Slot)
  {
    && (l in th.held || (th.pc.AtRelease? && th.pc.l == l) ==> v == SlotLocked)
    && ((th.pc.AtPoll? || th.pc.AtCancel?) && th.pc.l == l ==> v != SlotIdle)
    && ((th.pc.AtRequest? || th.pc.AtUnlock?) && th.pc.l == l ==> v == SlotIdle)
  }

  /** The mutex and the slot of one node for one lock. */
  predicate CellInv(s: State, l: LockId, n: NodeId)
    requires Shaped(s) && l < Locks(s) && n < Nodes(s)
  {
    match s.mutexes[n][l]
    case None => s.slots[l][n] == SlotIdle
    case Some(t) =>
      && t < |s.threads| && s.threads[t].home == n && Claims(s.threads[t], l)
      && SlotFits(s.threads[t], l, s.slots[l][n])
  }

  ghost predicate ThreadInv(s: State, t: ThreadId)
    requires Shaped(s) && t < |s.threads|
  {
    var th := s.threads[t];
    && (forall l :: 0 <= l < Locks(s) && Claims(th, l) ==> s.mutexes[th.home][l] == Some(t))
    && (!th.pc.Ready? && !th.pc.AtMutex? ==> th.pc.l !in th.held)
  }

  predicate IsLocked(s: State, l: LockId, n: NodeId)
    requires Shaped(s) && l < Locks(s) && n < Nodes(s)
  {
    s.slots[l][n] == SlotLocked
  }

  predicate SomeLocked(s: State, l: LockId)
    requires Shaped(s) && l < Locks(s)
  {
    exists n :: 0 <= n < Nodes(s) && IsLocked(s, l, n)
  }

  predicate NoneLocked(s: State, l: LockId, upTo: nat)
    requires Shaped(s) && l < Locks(s) && upTo <= Nodes(s)
  {
    forall n :: 0 <= n < upTo ==> !IsLocked(s, l, n)
  }

  predicate OneLocked(s: State, l: LockId)
    requires Shaped(s) && l < Locks(s)
  {
    forall i, j :: 0 <= i < Nodes(s) && 0 <= j < Nodes(s) && IsLocked(s, l, i) && IsLocked(s, l, j) ==> i == j
  }

  /** The grants of a lock are its releases plus the one that is not released yet. */
  predicate Accounted(s: State, l: LockId)
    requires Shaped(s) && l < Locks(s)
  {
    s.grants[l] == s.releases[l] + (if SomeLocked(s, l) then 1 else 0)
  }

  /**
   What the scan relies on: every slot it has passed in the first loop is still not
   locked, whatever the nodes did since the manager read it.
   */
  predicate ScanInv(s: State)
    requires Shaped(s)
  {
    && (s.mgr.FirstPass? ==> NoneLocked(s, s.mgr.l, s.mgr.i))
    && (s.mgr.SecondPass? || s.mgr.Exchange? ==> NoneLocked(s, s.mgr.l, Nodes(s)))
  }

  ghost predicate Inv(s: State)
  {
    && Shaped(s)
    && (forall l, n :: 0 <= l < Locks(s) && 0 <= n < Nodes(s) ==> CellInv(s, l, n))
    && (forall t :: 0 <= t < |s.threads| ==> ThreadInv(s, t))
    && (forall l :: 0 <= l < Locks(s) ==> OneLocked(s, l) && Accounted(s, l))
    && ScanInv(s)
  }

  predicate ProperHomes(homes: seq<NodeId>, nodeCount: nat)
  {
    forall t :: 0 <= t < |homes| ==> homes[t] < nodeCount
  }

  lemma InitInv(nodeCount: nat, lockCount: nat, homes: seq<NodeId>)
    requires 0 < nodeCount && 0 < lockCount && ProperHomes(homes, nodeCount)
    ensures Inv(InitState(nodeCount, lockCount, homes))
  {
  }

  // ------------------------------------------------------------------------------------
  // One slot changes
  // ------------------------------------------------------------------------------------

  /** `t` differs from `s` in the slots by at most slot `n` of lock `l`. */
  predicate OneSlot(s: State, t: State, l: LockId, n: NodeId)
    requires Shaped(s) && Shaped(t) && l < Locks(s) && n < Nodes(s)
  {
    && Locks(t) == Locks(s) && Nodes(t) == Nodes(s)
    && t.slots == s.slots[l := s.slots[l][n := t.slots[l][n]]]
  }

  /** A write that does not lock keeps every fact about unlocked slots. */
  lemma WriteUnlocked(s: State, t: State, l: LockId, n: NodeId, k: LockId)
    requires Shaped(s) && Shaped(t) && l < Locks(s) && n < Nodes(s) && k < Locks(s)
    requires OneSlot(s, t, l, n) && t.slots[l][n] != SlotLocked
    ensures forall i :: 0 <= i < Nodes(s) && IsLocked(t, k, i) ==> IsLocked(s, k, i)
    ensures OneLocked(s, k) ==> OneLocked(t, k)
    ensures forall i :: 0 <= i <= Nodes(s) && NoneLocked(s, k, i) ==> NoneLocked(t, k, i)
  {
  }

  lemma WriteKeepsScan(s: State, t: State, l: LockId, n: NodeId)
    requires Shaped(s) && Shaped(t) && l < Locks(s) && n < Nodes(s)
    requires OneSlot(s, t, l, n) && t.slots[l][n] != SlotLocked && t.mgr == s.mgr && ScanInv(s)
    ensures ScanInv(t)
  {
    if s.mgr.FirstPass? || s.mgr.SecondPass? || s.mgr.Exchange? {
      WriteUnlocked(s, t, l, n, s.mgr.l);
    }
  }

  /** A write of "waiting" over "idle", or of "idle" with the log, keeps the account. */
  lemma WriteKeepsAccount(s: State, t: State, l: LockId, n: NodeId, k: LockId)
    requires Shaped(s) && Shaped(t) && l < Locks(s) && n < Nodes(s) && k < Locks(s)
    requires OneSlot(s, t, l, n) && t.slots[l][n] != SlotLocked && t.grants == s.grants
    requires OneLocked(s, k) && Accounted(s, k)
    requires t.releases == if s.slots[l][n] == SlotLocked then s.releases[l := s.releases[l] + 1] else s.releases
    ensures Accounted(t, k)
  {
    WriteUnlocked(s, t, l, n, k);
    if k == l && IsLocked(s, l, n) {
      assert SomeLocked(s, l);
      assert !SomeLocked(t, l);
    } else if SomeLocked(s, k) {
      var i :| 0 <= i < Nodes(s) && IsLocked(s, k, i);
      assert IsLocked(t, k, i);
    }
  }

  /** The manager's own exchange, in a lock without a locked slot. */
  lemma GrantLocksOne(s: State, t: State, l: LockId, n: NodeId, k: LockId)
    requires Shaped(s) && Shaped(t) && l < Locks(s) && n < Nodes(s) && k < Locks(s)
    requires OneSlot(s, t, l, n) && t.slots[l][n] == SlotLocked && NoneLocked(s, l, Nodes(s))
    requires OneLocked(s, k) && Accounted(s, k) && t.releases == s.releases
    requires t.grants == s.grants[l := s.grants[l] + 1]
    ensures OneLocked(t, k) && Accounted(t, k)
  {
    if k == l {
      assert !SomeLocked(s, l);
      assert IsLocked(t, l, n);
      assert forall i :: 0 <= i < Nodes(s) && i != n ==> IsLocked(t, l, i) == IsLocked(s, l, i);
    } else {
      assert forall i :: 0 <= i < Nodes(s) ==> IsLocked(t, k, i) == IsLocked(s, k, i);
    }
  }

  // ------------------------------------------------------------------------------------
  // One thread moves
  // ------------------------------------------------------------------------------------

  /** Thread `t` moves; among the mutexes and slots only those of its node for lock `l` change. */
  predicate OneThread(s: State, u: State, t: ThreadId, l: LockId)
    requires Shaped(s) && Shaped(u) && t < |s.threads| && l < Locks(s)
  {
    var n := s.threads[t].home;
    && OneSlot(s, u, l, n)
    && u.mutexes == s.mutexes[n := s.mutexes[n][l := u.mutexes[n][l]]]
    && |u.threads| == |s.threads| && u.threads == s.threads[t := u.threads[t]] && u.threads[t].home == n
    && (u.mutexes[n][l] != s.mutexes[n][l] ==> {s.mutexes[n][l], u.mutexes[n][l]} == {None, Some(t)})
    && (forall k :: 0 <= k < Locks(s) && k != l ==>
          (Claims(u.threads[t], k) <==> Claims(s.threads[t], k))
          && (k in s.threads[t].held <==> k in u.threads[t].held))
    && (s.threads[t].pc.Ready? || s.threads[t].pc.l == l)
    && (u.threads[t].pc.Ready? || u.threads[t].pc.l == l)
  }

  lemma ThreadKeepsCell(s: State, u: State, t: ThreadId, l: LockId, k: LockId, n: NodeId)
    requires Inv(s) && Shaped(u) && t < |s.threads| && l < Locks(s) && OneThread(s, u, t, l)
    requires CellInv(u, l, s.threads[t].home)
    requires k < Locks(s) && n < Nodes(s)
    ensures CellInv(u, k, n)
  {
    assert CellInv(s, k, n);
    if k != l {
      assert u.mutexes[n][k] == s.mutexes[n][k] && u.slots[k][n] == s.slots[k][n];
    }
  }

  lemma ThreadKeepsThread(s: State, u: State, t: ThreadId, l: LockId, x: ThreadId)
    requires Inv(s) && Shaped(u) && t < |s.threads| && l < Locks(s) && OneThread(s, u, t, l)
    requires Claims(u.threads[t], l) <==> u.mutexes[s.threads[t].home][l] == Some(t)
    requires !u.threads[t].pc.Ready? && !u.threads[t].pc.AtMutex? ==> l !in u.threads[t].held
    requires x < |s.threads|
    ensures ThreadInv(u, x)
  {
    assert ThreadInv(s, x) && ThreadInv(s, t);
    forall k | 0 <= k < Locks(u) && Claims(u.threads[x], k) ensures u.mutexes[u.threads[x].home][k] == Some(x) {
      if x != t && k == l && s.threads[x].home == s.threads[t].home {
        assert s.mutexes[s.threads[x].home][l] == Some(x);
      }
    }
  }

  /** A thread's step keeps the invariant if it fits its own cell and does not lock a slot. */
  lemma ThreadKeepsInv(s: State, u: State, t: ThreadId, l: LockId)
    requires Inv(s) && Shaped(u) && t < |s.threads| && l < Locks(s) && OneThread(s, u, t, l)
    requires CellInv(u, l, s.threads[t].home)
    requires Claims(u.threads[t], l) <==> u.mutexes[s.threads[t].home][l] == Some(t)
    requires !u.threads[t].pc.Ready? && !u.threads[t].pc.AtMutex? ==> l !in u.threads[t].held
    requires u.mgr == s.mgr && u.grants == s.grants
    requires if u.slots == s.slots then u.releases == s.releases
             else u.slots[l][s.threads[t].home] != SlotLocked
                  && u.releases == if SlotOf(s, t, l) == SlotLocked then s.releases[l := s.releases[l] + 1] else s.releases
    ensures Inv(u)
  {
    var n := s.threads[t].home;
    forall k, i | 0 <= k < Locks(u) && 0 <= i < Nodes(u) ensures CellInv(u, k, i) {
      ThreadKeepsCell(s, u, t, l, k, i);
    }
    forall x | 0 <= x < |u.threads| ensures ThreadInv(u, x) {
      ThreadKeepsThread(s, u, t, l, x);
    }
    if u.slots == s.slots {
      forall k | 0 <= k < Locks(u) ensures OneLocked(u, k) && Accounted(u, k) {
        assert OneLocked(s, k) && Accounted(s, k);
        assert forall i :: 0 <= i < Nodes(s) ==> IsLocked(u, k, i) == IsLocked(s, k, i);
      }
      if s.mgr.FirstPass? || s.mgr.SecondPass? || s.mgr.Exchange? {
        assert forall i :: 0 <= i < Nodes(s) ==> IsLocked(u, s.mgr.l, i) == IsLocked(s, s.mgr.l, i);
      }
    } else {
      forall k | 0 <= k < Locks(u) ensures OneLocked(u, k) && Accounted(u, k) {
        assert OneLocked(s, k) && Accounted(s, k);
        WriteUnlocked(s, u, l, n, k);
        WriteKeepsAccount(s, u, l, n, k);
      }
      WriteKeepsScan(s, u, l, n);
    }
  }

  // ------------------------------------------------------------------------------------
  // The steps
  // ------------------------------------------------------------------------------------

  lemma NoWrite(s: State, l: LockId, n: NodeId)
    requires Shaped(s) && l < Locks(s) && n < Nodes(s)
    ensures s.slots == s.slots[l := s.slots[l][n := s.slots[l][n]]]
    ensures s.mutexes == s.mutexes[n := s.mutexes[n][l := s.mutexes[n][l]]]
  {
    assert s.slots[l] == s.slots[l][n := s.slots[l][n]];
    assert s.mutexes[n] == s.mutexes[n][l := s.mutexes[n][l]];
  }

  lemma RunMutexInv(s: State, t: ThreadId)
    requires Inv(s) && t < |s.threads| && s.threads[t].pc.AtMutex?
    ensures Inv(RunMutex(s, t))
  {
    var u, l, n := RunMutex(s, t), s.threads[t].pc.l, s.threads[t].home;
    assert CellInv(s, l, n) && ThreadInv(s, t);
    NoWrite(s, l, n);
    assert Shaped(u);
    ThreadKeepsInv(s, u, t, l);
  }

  lemma RunRequestInv(s: State, t: ThreadId, giveUp: bool)
    requires Inv(s) && t < |s.threads| && s.threads[t].pc.AtRequest?
    ensures Inv(RunThread(s, t, giveUp))
  {
    var u, l, n := RunThread(s, t, giveUp), s.threads[t].pc.l, s.threads[t].home;
    assert CellInv(s, l, n) && ThreadInv(s, t);
    NoWrite(s, l, n);
    assert Shaped(u);
    ThreadKeepsInv(s, u, t, l);
  }

  lemma RunPollInv(s: State, t: ThreadId, giveUp: bool)
    requires Inv(s) && t < |s.threads| && s.threads[t].pc.AtPoll?
    ensures Inv(RunPoll(s, t, giveUp))
  {
    var u, l, n := RunPoll(s, t, giveUp), s.threads[t].pc.l, s.threads[t].home;
    assert CellInv(s, l, n) && ThreadInv(s, t);
    NoWrite(s, l, n);
    assert Shaped(u);
    ThreadKeepsInv(s, u, t, l);
  }

  lemma RunClearInv(s: State, t: ThreadId, giveUp: bool)
    requires Inv(s) && t < |s.threads| && (s.threads[t].pc.AtCancel? || s.threads[t].pc.AtRelease?)
    ensures Inv(RunThread(s, t, giveUp))
  {
    var u, l, n := RunThread(s, t, giveUp), s.threads[t].pc.l, s.threads[t].home;
    assert CellInv(s, l, n) && ThreadInv(s, t);
    NoWrite(s, l, n);
    assert Shaped(u);
    ThreadKeepsInv(s, u, t, l);
  }

  lemma RunUnlockInv(s: State, t: ThreadId, giveUp: bool)
    requires Inv(s) && t < |s.threads| && s.threads[t].pc.AtUnlock?
    ensures Inv(RunThread(s, t, giveUp))
  {
    var u, l, n := RunThread(s, t, giveUp), s.threads[t].pc.l, s.threads[t].home;
    assert CellInv(s, l, n) && ThreadInv(s, t);
    NoWrite(s, l, n);
    assert Shaped(u);
    ThreadKeepsInv(s, u, t, l);
  }

  lemma RunInv(s: State, t: ThreadId, giveUp: bool)
    requires Inv(s) && Enabled(s, Run(t, giveUp))
    ensures Inv(RunThread(s, t, giveUp))
  {
    match s.threads[t].pc {
      case AtMutex(_, _, _) => RunMutexInv(s, t);
      case AtRequest(_, _) => RunRequestInv(s, t, giveUp);
      case AtPoll(_, _, _) => RunPollInv(s, t, giveUp);
      case AtUnlock(_, _) => RunUnlockInv(s, t, giveUp);
      case AtCancel(_, _) => RunClearInv(s, t, giveUp);
      case AtRelease(_) => RunClearInv(s, t, giveUp);
    }
  }

  /** Slots, mutexes and threads stay as they are. */
  lemma BookkeepingInv(s: State, u: State)
    requires Inv(s) && Shaped(u)
    requires u == s.(mgr := u.mgr, anyWork := u.anyWork, stats := u.stats, wasReset := u.wasReset)
    requires ScanInv(u)
    ensures Inv(u)
  {
    forall k, i | 0 <= k < Locks(u) && 0 <= i < Nodes(u) ensures CellInv(u, k, i) {
      assert CellInv(s, k, i);
    }
    forall x | 0 <= x < |u.threads| ensures ThreadInv(u, x) {
      assert ThreadInv(s, x);
    }
    forall k | 0 <= k < Locks(u) ensures OneLocked(u, k) && Accounted(u, k) {
      assert OneLocked(s, k) && Accounted(s, k);
      assert forall i :: 0 <= i < Nodes(s) ==> IsLocked(u, k, i) == IsLocked(s, k, i);
    }
  }

  lemma GrantInv(s: State)
    requires Inv(s) && s.mgr.Exchange? && s.slots[s.mgr.l][s.mgr.i] == SlotWaiting
    ensures Inv(ManagerAccess(s))
  {
    var u, l, n := ManagerAccess(s), s.mgr.l, s.mgr.i;
    assert Shaped(u);
    forall k, i | 0 <= k < Locks(u) && 0 <= i < Nodes(u) ensures CellInv(u, k, i) {
      assert CellInv(s, k, i);
    }
    forall x | 0 <= x < |u.threads| ensures ThreadInv(u, x) {
      assert ThreadInv(s, x);
    }
    forall k | 0 <= k < Locks(u) ensures OneLocked(u, k) && Accounted(u, k) {
      assert OneLocked(s, k) && Accounted(s, k);
      GrantLocksOne(s, u, l, n, k);
    }
  }

  lemma ManagerInv(s: State)
    requires Inv(s) && s.mgr != Between
    ensures Inv(ManagerAccess(s))
  {
    if s.mgr.Exchange? && s.slots[s.mgr.l][s.mgr.i] == SlotWaiting {
      GrantInv(s);
    } else {
      var u := ManagerAccess(s);
      assert Shaped(u);
      if s.mgr.FirstPass? || s.mgr.SecondPass? {
        assert forall i :: 0 <= i < Nodes(s) ==> IsLocked(u, s.mgr.l, i) == IsLocked(s, s.mgr.l, i);
      }
      BookkeepingInv(s, u);
    }
  }

  lemma CallInv(s: State, t: ThreadId, l: LockId, timed: bool, blocking: bool)
    requires Inv(s) && Enabled(s, Call(t, l, timed, blocking))
    ensures Inv(Apply(s, Call(t, l, timed, blocking)))
  {
    var u, k, n := Apply(s, Call(t, l, timed, blocking)), if l < Locks(s) then l else 0, s.threads[t].home;
    assert ThreadInv(s, t) && CellInv(s, k, n);
    NoWrite(s, k, n);
    assert Shaped(u);
    ThreadKeepsInv(s, u, t, k);
  }

  lemma BeginReleaseInv(s: State, t: ThreadId, l: LockId)
    requires Inv(s) && Enabled(s, BeginRelease(t, l))
    ensures Inv(Apply(s, BeginRelease(t, l)))
  {
    var u, n := Apply(s, BeginRelease(t, l)), s.threads[t].home;
    assert ThreadInv(s, t) && CellInv(s, l, n);
    NoWrite(s, l, n);
    assert Shaped(u);
    ThreadKeepsInv(s, u, t, l);
  }

  /** Every step of every participant keeps the invariant. */
  lemma StepInv(s: State, st: Step)
    requires Inv(s) && Enabled(s, st)
    ensures Inv(Apply(s, st))
  {
    ApplyShaped(s, st);
    match st {
      case Call(t, l, timed, blocking) => CallInv(s, t, l, timed, blocking);
      case Run(t, giveUp) => RunInv(s, t, giveUp);
      case BeginRelease(t, l) => BeginReleaseInv(s, t, l);
      case Manage => ManagerInv(s);
      case BeginScan => BookkeepingInv(s, Apply(s, st));
      case ResetStats =>
        if s.mgr.FirstPass? || s.mgr.SecondPass? || s.mgr.Exchange? {
          assert forall i :: 0 <= i < Nodes(s) ==> IsLocked(Apply(s, st), s.mgr.l, i) == IsLocked(s, s.mgr.l, i);
        }
        BookkeepingInv(s, Apply(s, st));
    }
  }
}
