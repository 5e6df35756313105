/** A run in which a late wake-up lets two nodes into their critical sections. */
module McsLateWake {
  import opened LockTypes
  import opened McsProtocol
  import opened McsInvariant
  import opened McsPreservation
  import opened McsMirror
  import opened McsCalm
  import opened McsRaces
  import opened McsWitnesses

  /** A calm run whose only races are the owner checks of waiters that give up. */
  predicate CancelRun(s: State, run: seq<Step>, t: State)
    requires Shaped(s)
    decreases run
  {
    if run == [] then s == t
    else
      && Enabled(s, run[0]) && Calm(s, run[0]) && (Races(s, run[0]) ==> s.pc[run[0].n].CheckCancel?)
      && (ApplyShaped(s, run[0]); CancelRun(Apply(s, run[0]), run[1..], t))
  }

  lemma {:induction false} ExtendCancel(s: State, run: seq<Step>, t: State, st: Step)
    requires Shaped(s) && Shaped(t) && CancelRun(s, run, t) && Enabled(t, st) && Calm(t,
        st) && (Races(t, st) ==> t.pc[st.n].CheckCancel?)
    ensures Shaped(Apply(t, st)) && CancelRun(s, run + [st], Apply(t, st))
    decreases run
  {
    ApplyShaped(t, st);
    if run == [] {
      assert [st][1..] == [] && [] + [st] == [st];
    } else {
      ApplyShaped(s, run[0]);
      ExtendCancel(Apply(s, run[0]), run[1..], t, st);
      assert (run + [st])[0] == run[0] && (run + [st])[1..] == run[1..] + [st];
    }
  }

  lemma {:induction false} RaceFreeIsCancelRun(s: State, run: seq<Step>, t: State)
    requires Inv(s) && RaceFreeRun(s, run, t)
    ensures CancelRun(s, run, t)
    decreases run
  {
    if run != [] {
      RaceFreeStepIsCalm(s, run[0]);
      StepInv(s, run[0]);
      RaceFreeIsCancelRun(Apply(s, run[0]), run[1..], t);
    }
  }

  /** Such a run of three nodes and one lock leads to the state. */
  ghost predicate CanReach(t: State)
  {
    Shaped(t) && exists run: seq<Step> :: CancelRun(InitState(3, 1), run, t)
  }

  /** The run goes on by `st` to the state `u`. */
  lemma GoesOn(t: State, st: Step, u: State)
    requires CanReach(t) && Enabled(t, st) && Calm(t, st) && Same(Apply(t, st), u)
    requires Races(t, st) ==> t.pc[st.n].CheckCancel?
    ensures CanReach(u)
  {
    var run: seq<Step> :| CancelRun(InitState(3, 1), run, t);
    ExtendCancel(InitState(3, 1), run, t, st);
    assert Apply(t, st) == u;
  }

  /** The next access of the node can neither race nor come too late. */
  predicate Plain(p: Pc)
  {
    p.Swap? || p.Reload? || p.LinkPred? || p.Waiting? || p.PollLock? || p.ReadNext? || p.DropTail?
    || p.ClearHead? || p.ClearOwner? || p.ResetNext? || p.ResetLocked? || p.ResetWaiting?
  }

  lemma Moves(t: State, n: NodeId, u: State)
    requires CanReach(t) && n < |t.pc| && Plain(t.pc[n]) && Same(NodeAccess(t, n), u)
    ensures CanReach(u)
  {
    GoesOn(t, Access(n), u);
  }

  /** Node 1 gives lock 0 up, and node 0 has not woken it. */
  function Giving(e: McsLockEntry, locked: nat, p1: Pc, q: seq<NodeId>, releases: nat): State
  {
    State([e], [McsNode(1, 2, 0), McsNode(NIL, locked, 0), NEW], [Wake(0, 1), p1, Idle], Between,
          [q], [[0, 1]], [[0, 1]], [releases])
  }

  /** Node 1 is out, and node 2 takes the lock. */
  function Entering(e: McsLockEntry, n2: McsNode, p2: Pc, m: ManagerPc,
                    q: seq<NodeId>, swaps: seq<NodeId>, owners: seq<NodeId>): State
  {
    State([e], [McsNode(1, 2, 0), McsNode(NIL, 0, INVALID_LOCK_ID), n2], [Wake(0, 1), Idle, p2], m,
          [q], [swaps], [owners], [2])
  }

  /** Node 2 holds the lock, and node 1 asks again. */
  function Returning(tail: NodeId, locked: nat, next: NodeId, p0: Pc, p1: Pc, q: seq<NodeId>,
      swaps: seq<NodeId>): State
  {
    State([McsLockEntry(tail, 2, 2)], [McsNode(1, 2, 0), McsNode(NIL, locked, 0), McsNode(next, 2, 0)],
          [p0, p1, Holding(0)], Between, [q], [swaps], [[0, 1, 2]], [2])
  }

  lemma RaceIsReached()
    ensures CanReach(HandedOver(CheckCancel(0)))
  {
    var run, s := SomeRunCancelsTooEarly();
    InitInv(3, 1);
    RaceFreeIsCancelRun(InitState(3, 1), run, s);
  }

  lemma NodeOneCancels()
    ensures CanReach(Giving(McsLockEntry(1, 1, 1), 1, ReadNext(0), [1], 1))
  {
    RaceIsReached();
    GoesOn(HandedOver(CheckCancel(0)), Access(1), Giving(McsLockEntry(1, 1, 1), 1, ReadNext(0), [1], 1));
  }

  lemma NodeOneSeesNobody()
    ensures CanReach(Giving(McsLockEntry(1, 1, 1), 1, DropTail(0), [1], 1))
  {
    NodeOneCancels();
    var s0 := Giving(McsLockEntry(1, 1, 1), 1, ReadNext(0), [1], 1);
    Moves(s0, 1, Giving(McsLockEntry(1, 1, 1), 1, DropTail(0), [1], 1));
  }

  lemma NodeOneDropsTail()
    ensures CanReach(Giving(McsLockEntry(NIL, 1, 1), 1, ClearHead(0), [], 2))
  {
    NodeOneSeesNobody();
    assert [1][1..] == [];
    var s0 := Giving(McsLockEntry(1, 1, 1), 1, DropTail(0), [1], 1);
    var s1 := Giving(McsLockEntry(NIL, 1, 1), 1, ClearHead(0), [], 2);
    Moves(s0, 1, s1);
  }

  lemma NodeOneClearsHead()
    ensures CanReach(Giving(McsLockEntry(NIL, NIL, 1), 1, ClearOwner(0), [], 2))
  {
    NodeOneDropsTail();
    var s0 := Giving(McsLockEntry(NIL, 1, 1), 1, ClearHead(0), [], 2);
    Moves(s0, 1, Giving(McsLockEntry(NIL, NIL, 1), 1, ClearOwner(0), [], 2));
  }

  lemma NodeOneEmpties()
    ensures CanReach(Giving(FREE, 1, ResetNext, [], 2))
  {
    NodeOneClearsHead();
    var s0 := Giving(McsLockEntry(NIL, NIL, 1), 1, ClearOwner(0), [], 2);
    Moves(s0, 1, Giving(FREE, 1, ResetNext, [], 2));
  }

  lemma NodeOneClearsNext()
    ensures CanReach(Giving(FREE, 1, ResetLocked, [], 2))
  {
    NodeOneEmpties();
    var s0 := Giving(FREE, 1, ResetNext, [], 2);
    var s1 := Giving(FREE, 1, ResetLocked, [], 2);
    Moves(s0, 1, s1);
  }

  lemma NodeOneResets()
    ensures CanReach(Giving(FREE, 0, ResetWaiting, [], 2))
  {
    NodeOneClearsNext();
    var s0 := Giving(FREE, 1, ResetLocked, [], 2);
    var s1 := Giving(FREE, 0, ResetWaiting, [], 2);
    Moves(s0, 1, s1);
  }

  lemma NodeOneIsOut()
    ensures CanReach(Entering(FREE, NEW, Idle, Between, [], [0, 1], [0, 1]))
  {
    NodeOneResets();
    var s0 := Giving(FREE, 0, ResetWaiting, [], 2);
    var s1 := Entering(FREE, NEW, Idle, Between, [], [0, 1], [0, 1]);
    Moves(s0, 1, s1);
  }

  lemma NodeTwoSwaps()
    ensures CanReach(Entering(McsLockEntry(2, NIL, NIL), McsNode(NIL, 1, 0), SetHead(0), Between,
                              [2], [0, 1, 2], [0, 1]))
  {
    NodeOneIsOut();
    assert [] + [2] == [2] && [0, 1] + [2] == [0, 1, 2];
    var s0 := Entering(FREE, NEW, Idle, Between, [], [0, 1], [0, 1]);
    var s1 := Entering(FREE, McsNode(NIL, 1, 0), Swap(0, NIL), Between, [], [0, 1], [0, 1]);
    GoesOn(s0, Acquire(2, 0), s1);
    Moves(s1, 2, Entering(McsLockEntry(2, NIL, NIL), McsNode(NIL, 1, 0), SetHead(0), Between, [2], [0, 1, 2], [0, 1]));
  }

  lemma NodeTwoQueues()
    ensures CanReach(Entering(McsLockEntry(2, 2, NIL), McsNode(NIL, 1, 0), Waiting(0), Between, [2], [0, 1, 2], [0, 1]))
  {
    NodeTwoSwaps();
    var s0 := Entering(McsLockEntry(2, NIL, NIL), McsNode(NIL, 1, 0), SetHead(0), Between, [2], [0, 1, 2], [0, 1]);
    var s1 := Entering(McsLockEntry(2, 2, NIL), McsNode(NIL, 1, 0), Waiting(0), Between, [2], [0, 1, 2], [0, 1]);
    GoesOn(s0, Access(2), s1);
  }

  lemma ManagerChecksNodeTwo()
    ensures CanReach(Entering(McsLockEntry(2, 2, NIL), McsNode(NIL, 1, 0), Waiting(0), StoreLocked(0, 2), [2],
                              [0, 1, 2], [0, 1]))
  {
    NodeTwoQueues();
    var s0 := Entering(McsLockEntry(2, 2, NIL), McsNode(NIL, 1, 0), Waiting(0), Between, [2], [0, 1, 2], [0, 1]);
    var s1 := Entering(McsLockEntry(2, 2, NIL), McsNode(NIL, 1, 0), Waiting(0), LoadHead(0), [2], [0, 1, 2], [0, 1]);
    GoesOn(s0, Check(0), s1);
    var s2 := Entering(McsLockEntry(2, 2, NIL), McsNode(NIL, 1, 0), Waiting(0), LoadLocked(0, 2), [2],
        [0, 1, 2], [0, 1]);
    GoesOn(s1, Manage, s2);
    var s3 := Entering(McsLockEntry(2, 2, NIL), McsNode(NIL, 1, 0), Waiting(0), LoadWaiting(0, 2, 1), [2],
        [0, 1, 2], [0, 1]);
    GoesOn(s2, Manage, s3);
    var s4 := Entering(McsLockEntry(2, 2, NIL), McsNode(NIL, 1, 0), Waiting(0), StoreLocked(0, 2), [2],
        [0, 1, 2], [0, 1]);
    GoesOn(s3, Manage, s4);
  }

  lemma ManagerGrantsNodeTwo()
    ensures CanReach(Entering(McsLockEntry(2, 2, 2), McsNode(NIL, 2, 0), Waiting(0), Between, [2],
                              [0, 1, 2], [0, 1, 2]))
  {
    ManagerChecksNodeTwo();
    assert [0, 1] + [2] == [0, 1, 2];
    var s0 := Entering(McsLockEntry(2, 2, NIL), McsNode(NIL, 1, 0), Waiting(0), StoreLocked(0, 2), [2],
        [0, 1, 2], [0, 1]);
    var s1 := Entering(McsLockEntry(2, 2, NIL), McsNode(NIL, 2, 0), Waiting(0), StoreOwner(0, 2), [2],
        [0, 1, 2], [0, 1, 2]);
    GoesOn(s0, Manage, s1);
    var s2 := Entering(McsLockEntry(2, 2, 2), McsNode(NIL, 2, 0), Waiting(0), Between, [2], [0, 1, 2], [0, 1, 2]);
    GoesOn(s1, Manage, s2);
  }

  lemma NodeTwoHolds()
    ensures CanReach(Entering(McsLockEntry(2, 2, 2), McsNode(NIL, 2, 0), Holding(0), Between, [2],
                              [0, 1, 2], [0, 1, 2]))
  {
    ManagerGrantsNodeTwo();
    var s0 := Entering(McsLockEntry(2, 2, 2), McsNode(NIL, 2, 0), Waiting(0), Between, [2], [0, 1, 2], [0, 1, 2]);
    var s1 := Entering(McsLockEntry(2, 2, 2), McsNode(NIL, 2, 0), PollLock(0, 2), Between, [2], [0, 1, 2], [0, 1, 2]);
    Moves(s0, 2, s1);
    var s2 := Entering(McsLockEntry(2, 2, 2), McsNode(NIL, 2, 0), Holding(0), Between, [2], [0, 1, 2], [0, 1, 2]);
    Moves(s1, 2, s2);
  }

  lemma NodeOneComesBack()
    ensures CanReach(Returning(2, 1, NIL, Wake(0, 1), Swap(0, 2), [2], [0, 1, 2]))
  {
    NodeTwoHolds();
    var s0 := Entering(McsLockEntry(2, 2, 2), McsNode(NIL, 2, 0), Holding(0), Between, [2], [0, 1, 2], [0, 1, 2]);
    var s1 := Returning(2, 1, NIL, Wake(0, 1), Swap(0, NIL), [2], [0, 1, 2]);
    GoesOn(s0, Acquire(1, 0), s1);
    var s2 := Returning(2, 1, NIL, Wake(0, 1), Reload(0), [2], [0, 1, 2]);
    Moves(s1, 1, s2);
    var s3 := Returning(2, 1, NIL, Wake(0, 1), Swap(0, 2), [2], [0, 1, 2]);
    Moves(s2, 1, s3);
  }

  lemma NodeOneQueuesAgain()
    ensures CanReach(Returning(1, 1, 1, Wake(0, 1), Waiting(0), [2, 1], [0, 1, 2, 1]))
  {
    NodeOneComesBack();
    assert [2] + [1] == [2, 1] && [0, 1, 2] + [1] == [0, 1, 2, 1];
    var s0 := Returning(2, 1, NIL, Wake(0, 1), Swap(0, 2), [2], [0, 1, 2]);
    var s1 := Returning(1, 1, NIL, Wake(0, 1), LinkPred(0, 2), [2, 1], [0, 1, 2, 1]);
    Moves(s0, 1, s1);
    var s2 := Returning(1, 1, 1, Wake(0, 1), Waiting(0), [2, 1], [0, 1, 2, 1]);
    Moves(s1, 1, s2);
  }

  /** The record of node 1 before and after the late wake-up, and what node 1 then does. */
  function Back(locked: nat, p0: Pc, p1: Pc): State
  {
    Returning(1, locked, 1, p0, p1, [2, 1], [0, 1, 2, 1])
  }

  lemma NodeOnePolls()
    ensures AnyRun(Back(0, ResetNext, Waiting(0)), [Access(1), Access(1)], Back(0, ResetNext, Holding(0)))
  {
    var t := Back(0, ResetNext, Holding(0));
    OneStep(Back(0, ResetNext, PollLock(0, 0)), Access(1), [], t, t);
    OneStep(Back(0, ResetNext, Waiting(0)), Access(1), [Access(1)], Back(0, ResetNext, PollLock(0, 0)), t);
    assert [Access(1)] + [] == [Access(1)] && [Access(1)] + [Access(1)] == [Access(1), Access(1)];
  }

  lemma LateWakeLands()
    ensures AnyRun(Back(1, Wake(0, 1), Waiting(0)), [Access(0), Access(1), Access(1)], Back(0, ResetNext, Holding(0)))
  {
    NodeOnePolls();
    OneStep(Back(1, Wake(0, 1), Waiting(0)), Access(0), [Access(1), Access(1)], Back(0, ResetNext, Waiting(0)),
            Back(0, ResetNext, Holding(0)));
    assert [Access(0)] + [Access(1), Access(1)] == [Access(0), Access(1), Access(1)];
  }

  /**
   A waiter that gave up before it was woken comes back behind a new holder, and the late
   wake-up lands in its record: it passes the poll beside the holder.  Nothing else of the
   run is a race.
   */
  lemma SomeRunLetsTwoNodesIn() returns (run: seq<Step>, s: State, t: State)
    ensures CancelRun(InitState(3, 1), run, s) && Shaped(s) && 0 < |s.pc| && s.pc[0].Wake? && WakesTooLate(s, Access(0))
    ensures AnyRun(s, [Access(0), Access(1), Access(1)], t) && 2 < |t.pc| && t.pc[1] == t.pc[2] == Holding(0)
  {
    NodeOneQueuesAgain();
    s, t := Back(1, Wake(0, 1), Waiting(0)), Back(0, ResetNext, Holding(0));
    run :| CancelRun(InitState(3, 1), run, s);
    LateWakeLands();
  }

  lemma OneStep(s: State, st: Step, run: seq<Step>, m: State, t: State)
    requires Shaped(s) && Enabled(s, st) && Same(Apply(s, st), m) && Shaped(m) && AnyRun(m, run, t)
    ensures AnyRun(s, [st] + run, t)
  {
    assert ([st] + run)[1..] == run && Apply(s, st) == m;
  }
}
