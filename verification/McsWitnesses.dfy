/** Each of the three races of the MCS queue lock happens in a run of three nodes and one lock. */
module McsWitnesses {
  import opened LockTypes
  import opened McsProtocol
  import opened McsTheorems

  predicate Same(a: State, b: State)
  {
    && a.entries == b.entries && a.nodes == b.nodes && a.pc == b.pc && a.mgr == b.mgr
    && a.queue == b.queue && a.swaps == b.swaps && a.owners == b.owners && a.releases == b.releases
  }

  /** The run goes on by `st` to the state `u`. */
  lemma Goes(run: seq<Step>, t: State, st: Step, u: State)
    requires RaceFreeRun(InitState(3, 1), run, t) && Enabled(t, st) && !Races(t, st) && Same(Apply(t, st), u)
    ensures RaceFreeRun(InitState(3, 1), run + [st], u)
  {
    Extend(InitState(3, 1), run, t, st);
    assert Apply(t, st) == u;
  }

  const NIL := INVALID_NODE_ID
  const NEW := McsNode(0, 0, INVALID_LOCK_ID)

  /** Node 0 is alone in the queue of lock 0. */
  function Alone(owner: NodeId, locked: nat, p: Pc, m: ManagerPc, owners: seq<NodeId>): State
  {
    State([McsLockEntry(0, 0, owner)], [McsNode(NIL, locked, 0), NEW, NEW], [p, Idle, Idle], m, [[0]], [[0]],
          [owners], [0])
  }

  lemma NodeZeroQueues() returns (run: seq<Step>)
    ensures RaceFreeRun(InitState(3, 1), run, Alone(INVALID_NODE_ID, 1, Waiting(0), Between, []))
  {
    var s0 := InitState(3, 1);
    var s1 := State([FREE], [McsNode(NIL, 1, 0), NEW, NEW], [Swap(0, NIL), Idle, Idle], Between, [[]], [[]],
        [[]], [0]);
    var s2 := State([McsLockEntry(0, NIL, NIL)], [McsNode(NIL, 1, 0), NEW, NEW], [SetHead(0), Idle, Idle],
        Between, [[0]], [[0]], [[]], [0]);
    assert [] + [0] == [0];
    Goes([], s0, Acquire(0, 0), s1);
    Goes([] + [Acquire(0, 0)], s1, Access(0), s2);
    Goes([] + [Acquire(0, 0)] + [Access(0)], s2, Access(0), Alone(NIL, 1, Waiting(0), Between, []));
    run := [] + [Acquire(0, 0)] + [Access(0)] + [Access(0)];
  }

  lemma ManagerStoresLocked() returns (run: seq<Step>)
    ensures RaceFreeRun(InitState(3, 1), run, Alone(INVALID_NODE_ID, 2, Waiting(0), StoreOwner(0, 0), [0]))
  {
    run := NodeZeroQueues();
    assert [] + [0] == [0];
    Goes(run, Alone(NIL, 1, Waiting(0), Between, []), Check(0), Alone(NIL, 1, Waiting(0), LoadHead(0), []));
    run := run + [Check(0)];
    Goes(run, Alone(NIL, 1, Waiting(0), LoadHead(0), []), Manage, Alone(NIL, 1, Waiting(0), LoadLocked(0, 0), []));
    run := run + [Manage];
    Goes(run, Alone(NIL, 1, Waiting(0), LoadLocked(0, 0), []), Manage,
         Alone(NIL, 1, Waiting(0), LoadWaiting(0, 0, 1), []));
    run := run + [Manage];
    Goes(run, Alone(NIL, 1, Waiting(0), LoadWaiting(0, 0, 1), []), Manage,
         Alone(NIL, 1, Waiting(0), StoreLocked(0, 0), []));
    run := run + [Manage];
    Goes(run, Alone(NIL, 1, Waiting(0), StoreLocked(0, 0), []), Manage,
         Alone(NIL, 2, Waiting(0), StoreOwner(0, 0), [0]));
    run := run + [Manage];
  }

  /** The node sees the grant, and asks to release before the manager has stored the owner. */
  lemma SomeRunRefusesAHolder() returns (run: seq<Step>, s: State)
    ensures ReachedBy(3, 1, run, s) && 0 < |s.pc| && s.pc[0] == CheckOwner(0) && Races(s, Access(0))
  {
    run := ManagerStoresLocked();
    Goes(run, Alone(NIL, 2, Waiting(0), StoreOwner(0, 0), [0]), Access(0),
         Alone(NIL, 2, PollLock(0, 2), StoreOwner(0, 0), [0]));
    run := run + [Access(0)];
    Goes(run, Alone(NIL, 2, PollLock(0, 2), StoreOwner(0, 0), [0]), Access(0),
         Alone(NIL, 2, Holding(0), StoreOwner(0, 0), [0]));
    run := run + [Access(0)];
    s := Alone(NIL, 2, CheckOwner(0), StoreOwner(0, 0), [0]);
    Goes(run, Alone(NIL, 2, Holding(0), StoreOwner(0, 0), [0]), BeginRelease(0), s);
    run := run + [BeginRelease(0)];
  }

  lemma NodeZeroHolds() returns (run: seq<Step>)
    ensures RaceFreeRun(InitState(3, 1), run, Alone(0, 2, Holding(0), Between, [0]))
  {
    run := ManagerStoresLocked();
    Goes(run, Alone(NIL, 2, Waiting(0), StoreOwner(0, 0), [0]), Manage, Alone(0, 2, Waiting(0), Between, [0]));
    run := run + [Manage];
    Goes(run, Alone(0, 2, Waiting(0), Between, [0]), Access(0), Alone(0, 2, PollLock(0, 2), Between, [0]));
    run := run + [Access(0)];
    Goes(run, Alone(0, 2, PollLock(0, 2), Between, [0]), Access(0), Alone(0, 2, Holding(0), Between, [0]));
    run := run + [Access(0)];
  }

  /** Node 0 has emptied the queue of lock 0 and is about to clear the head. */
  function Emptied(tail: NodeId, nd: McsNode, p: Pc, q: seq<NodeId>, swaps: seq<NodeId>): State
  {
    State([McsLockEntry(tail, 0, 0)], [McsNode(NIL, 2, 0), nd, NEW], [ClearHead(0), p, Idle], Between, [q],
          [swaps], [[0]], [1])
  }

  lemma NodeZeroLeaves() returns (run: seq<Step>)
    ensures RaceFreeRun(InitState(3, 1), run, Alone(0, 2, ReadNext(0), Between, [0]))
  {
    run := NodeZeroHolds();
    Goes(run, Alone(0, 2, Holding(0), Between, [0]), BeginRelease(0), Alone(0, 2, CheckOwner(0), Between, [0]));
    run := run + [BeginRelease(0)];
    Goes(run, Alone(0, 2, CheckOwner(0), Between, [0]), Access(0), Alone(0, 2, ReadNext(0), Between, [0]));
    run := run + [Access(0)];
  }

  lemma NodeZeroEmpties() returns (run: seq<Step>)
    ensures RaceFreeRun(InitState(3, 1), run, Emptied(INVALID_NODE_ID, NEW, Idle, [], [0]))
  {
    run := NodeZeroLeaves();
    assert [0][1..] == [];
    Goes(run, Alone(0, 2, ReadNext(0), Between, [0]), Access(0), Alone(0, 2, DropTail(0), Between, [0]));
    run := run + [Access(0)];
    Goes(run, Alone(0, 2, DropTail(0), Between, [0]), Access(0), Emptied(INVALID_NODE_ID, NEW, Idle, [], [0]));
    run := run + [Access(0)];
  }

  /** A newcomer swaps itself in before the last holder has cleared the head. */
  lemma SomeRunLosesTheHead() returns (run: seq<Step>, s: State)
    ensures ReachedBy(3, 1, run, s) && 1 < |s.pc| && s.pc[1] == SetHead(0) && Races(s, Access(1))
  {
    run := NodeZeroEmpties();
    var nd := McsNode(NIL, 1, 0);
    assert [] + [1] == [1] && [0] + [1] == [0, 1];
    Goes(run, Emptied(NIL, NEW, Idle, [], [0]), Acquire(1, 0), Emptied(NIL, nd, Swap(0, NIL), [], [0]));
    run := run + [Acquire(1, 0)];
    s := Emptied(1, nd, SetHead(0), [1], [0, 1]);
    Goes(run, Emptied(NIL, nd, Swap(0, NIL), [], [0]), Access(1), s);
    run := run + [Access(1)];
  }

  /** Node 1 stands behind node 0, which holds. */
  function Behind(tail: NodeId, next: NodeId, p: Pc, p1: Pc, q: seq<NodeId>): State
  {
    State([McsLockEntry(tail, 0, 0)], [McsNode(next, 2, 0), McsNode(NIL, 1, 0), NEW], [p, p1, Idle], Between,
          [q], [q], [[0]], [0])
  }

  lemma NodeOneRetries() returns (run: seq<Step>)
    ensures RaceFreeRun(InitState(3, 1), run, Behind(0, INVALID_NODE_ID, Holding(0), Swap(0, 0), [0]))
  {
    run := NodeZeroHolds();
    Goes(run, Alone(0, 2, Holding(0), Between, [0]), Acquire(1, 0), Behind(0, NIL, Holding(0), Swap(0, NIL), [0]));
    run := run + [Acquire(1, 0)];
    Goes(run, Behind(0, NIL, Holding(0), Swap(0, NIL), [0]), Access(1), Behind(0, NIL, Holding(0), Reload(0), [0]));
    run := run + [Access(1)];
    Goes(run, Behind(0, NIL, Holding(0), Reload(0), [0]), Access(1), Behind(0, NIL, Holding(0), Swap(0, 0), [0]));
    run := run + [Access(1)];
  }

  lemma NodeOneQueues() returns (run: seq<Step>)
    ensures RaceFreeRun(InitState(3, 1), run, Behind(1, 1, Holding(0), Waiting(0), [0, 1]))
  {
    run := NodeOneRetries();
    assert [0] + [1] == [0, 1];
    Goes(run, Behind(0, NIL, Holding(0), Swap(0, 0), [0]), Access(1),
         Behind(1, NIL, Holding(0), LinkPred(0, 0), [0, 1]));
    run := run + [Access(1)];
    Goes(run, Behind(1, NIL, Holding(0), LinkPred(0, 0), [0, 1]), Access(1),
         Behind(1, 1, Holding(0), Waiting(0), [0, 1]));
    run := run + [Access(1)];
  }

  lemma NodeZeroPassesOn() returns (run: seq<Step>)
    ensures RaceFreeRun(InitState(3, 1), run, Behind(1, 1, PassHead(0, 1), Waiting(0), [0, 1]))
  {
    run := NodeOneQueues();
    Goes(run, Behind(1, 1, Holding(0), Waiting(0), [0, 1]), BeginRelease(0),
         Behind(1, 1, CheckOwner(0), Waiting(0), [0, 1]));
    run := run + [BeginRelease(0)];
    Goes(run, Behind(1, 1, CheckOwner(0), Waiting(0), [0, 1]), Access(0),
         Behind(1, 1, ReadNext(0), Waiting(0), [0, 1]));
    run := run + [Access(0)];
    Goes(run, Behind(1, 1, ReadNext(0), Waiting(0), [0, 1]), Access(0),
         Behind(1, 1, PassHead(0, 1), Waiting(0), [0, 1]));
    run := run + [Access(0)];
  }

  /** Node 1 is the owner, and node 0 is about to wake it. */
  function HandedOver(p1: Pc): State
  {
    State([McsLockEntry(1, 1, 1)], [McsNode(1, 2, 0), McsNode(NIL, 1, 0), NEW], [Wake(0, 1), p1, Idle], Between,
          [[1]], [[0, 1]], [[0, 1]], [1])
  }

  lemma NodeZeroHandsOver() returns (run: seq<Step>)
    ensures RaceFreeRun(InitState(3, 1), run, HandedOver(Waiting(0)))
  {
    run := NodeZeroPassesOn();
    var nodes := [McsNode(1, 2, 0), McsNode(NIL, 1, 0), NEW];
    var s1 := State([McsLockEntry(1, 1, 0)], nodes, [PassOwner(0, 1), Waiting(0), Idle], Between, [[0, 1]],
        [[0, 1]], [[0]], [0]);
    assert [0, 1][1..] == [1] && [0] + [1] == [0, 1];
    Goes(run, Behind(1, 1, PassHead(0, 1), Waiting(0), [0, 1]), Access(0), s1);
    run := run + [Access(0)];
    Goes(run, s1, Access(0), HandedOver(Waiting(0)));
    run := run + [Access(0)];
  }

  /** A waiter gives up after it has become the owner and before it is woken. */
  lemma SomeRunCancelsTooEarly() returns (run: seq<Step>, s: State)
    ensures ReachedBy(3, 1, run, s) && 1 < |s.pc| && s.pc[1] == CheckCancel(0) && Races(s, Access(1))
    ensures s == HandedOver(CheckCancel(0))
  {
    run := NodeZeroHandsOver();
    s := HandedOver(CheckCancel(0));
    Goes(run, HandedOver(Waiting(0)), BeginCancel(1), s);
    run := run + [BeginCancel(1)];
  }
}
