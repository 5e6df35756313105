/**
 Calls of the MCS queue lock in the company of others.  A schedule lists the steps of the
 other participants before each access of a call; a call is a number of turns.  What a
 call does alone is worked out here, on states.
 */
module McsTurns {
  import opened LockTypes
  import opened McsProtocol
  import opened McsInvariant
  import opened McsPreservation
  import opened McsTheorems

  /**
   How a call ends: it returns; its next access would be one of the races, which the
   methods do not carry out; or the schedule ends while the call still spins.
   */
  datatype Outcome = Returned(result: LockResult) | AtRace | StillSpinning

  // ------------------------------------------------------------------------------------
  // Schedules
  // ------------------------------------------------------------------------------------

  type Schedule = seq<seq<Step>>

  /** What the steps `steps` of the others lead to; a step is skipped if it is `me`'s, or not possible, or a race. */
  function AfterOthers(s: State, me: Option<NodeId>, steps: seq<Step>): State
    decreases steps
  {
    if steps == [] then s
    else if Shaped(s) && Enabled(s, steps[0]) && !Races(s, steps[0]) && !By(steps[0], me) then
      AfterOthers(Apply(s, steps[0]), me, steps[1..])
    else AfterOthers(s, me, steps[1..])
  }

  /** Whatever the others can do without a race, some schedule lets them do. */
  lemma {:induction false} OthersAreFree(s: State, run: seq<Step>, t: State, me: Option<NodeId>)
    requires Shaped(s) && RaceFreeRun(s, run, t) && forall i :: 0 <= i < |run| ==> !By(run[i], me)
    ensures AfterOthers(s, me, run) == t
    decreases run
  {
    if run != [] {
      ApplyShaped(s, run[0]);
      OthersAreFree(Apply(s, run[0]), run[1..], t, me);
    }
  }

  lemma {:induction false} AfterOneMore(s: State, me: Option<NodeId>, steps: seq<Step>, st: Step)
    ensures AfterOthers(s, me, steps + [st])
            == var t := AfterOthers(s, me, steps);
               if Shaped(t) && Enabled(t, st) && !Races(t, st) && !By(st, me) then Apply(t, st) else t
    decreases steps
  {
    if steps == [] {
      assert [] + [st] == [st] && [st][1..] == [];
    } else {
      assert (steps + [st])[0] == steps[0] && (steps + [st])[1..] == steps[1..] + [st];
      if Shaped(s) && Enabled(s, steps[0]) && !Races(s, steps[0]) && !By(steps[0], me) {
        AfterOneMore(Apply(s, steps[0]), me, steps[1..], st);
      } else {
        AfterOneMore(s, me, steps[1..], st);
      }
    }
  }

  function Head(schedule: Schedule): seq<Step>
  {
    if schedule == [] then [] else schedule[0]
  }

  function Drop(schedule: Schedule, k: nat): Schedule
  {
    if k <= |schedule| then schedule[k..] else []
  }

  /** The next access of `me` within a call. */
  function Own(me: Option<NodeId>): Step
  {
    if me.Some? then Access(me.value) else Manage
  }

  /** One turn of `me`: the others run, and then it makes its access, unless that would race. */
  function AfterTurn(s: State, me: Option<NodeId>, schedule: Schedule): State
  {
    var t := AfterOthers(s, me, Head(schedule));
    if Shaped(t) && Enabled(t, Own(me)) && !Races(t, Own(me)) then Apply(t, Own(me)) else t
  }

  function AfterTurns(s: State, me: Option<NodeId>, schedule: Schedule, k: nat): State
    decreases k
  {
    if k == 0 then s else AfterTurns(AfterTurn(s, me, schedule), me, Drop(schedule, 1), k - 1)
  }

  lemma NoTurns(s: State, me: Option<NodeId>, schedule: Schedule)
    ensures AfterTurns(s, me, schedule, 0) == s && Drop(schedule, 0) == schedule
  {
  }

  /** A turn that may come upon a race. */
  lemma TurnOrRace(s: State, n: NodeId, schedule: Schedule, t: State)
    requires t == AfterOthers(s, Some(n), Head(schedule)) && Shaped(t) && Enabled(t, Access(n))
    ensures AfterTurns(s, Some(n), schedule, 1) == if Races(t, Access(n)) then t else NodeAccess(t, n)
  {
  }

  lemma DropsAdd(schedule: Schedule, i: nat, j: nat)
    ensures Drop(schedule, i + j) == Drop(Drop(schedule, i), j)
  {
  }

  lemma {:induction false} TurnsAdd(s: State, me: Option<NodeId>, schedule: Schedule, i: nat, j: nat)
    ensures AfterTurns(s, me, schedule, i + j) == AfterTurns(AfterTurns(s, me, schedule, i), me, Drop(schedule, i), j)
    ensures Drop(schedule, i + j) == Drop(Drop(schedule, i), j)
    decreases i
  {
    hide AfterTurn;
    DropsAdd(schedule, i, j);
    if i == 0 {
      assert Drop(schedule, 0) == schedule;
    } else {
      var t, rest := AfterTurn(s, me, schedule), Drop(schedule, 1);
      TurnsAdd(t, me, rest, i - 1, j);
      DropsAdd(schedule, 1, i - 1);
      assert AfterTurns(s, me, schedule, i) == AfterTurns(t, me, rest, i - 1);
    }
  }

  /** The record of a node after a release. */
  const CLEARED := McsNode(INVALID_NODE_ID, 0, INVALID_LOCK_ID)

  /** The step belongs to node `me`, or to the manager if `me` is none. */
  predicate By(st: Step, me: Option<NodeId>)
  {
    match st
    case Acquire(n, _) => me == Some(n)
    case Access(n) => me == Some(n)
    case BeginRelease(n) => me == Some(n)
    case BeginCancel(n) => me == Some(n)
    case Check(_) => me == None
    case Manage => me == None
  }

  /** One more step at the end of a run. */
  lemma Take(s: State, run: seq<Step>, t: State, st: Step)
    requires Shaped(s) && RaceFreeRun(s, run, t) && Inv(t) && Enabled(t, st) && !Races(t, st)
    ensures Inv(Apply(t, st)) && RaceFreeRun(s, run + [st], Apply(t, st))
  {
    StepInv(t, st);
    Extend(s, run, t, st);
  }

  lemma InvIsShaped(s: State)
    requires Inv(s)
    ensures Shaped(s)
  {
  }

  lemma WakesNode(s: State, n: NodeId)
    requires Inv(s) && n < |s.pc| && s.pc[n].Wake?
    ensures s.pc[n].succ < |s.nodes|
  {
    assert NodeInv(s, n);
  }

  /** The tail of a lock is never a node that is still trying to swap itself in. */
  lemma NeverSelf(s: State, n: NodeId)
    requires Inv(s) && n < |s.pc| && s.pc[n].Reload?
    ensures s.entries[s.pc[n].l].tail != n
  {
    var l := s.pc[n].l;
    assert LockInv(s, l);
    assert forall i :: 0 <= i < |s.queue[l]| ==> InQueue(s.pc[s.queue[l][i]], l);
  }

  lemma IdleIsOut(s: State, n: NodeId, l: LockId)
    requires Inv(s) && n < |s.pc| && s.pc[n] == Idle && l < |s.entries|
    ensures l < |s.queue| && n !in s.queue[l]
  {
    assert LockInv(s, l);
    assert forall i :: 0 <= i < |s.queue[l]| ==> InQueue(s.pc[s.queue[l][i]], l);
  }

  /** Whoever neither holds nor waits for a lock is not its owner. */
  lemma OutsiderIsNotOwner(s: State, n: NodeId, l: LockId)
    requires Inv(s) && n < |s.pc| && l < |s.entries|
    requires s.pc[n].Idle? || ((s.pc[n].Waiting? || s.pc[n].Holding?) && s.pc[n].l != l)
    ensures s.entries[l].owner != n
  {
    assert LockInv(s, l);
    if s.queue[l] != [] {
      assert InQueue(s.pc[s.queue[l][0]], l);
    }
  }

  lemma WaitingIsIn(s: State, n: NodeId, l: LockId)
    requires Inv(s) && n < |s.pc| && s.pc[n] == Waiting(l)
    ensures |s.queue| == |s.entries| && |s.pc| == |s.nodes| && l < |s.queue| && n in s.queue[l]
  {
    assert NodeInv(s, n);
  }

  lemma HoldingIsHolder(s: State, n: NodeId, l: LockId)
    requires Inv(s) && n < |s.pc| && s.pc[n] == Holding(l)
    ensures l < |s.queue| && l < |s.entries| && Holder(s, l) == Some(n)
  {
    var i := Place(s, n, l);
  }

  /** The owner check of a holder that does not race finds the holder. */
  lemma HolderIsOwner(s: State, n: NodeId, l: LockId)
    requires Inv(s) && n < |s.pc| && s.pc[n] == CheckOwner(l) && !Races(s, Access(n))
    ensures l < |s.entries| && s.entries[l].owner == n
  {
    assert NodeInv(s, n);
    var i := Place(s, n, l);
  }

  lemma RefusedCancelChangesNothing(s: State, n: NodeId, l: LockId)
    requires Shaped(s) && n < |s.pc| && l < |s.entries| && s.pc[n] == Waiting(l)
    ensures var t := Apply(s, BeginCancel(n));
            Shaped(t) && Enabled(t, Access(n)) && (s.entries[l].owner != n ==> NodeAccess(t, n) == s)
  {
    ApplyShaped(s, BeginCancel(n));
    assert s.pc[n := CheckCancel(l)][n := Waiting(l)] == s.pc;
  }

  /** After the manager has stored the owner, the granted node is the holder and the recorded owner. */
  lemma GrantIsStored(s: State)
    requires Inv(s) && s.mgr.StoreOwner? && Inv(ManagerAccess(s))
    ensures var t, l, n := ManagerAccess(s), s.mgr.l, s.mgr.h;
            && l < |t.entries| && l < |t.queue| && Holder(t, l) == Some(n) && t.entries[l].owner == n
            && n < |t.nodes| && t.nodes[n].locked == 2
  {
    assert LockInv(s, s.mgr.l);
  }

  /** A step of somebody else leaves the program counter of `me` alone. */
  lemma OthersKeepMe(s: State, st: Step, me: Option<NodeId>)
    requires Shaped(s) && Enabled(s, st) && !By(st, me) && (me.Some? ==> me.value < |s.pc|)
    ensures |Apply(s, st).pc| == |s.pc|
    ensures me.Some? ==> Apply(s, st).pc[me.value] == s.pc[me.value]
    ensures me.None? ==> Apply(s, st).mgr == s.mgr
  {
    if st.Access? {
      AccessKeepsOthers(s, st.n);
    }
  }

  /** The node is in no queue. */
  predicate Outside(p: Pc)
  {
    !InQueue(p, PcLock(p))
  }

  /** The nodes that link, wake or grant store into records of nodes in a queue only. */
  lemma StoresAreInQueues(s: State, st: Step, n: NodeId)
    requires Inv(s) && Enabled(s, st) && !By(st, Some(n)) && n < |s.pc| && Outside(s.pc[n])
    ensures st.Access? && s.pc[st.n].LinkPred? ==> s.pc[st.n].pred != n
    ensures st.Access? && s.pc[st.n].Wake? ==> s.pc[st.n].succ != n
    ensures st.Manage? && s.mgr.StoreLocked? ==> s.mgr.h != n
  {
    if st.Access? && s.pc[st.n].LinkPred? {
      var l := s.pc[st.n].l;
      var i := Place(s, st.n, l);
      assert LockInv(s, l) && LinkedAt(s, l, i);
      assert InQueue(s.pc[s.queue[l][i - 1]], l);
    } else if st.Access? {
      assert NodeInv(s, st.n);
    } else if st.Manage? && s.mgr.StoreLocked? {
      assert LockInv(s, s.mgr.l);
      assert InQueue(s.pc[s.mgr.h], s.mgr.l);
    }
  }

  /** So nobody stores into the record of a node that is in no queue. */
  lemma OthersKeepRecord(s: State, st: Step, n: NodeId)
    requires Inv(s) && Enabled(s, st) && !By(st, Some(n)) && n < |s.pc| && Outside(s.pc[n])
    ensures n < |Apply(s, st).nodes| == |s.nodes| && Apply(s, st).nodes[n] == s.nodes[n]
  {
    ApplyShaped(s, st);
    StoresAreInQueues(s, st, n);
  }

  /** What the last stores of a release have cleared so far; the record that `initialize` wrote is clear, too. */
  predicate ClearedSoFar(p: Pc, r: McsNode)
  {
    && (p.ResetLocked? ==> r.next == INVALID_NODE_ID)
    && (p.ResetWaiting? ==> r.next == INVALID_NODE_ID && r.locked == 0)
    && (p.Idle? ==> r == CLEARED || r == McsNode(0, 0, INVALID_LOCK_ID))
  }

  lemma StepClears(s: State, st: Step, n: NodeId)
    requires Inv(s) && Enabled(s, st) && !Races(s, st) && n < |s.pc| && ClearedSoFar(s.pc[n], s.nodes[n])
    ensures Inv(Apply(s, st)) && n < |Apply(s, st).pc| && ClearedSoFar(Apply(s, st).pc[n], Apply(s, st).nodes[n])
  {
    StepInv(s, st);
    ApplyShaped(s, st);
    if !By(st, Some(n)) {
      OthersKeepMe(s, st, Some(n));
      if Outside(s.pc[n]) {
        OthersKeepRecord(s, st, n);
      }
    } else if st.Access? {
      OwnAccessClears(s, n);
    }
  }

  lemma OwnAccessClears(s: State, n: NodeId)
    requires Shaped(s) && Enabled(s, Access(n)) && ClearedSoFar(s.pc[n], s.nodes[n])
    ensures Shaped(NodeAccess(s, n)) && n < |NodeAccess(s, n).pc|
            && ClearedSoFar(NodeAccess(s, n).pc[n], NodeAccess(s, n).nodes[n])
  {
    AccessShaped(s, n);
  }

  lemma {:induction false} RunClears(s: State, run: seq<Step>, t: State, n: NodeId)
    requires Inv(s) && RaceFreeRun(s, run, t) && n < |s.pc| && ClearedSoFar(s.pc[n], s.nodes[n])
    ensures n < |t.pc| && |t.pc| == |t.nodes| && ClearedSoFar(t.pc[n], t.nodes[n])
    decreases run
  {
    if run != [] {
      StepClears(s, run[0], n);
      RunClears(Apply(s, run[0]), run[1..], t, n);
    }
  }

  /**
   A node outside every call has a clear record, as after initialisation or a release, and
   it stays so: none of the other participants stores into it.
   */
  lemma IdleIsClear(s: State, st: Step, n: NodeId)
    requires Reachable(s) && n < |s.pc| && s.pc[n] == Idle && Enabled(s, st) && !By(st, Some(n))
    ensures |s.pc| == |s.nodes| && (s.nodes[n] == CLEARED || s.nodes[n] == McsNode(0, 0, INVALID_LOCK_ID))
    ensures n < |Apply(s, st).nodes| && Apply(s, st).nodes[n] == s.nodes[n]
  {
    ReachableInv(s);
    var nodeCount: nat, lockCount: nat, run: seq<Step> :| ReachedBy(nodeCount, lockCount, run, s);
    InitInv(nodeCount, lockCount);
    RunClears(InitState(nodeCount, lockCount), run, s, n);
    OthersKeepRecord(s, st, n);
  }

  /** What the manager loads of the record of a head without owner. */
  lemma RecordWaits(s: State)
    requires Inv(s) && (s.mgr.LoadLocked? || s.mgr.LoadWaiting?)
    ensures var t, l, h := ManagerAccess(s), s.mgr.l, s.mgr.h;
            if s.mgr.LoadLocked? then t.mgr == LoadWaiting(l, h, 1) else t.mgr == StoreLocked(l, h) && OnTheWay(t, l, h)
  {
    ManagerGoesOn(s, s.mgr.l, s.mgr.h);
  }

  /** One more step of somebody else at the end of a run. */
  lemma OtherStep(s: State, run: seq<Step>, t: State, st: Step, me: Option<NodeId>)
    requires Shaped(s) && RaceFreeRun(s, run, t) && Inv(t) && Enabled(t, st) && !Races(t, st)
    requires !By(st, me) && (me.Some? ==> me.value < |t.pc|)
    ensures var u := Apply(t, st);
            && Inv(u) && RaceFreeRun(s, run + [st], u) && |u.pc| == |t.pc|
            && (me.None? ==> u.mgr == t.mgr)
            && (me.Some? ==> u.pc[me.value] == t.pc[me.value])
            && (me.Some? && Outside(t.pc[me.value]) ==>
                |u.nodes| == |t.nodes| && u.nodes[me.value] == t.nodes[me.value])
  {
    if me.Some? && Outside(t.pc[me.value]) {
      OthersKeepRecord(t, st, me.value);
    }
    Take(s, run, t, st);
    OthersKeepMe(t, st, me);
  }

  /** A node in the queue of `l` has said that it waits for `l`. */
  lemma WaitsForIt(s: State, n: NodeId, l: LockId)
    requires Inv(s) && n < |s.pc| && InQueue(s.pc[n], l)
    ensures n < |s.nodes| && s.nodes[n].waiting == l
  {
    var i := Place(s, n, l);
    assert LockInv(s, l);
  }

  /** If nobody owns the lock, a head that is a node is the first of the queue and has stored the head. */
  lemma HeadIsFirst(s: State, l: LockId)
    requires Inv(s) && l < |s.entries| && s.entries[l].owner == INVALID_NODE_ID && s.entries[l].head < |s.nodes|
    ensures l < |s.queue| && IsFirst(s, l, s.entries[l].head)
  {
    assert LockInv(s, l);
  }

  /** The nodes cannot take a grant that the manager is on its way to from its node. */
  lemma {:induction false} NodesKeepTheWay(s: State, run: seq<Step>, t: State, l: LockId, h: NodeId)
    requires Inv(s) && OnTheWay(s, l, h) && RaceFreeRun(s, run, t)
    requires forall i :: 0 <= i < |run| ==> !By(run[i], None)
    ensures OnTheWay(t, l, h)
    decreases run
  {
    if run != [] {
      StepInv(s, run[0]);
      NodesKeepTheFirst(s, run[0], l, h);
      NodesKeepTheWay(Apply(s, run[0]), run[1..], t, l, h);
    }
  }

  /** How often node `n` makes an access in a run. */
  ghost function Accesses(run: seq<Step>, n: NodeId): nat
  {
    multiset(run)[Access(n)]
  }

  /** The steps of others are no accesses of `n`. */
  lemma OthersDoNotCount(run: seq<Step>, run': seq<Step>, n: NodeId)
    requires run <= run' && forall i :: |run| <= i < |run'| ==> !By(run'[i], Some(n))
    ensures Accesses(run', n) == Accesses(run, n)
  {
    var others := run'[|run|..];
    assert run' == run + others;
    assert Access(n) !in others;
  }

  /** The records after an undisturbed hand-off from `n` to `succ`. */
  predicate HandedOn(s: State, t: State, n: NodeId, l: LockId, succ: NodeId)
  {
    && l < |s.entries| && n < |s.nodes| && succ < |s.nodes|
    && t.entries == s.entries[l := s.entries[l].(head := succ, owner := succ)]
    && t.nodes == s.nodes[succ := s.nodes[succ].(locked := 0)][n := CLEARED]
  }

  /** The records after an undisturbed release by the last node. */
  predicate Emptied(s: State, t: State, n: NodeId, l: LockId)
  {
    && l < |s.entries| && n < |s.nodes|
    && t.entries == s.entries[l := FREE] && t.nodes == s.nodes[n := CLEARED]
  }

  /** Undisturbed, a node makes one access in each turn. */
  lemma TurnAlone(s: State, n: NodeId, k: nat)
    requires Shaped(s) && Enabled(s, Access(n)) && !Races(s, Access(n)) && k > 0
    ensures Shaped(NodeAccess(s, n)) && n < |NodeAccess(s, n).pc|
    ensures AfterTurns(s, Some(n), [], k) == AfterTurns(NodeAccess(s, n), Some(n), [], k - 1)
    ensures k == 1 ==> AfterTurns(s, Some(n), [], k) == NodeAccess(s, n)
  {
    AccessShaped(s, n);
    assert Drop([], 1) == [];
  }

  lemma ResetWaitingAlone(s: State, n: NodeId)
    requires Shaped(s) && n < |s.pc| && s.pc[n] == ResetWaiting
    ensures var t := AfterTurns(s, Some(n), [], 1);
            t.entries == s.entries && t.nodes == s.nodes[n := s.nodes[n].(waiting := INVALID_LOCK_ID)]
  {
    TurnAlone(s, n, 1);
  }

  lemma ResetLockedAlone(s: State, n: NodeId)
    requires Shaped(s) && n < |s.pc| && s.pc[n] == ResetLocked
    ensures var t := AfterTurns(s, Some(n), [], 2);
            t.entries == s.entries && t.nodes == s.nodes[n := s.nodes[n].(locked := 0, waiting := INVALID_LOCK_ID)]
  {
    hide AfterTurn, AfterTurns;
    TurnAlone(s, n, 2);
    ResetWaitingAlone(NodeAccess(s, n), n);
  }

  lemma ResetAlone(s: State, n: NodeId)
    requires Shaped(s) && n < |s.pc| && s.pc[n] == ResetNext
    ensures var t := AfterTurns(s, Some(n), [], 3); t.entries == s.entries && t.nodes == s.nodes[n := CLEARED]
  {
    hide AfterTurn, AfterTurns;
    TurnAlone(s, n, 3);
    ResetLockedAlone(NodeAccess(s, n), n);
  }

  lemma EmptiedAlone(s: State, n: NodeId)
    requires Shaped(s) && n < |s.pc| && s.pc[n].ClearHead? && s.entries[s.pc[n].l].tail == INVALID_NODE_ID
    ensures Emptied(s, AfterTurns(s, Some(n), [], 5), n, s.pc[n].l)
  {
    hide AfterTurn, AfterTurns;
    TurnAlone(s, n, 5);
    TurnAlone(NodeAccess(s, n), n, 4);
    ResetAlone(NodeAccess(NodeAccess(s, n), n), n);
  }

  lemma WokenAlone(s: State, n: NodeId)
    requires Shaped(s) && n < |s.pc| && s.pc[n].Wake? && s.pc[n].succ < |s.nodes|
    ensures var t, succ := AfterTurns(s, Some(n), [], 4), s.pc[n].succ;
            t.entries == s.entries && t.nodes == s.nodes[succ := s.nodes[succ].(locked := 0)][n := CLEARED]
  {
    hide AfterTurn, AfterTurns;
    TurnAlone(s, n, 4);
    ResetAlone(NodeAccess(s, n), n);
  }

  lemma OwnerPassedAlone(s: State, n: NodeId)
    requires Shaped(s) && n < |s.pc| && s.pc[n].PassOwner? && s.pc[n].succ < |s.nodes|
    ensures var t, l, succ := AfterTurns(s, Some(n), [], 5), s.pc[n].l, s.pc[n].succ;
            && t.entries == s.entries[l := s.entries[l].(owner := succ)]
            && t.nodes == s.nodes[succ := s.nodes[succ].(locked := 0)][n := CLEARED]
  {
    hide AfterTurn, AfterTurns;
    TurnAlone(s, n, 5);
    WokenAlone(NodeAccess(s, n), n);
  }

  lemma HandedOnAlone(s: State, n: NodeId)
    requires Shaped(s) && n < |s.pc| && s.pc[n].PassHead? && s.pc[n].succ < |s.nodes|
    ensures HandedOn(s, AfterTurns(s, Some(n), [], 6), n, s.pc[n].l, s.pc[n].succ)
  {
    hide AfterTurn, AfterTurns;
    TurnAlone(s, n, 6);
    OwnerPassedAlone(NodeAccess(s, n), n);
  }

  predicate SameRecords(s: State, t: State)
  {
    t.entries == s.entries && t.nodes == s.nodes
  }

  /** What an undisturbed join leaves: the node is the tail, and the head or linked behind the old tail. */
  predicate JoinedAlone(s: State, t: State, n: NodeId, l: LockId)
    requires l < |s.entries| && l < |s.queue|
  {
    var e := s.entries[l];
    && t.queue == s.queue[l := s.queue[l] + [n]]
    && if e.tail == INVALID_NODE_ID then t.entries == s.entries[l := e.(tail := n, head := n)] && t.nodes == s.nodes
       else
         && t.entries == s.entries[l := e.(tail := n)]
         && e.tail < |s.nodes| && t.nodes == s.nodes[e.tail := s.nodes[e.tail].(next := n)]
  }

  lemma TailIsNode(s: State, l: LockId)
    requires Inv(s) && l < |s.entries|
    ensures s.entries[l].tail == INVALID_NODE_ID || s.entries[l].tail < |s.nodes|
  {
    assert LockInv(s, l);
  }

  /** The node has made itself the tail; everything else is as before. */
  predicate SwappedIn(s: State, t: State, n: NodeId, l: LockId)
    requires Shaped(s) && n < |s.pc| && l < |s.entries|
  {
    var e := s.entries[l];
    && t.pc == s.pc[n := if e.tail == INVALID_NODE_ID then SetHead(l) else LinkPred(l, e.tail)]
    && t.entries == s.entries[l := e.(tail := n)] && t.nodes == s.nodes && t.mgr == s.mgr
    && t.queue == s.queue[l := s.queue[l] + [n]]
  }

  function SwapTurns(e: McsLockEntry): nat
  {
    if e.tail == INVALID_NODE_ID then 1 else 3
  }

  /** Undisturbed, the retry loop exchanges an empty tail at once, and loads and exchanges another. */
  lemma SwapsAlone(s: State, n: NodeId, l: LockId)
    requires Inv(s) && n < |s.pc| && s.pc[n] == Swap(l, INVALID_NODE_ID)
    ensures var t := AfterTurns(s, Some(n), [], SwapTurns(s.entries[l])); Shaped(t) && SwappedIn(s, t, n, l)
  {
    TurnAlone(s, n, SwapTurns(s.entries[l]));
    if s.entries[l].tail != INVALID_NODE_ID {
      StepInv(s, Access(n));
      var s1 := NodeAccess(s, n);
      NeverSelf(s1, n);
      TurnAlone(s1, n, 2);
      var s2 := NodeAccess(s1, n);
      assert s2.pc == s.pc[n := Swap(l, s.entries[l].tail)];
      TurnAlone(s2, n, 1);
    }
  }

  /** Undisturbed, the node joins unless the last holder has yet to clear the head. */
  lemma JoinsAlone(s: State, n: NodeId, l: LockId)
    requires Inv(s) && n < |s.pc| && s.pc[n] == Swap(l, INVALID_NODE_ID)
    ensures var t := AfterTurns(s, Some(n), [], SwapTurns(s.entries[l]) + 1);
            n < |t.pc| &&
            if s.entries[l].tail == INVALID_NODE_ID && Departing(s, l) then t.pc[n] == SetHead(l)
            else t.pc[n] == Waiting(l) && JoinedAlone(s, t, n, l)
  {
    var k := SwapTurns(s.entries[l]);
    SwapsAlone(s, n, l);
    TailIsNode(s, l);
    TurnsAdd(s, Some(n), [], k, 1);
    var u := AfterTurns(s, Some(n), [], k);
    assert Drop([], k) == [];
    assert Departing(u, l) <==> Departing(s, l);
    JoinBehindAlone(u, n);
  }

  lemma JoinBehindAlone(s: State, n: NodeId)
    requires Shaped(s) && n < |s.pc| && (s.pc[n].SetHead? || s.pc[n].LinkPred?)
    ensures AfterTurns(s, Some(n), [], 1) == if Races(s, Access(n)) then s else NodeAccess(s, n)
  {
  }

  /** How an undisturbed release ends after the owner check, and what it leaves in the records. */
  predicate ReleasedAlone(s: State, t: State, n: NodeId, l: LockId, outcome: Outcome)
    requires n < |s.nodes| && l < |s.entries|
  {
    if s.nodes[n].next != INVALID_NODE_ID then outcome == Returned(Success) && HandedOn(s, t, n, l, s.nodes[n].next)
    else if s.entries[l].tail == n then outcome == Returned(Success) && Emptied(s, t, n, l)
    else outcome == StillSpinning && SameRecords(s, t)
  }

  /** The link of a queued node leads to a node. */
  lemma NextIsNode(s: State, n: NodeId, l: LockId)
    requires Inv(s) && n < |s.pc| && InQueue(s.pc[n], l) && s.nodes[n].next != INVALID_NODE_ID
    ensures s.nodes[n].next < |s.nodes|
  {
    var i := Place(s, n, l);
    assert LockInv(s, l);
    if i + 1 < |s.queue[l]| {
      assert LinkedAt(s, l, i + 1);
    }
  }

  lemma LinkedLeavesAlone(s: State, n: NodeId)
    requires Shaped(s) && n < |s.pc| && s.pc[n].ReadNext? && s.nodes[n].next < |s.nodes|
    ensures HandedOn(s, AfterTurns(s, Some(n), [], 7), n, s.pc[n].l, s.nodes[n].next)
  {
    hide AfterTurn, AfterTurns;
    TurnAlone(s, n, 7);
    HandedOnAlone(NodeAccess(s, n), n);
  }

  lemma LastLeavesAlone(s: State, n: NodeId)
    requires Shaped(s) && n < |s.pc| && s.pc[n].ReadNext?
    requires s.nodes[n].next == INVALID_NODE_ID && s.entries[s.pc[n].l].tail == n
    ensures Emptied(s, AfterTurns(s, Some(n), [], 7), n, s.pc[n].l)
  {
    hide AfterTurn, AfterTurns;
    TurnAlone(s, n, 7);
    var s1 := NodeAccess(s, n);
    TurnAlone(s1, n, 6);
    EmptiedAlone(NodeAccess(s1, n), n);
  }

  lemma FollowedLeavesAlone(s: State, n: NodeId)
    requires Shaped(s) && n < |s.pc| && s.pc[n].ReadNext?
    requires s.nodes[n].next == INVALID_NODE_ID && s.entries[s.pc[n].l].tail != n
    ensures SameRecords(s, AfterTurns(s, Some(n), [], 2))
  {
    hide AfterTurn, AfterTurns;
    TurnAlone(s, n, 2);
    TurnAlone(NodeAccess(s, n), n, 1);
  }

  /** Undisturbed, a release hands on or empties in seven accesses, or makes two and spins. */
  lemma LeavesAlone(s: State, n: NodeId, l: LockId)
    requires Inv(s) && n < |s.pc| && s.pc[n] == ReadNext(l)
    ensures var next, last := s.nodes[n].next, s.entries[l].tail == n;
            if next != INVALID_NODE_ID then HandedOn(s, AfterTurns(s, Some(n), [], 7), n, l, next)
            else if last then Emptied(s, AfterTurns(s, Some(n), [], 7), n, l)
            else SameRecords(s, AfterTurns(s, Some(n), [], 2))
  {
    hide AfterTurn, AfterTurns;
    if s.nodes[n].next != INVALID_NODE_ID {
      NextIsNode(s, n, l);
      LinkedLeavesAlone(s, n);
    } else if s.entries[l].tail == n {
      LastLeavesAlone(s, n);
    } else {
      FollowedLeavesAlone(s, n);
    }
  }

  lemma GrantedAlone(s: State)
    requires Shaped(s) && s.mgr.StoreLocked? && s.mgr.h < |s.nodes|
    ensures var t, l, h := AfterTurns(s, None, [], 2), s.mgr.l, s.mgr.h;
            && t.entries == s.entries[l := s.entries[l].(owner := h)]
            && t.nodes == s.nodes[h := s.nodes[h].(locked := 2)]
  {
    var m := AfterTurn(s, None, []);
    ApplyShaped(s, Manage);
    assert m == ManagerAccess(s) && Drop([], 1) == [];
    assert AfterTurns(m, None, [], 1) == ManagerAccess(m);
  }

  /** The owner check of a release by `n` would be one of the races now. */
  predicate RacesWhenChecked(s: State, n: NodeId, l: LockId)
    requires n < |s.pc| && n < |s.nodes| && l < |s.entries|
  {
    || (s.pc[n] == Holding(l) && s.mgr == StoreOwner(l, n))
    || (s.pc[n] == Waiting(l) && s.entries[l].owner == n && s.nodes[n].locked == 1)
  }

  /** Where the owner check of a release leads: a holder or a waiter has begun it, anybody else only reads. */
  function Checked(s: State, n: NodeId, l: LockId, schedule: Schedule): State
    requires Shaped(s) && n < |s.pc|
  {
    if s.pc[n] == Holding(l) then AfterTurns(Apply(s, BeginRelease(n)), Some(n), schedule, 1)
    else if s.pc[n] == Waiting(l) then AfterTurns(Apply(s, BeginCancel(n)), Some(n), schedule, 1)
    else AfterOthers(s, Some(n), Head(schedule))
  }

  /** Undisturbed, the owner check stores nothing, and it is made unless that would race. */
  lemma CheckedAlone(s: State, n: NodeId, l: LockId)
    requires Inv(s) && n < |s.pc| && l < |s.entries| && s.pc[n] in {Holding(l), Waiting(l)}
    ensures var t := Checked(s, n, l, []);
            && SameRecords(s, t) && n < |t.pc|
            && (t.pc[n] in {CheckOwner(l), CheckCancel(l)} <==> RacesWhenChecked(s, n, l))
            && (t.pc[n] == Waiting(l) <==> s.entries[l].owner != n && s.pc[n] != Holding(l))
            && (t.pc[n] == Waiting(l) ==> t == s)
  {
    if s.pc[n] == Waiting(l) {
      RefusedCancelChangesNothing(s, n, l);
    } else {
      HoldingIsOwnerUnlessRace(s, n, l);
    }
  }

  lemma HoldingIsOwnerUnlessRace(s: State, n: NodeId, l: LockId)
    requires Inv(s) && n < |s.pc| && s.pc[n] == Holding(l)
    ensures l < |s.entries| && (s.entries[l].owner == n || s.mgr == StoreOwner(l, n))
  {
    var i := Place(s, n, l);
  }
}
