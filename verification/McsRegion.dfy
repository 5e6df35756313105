/**
 The MCS queue lock as code over shared memory.  The records are arrays that every
 participant stores into in place; `pc` and `mgr` hold what each participant does next,
 and the remaining fields are the logs.  Each access is a method, and the functions of
 the lock are methods that perform their own accesses and let the other participants run
 before each of them.
 */
module McsRegion {
  import opened LockTypes
  import opened McsProtocol
  import opened McsInvariant
  import opened McsTheorems
  import opened McsTurns

  /** What the owner check of a release says; it is undecided if it would be one of the races. */
  datatype Verdict = Confirmed | Denied | Undecided

  class Region {
    const entries: array<McsLockEntry>
    const nodes: array<McsNode>
    var pc: seq<Pc>
    var mgr: ManagerPc
    var queue: seq<seq<NodeId>>
    var swaps: seq<seq<NodeId>>
    var owners: seq<seq<NodeId>>
    var releases: seq<nat>

    function Now(): State
      reads this, entries, nodes
    {
      State(entries[..], nodes[..], pc, mgr, queue, swaps, owners, releases)
    }

    /** `initialize`: every record is cleared. */
    constructor (nodeCount: nat, lockCount: nat)
      requires nodeCount <= INVALID_NODE_ID && 0 < lockCount <= INVALID_LOCK_ID
      ensures fresh(entries) && fresh(nodes)
      ensures Now() == InitState(nodeCount, lockCount) && Inv(Now())
    {
      entries := new McsLockEntry[lockCount](_ => FREE);
      nodes := new McsNode[nodeCount](_ => McsNode(0, 0, INVALID_LOCK_ID));
      pc := seq(nodeCount, _ => Idle);
      mgr := Between;
      queue := seq(lockCount, _ => []);
      swaps := seq(lockCount, _ => []);
      owners := seq(lockCount, _ => []);
      releases := seq(lockCount, _ => 0);
      new;
      assert Now() == InitState(nodeCount, lockCount);
      InitInv(nodeCount, lockCount);
    }

    // -- the accesses of acquire_lock and of the poll -----------------------------------

    method PrepareRecord(n: NodeId, l: LockId)
      requires Shaped(Now()) && Enabled(Now(), Acquire(n, l))
      modifies this`pc, nodes
      ensures Now() == Apply(old(Now()), Acquire(n, l))
      ensures nodes[..] == old(nodes[..])[n := McsNode(INVALID_NODE_ID, 1, l)]
    {
      nodes[n] := McsNode(INVALID_NODE_ID, 1, l);
      assert nodes[..] == old(nodes[..])[n := McsNode(INVALID_NODE_ID, 1, l)];
      pc := pc[n := Swap(l, INVALID_NODE_ID)];
    }

    method ExchangeTail(n: NodeId) returns (ok: bool)
      requires Shaped(Now()) && n < |pc| && pc[n].Swap?
      modifies this`pc, this`queue, this`swaps, entries
      ensures Now() == NodeAccess(old(Now()), n)
      ensures ok <==> old(entries[pc[n].l].tail == pc[n].seen)
      ensures entries[..] == if ok then old(entries[..])[old(pc)[n].l := old(entries[pc[n].l]).(tail := n)]
              else old(entries[..])
      ensures queue == if ok then old(queue)[old(pc)[n].l := old(queue[pc[n].l]) + [n]] else old(queue)
    {
      var l, seen := pc[n].l, pc[n].seen;
      ok := entries[l].tail == seen;
      if ok {
        entries[l] := entries[l].(tail := n);
        assert entries[..] == old(entries[..])[l := old(entries[l]).(tail := n)];
        queue := queue[l := queue[l] + [n]];
        swaps := swaps[l := swaps[l] + [n]];
        pc := pc[n := if seen == INVALID_NODE_ID then SetHead(l) else LinkPred(l, seen)];
      } else {
        pc := pc[n := Reload(l)];
      }
    }

    method ReloadTail(n: NodeId) returns (tail: NodeId)
      requires Shaped(Now()) && n < |pc| && pc[n].Reload?
      modifies this`pc
      ensures Now() == NodeAccess(old(Now()), n)
      ensures tail == entries[old(pc[n].l)].tail
    {
      var l := pc[n].l;
      tail := entries[l].tail;
      pc := pc[n := if tail == n then LinkPred(l, n) else Swap(l, tail)];
    }

    method StoreHead(n: NodeId)
      requires Shaped(Now()) && n < |pc| && pc[n].SetHead?
      modifies this`pc, entries
      ensures Now() == NodeAccess(old(Now()), n)
      ensures entries[..] == old(entries[..])[old(pc)[n].l := old(entries[pc[n].l]).(head := n)]
    {
      var l := pc[n].l;
      entries[l] := entries[l].(head := n);
      assert entries[..] == old(entries[..])[l := old(entries[l]).(head := n)];
      pc := pc[n := Waiting(l)];
    }

    method StoreLink(n: NodeId)
      requires Shaped(Now()) && n < |pc| && pc[n].LinkPred?
      modifies this`pc, nodes
      ensures Now() == NodeAccess(old(Now()), n)
      ensures old(pc)[n].pred < nodes.Length ==>
                nodes[..] == old(nodes[..])[old(pc)[n].pred := old(nodes[pc[n].pred]).(next := n)]
    {
      var l, pred := pc[n].l, pc[n].pred;
      if pred < nodes.Length {
        nodes[pred] := nodes[pred].(next := n);
        assert nodes[..] == old(nodes[..])[pred := old(nodes[pred]).(next := n)];
      }
      pc := pc[n := Waiting(l)];
    }

    method LoadOwnLocked(n: NodeId)
      requires Shaped(Now()) && n < |pc| && pc[n].Waiting?
      modifies this`pc
      ensures Now() == NodeAccess(old(Now()), n)
    {
      pc := pc[n := PollLock(pc[n].l, nodes[n].locked)];
    }

    method LoadOwnWaiting(n: NodeId) returns (granted: bool)
      requires Shaped(Now()) && n < |pc| && pc[n].PollLock?
      modifies this`pc
      ensures Now() == NodeAccess(old(Now()), n)
      ensures granted <==> pc[n].Holding?
    {
      var l, v := pc[n].l, pc[n].v;
      granted := (v == 2 || v == 0) && nodes[n].waiting == l;
      pc := pc[n := if granted then Holding(l) else Waiting(l)];
    }

    // -- the accesses of release_lock ----------------------------------------------------

    method LoadOwner(n: NodeId) returns (isOwner: bool)
      requires Shaped(Now()) && n < |pc| && pc[n].CheckOwner?
      modifies this`pc
      ensures Now() == NodeAccess(old(Now()), n)
      ensures isOwner <==> entries[old(pc[n].l)].owner == n
    {
      var l := pc[n].l;
      isOwner := entries[l].owner == n;
      pc := pc[n := if isOwner then ReadNext(l) else Refused(l)];
    }

    method LoadOwnerToCancel(n: NodeId) returns (isOwner: bool)
      requires Shaped(Now()) && n < |pc| && pc[n].CheckCancel?
      modifies this`pc
      ensures Now() == NodeAccess(old(Now()), n)
      ensures isOwner <==> entries[old(pc[n].l)].owner == n
    {
      var l := pc[n].l;
      isOwner := entries[l].owner == n;
      pc := pc[n := if isOwner then ReadNext(l) else Waiting(l)];
    }

    method LoadNext(n: NodeId) returns (succ: NodeId)
      requires Shaped(Now()) && n < |pc| && (pc[n].ReadNext? || pc[n].Spin?)
      modifies this`pc
      ensures Now() == NodeAccess(old(Now()), n)
      ensures succ == nodes[n].next
    {
      var l := pc[n].l;
      succ := nodes[n].next;
      if succ != INVALID_NODE_ID {
        pc := pc[n := PassHead(l, succ)];
      } else if pc[n].ReadNext? {
        pc := pc[n := DropTail(l)];
      }
    }

    method ExchangeTailForNone(n: NodeId) returns (isLast: bool)
      requires Shaped(Now()) && n < |pc| && pc[n].DropTail?
      modifies this`pc, this`queue, this`releases, entries
      ensures Now() == NodeAccess(old(Now()), n)
      ensures isLast <==> old(entries[pc[n].l].tail) == n
      ensures entries[..] == if isLast then old(entries[..])[old(pc)[n].l := old(entries[pc[n].l]).(tail := INVALID_NODE_ID)]
                             else old(entries[..])
    {
      var l := pc[n].l;
      isLast := entries[l].tail == n;
      if isLast {
        entries[l] := entries[l].(tail := INVALID_NODE_ID);
        assert entries[..] == old(entries[..])[l := old(entries[l]).(tail := INVALID_NODE_ID)];
        queue := queue[l := if queue[l] == [] then [] else queue[l][1..]];
        releases := releases[l := releases[l] + 1];
        pc := pc[n := ClearHead(l)];
      } else {
        pc := pc[n := Spin(l)];
      }
    }

    method StoreSuccessorAsHead(n: NodeId)
      requires Shaped(Now()) && n < |pc| && pc[n].PassHead?
      modifies this`pc, entries
      ensures Now() == NodeAccess(old(Now()), n)
      ensures entries[..] == old(entries[..])[old(pc)[n].l := old(entries[pc[n].l]).(head := old(pc)[n].succ)]
    {
      var l, succ := pc[n].l, pc[n].succ;
      entries[l] := entries[l].(head := succ);
      assert entries[..] == old(entries[..])[l := old(entries[l]).(head := succ)];
      pc := pc[n := PassOwner(l, succ)];
    }

    method StoreSuccessorAsOwner(n: NodeId)
      requires Shaped(Now()) && n < |pc| && pc[n].PassOwner?
      modifies this`pc, this`queue, this`releases, this`owners, entries
      ensures Now() == NodeAccess(old(Now()), n)
      ensures entries[..] == old(entries[..])[old(pc)[n].l := old(entries[pc[n].l]).(owner := old(pc)[n].succ)]
    {
      var l, succ := pc[n].l, pc[n].succ;
      entries[l] := entries[l].(owner := succ);
      assert entries[..] == old(entries[..])[l := old(entries[l]).(owner := succ)];
      queue := queue[l := if queue[l] == [] then [] else queue[l][1..]];
      releases := releases[l := releases[l] + 1];
      owners := owners[l := owners[l] + [succ]];
      pc := pc[n := Wake(l, succ)];
    }

    method WakeSuccessor(n: NodeId)
      requires Shaped(Now()) && n < |pc| && pc[n].Wake?
      modifies this`pc, nodes
      ensures Now() == NodeAccess(old(Now()), n)
      ensures old(pc)[n].succ < nodes.Length ==>
                nodes[..] == old(nodes[..])[old(pc)[n].succ := old(nodes[pc[n].succ]).(locked := 0)]
    {
      var succ := pc[n].succ;
      if succ < nodes.Length {
        nodes[succ] := nodes[succ].(locked := 0);
        assert nodes[..] == old(nodes[..])[succ := old(nodes[succ]).(locked := 0)];
      }
      pc := pc[n := ResetNext];
    }

    method StoreNoHead(n: NodeId)
      requires Shaped(Now()) && n < |pc| && pc[n].ClearHead?
      modifies this`pc, entries
      ensures Now() == NodeAccess(old(Now()), n)
      ensures entries[..] == old(entries[..])[old(pc)[n].l := old(entries[pc[n].l]).(head := INVALID_NODE_ID)]
    {
      var l := pc[n].l;
      entries[l] := entries[l].(head := INVALID_NODE_ID);
      assert entries[..] == old(entries[..])[l := old(entries[l]).(head := INVALID_NODE_ID)];
      pc := pc[n := ClearOwner(l)];
    }

    method StoreNoOwner(n: NodeId)
      requires Shaped(Now()) && n < |pc| && pc[n].ClearOwner?
      modifies this`pc, entries
      ensures Now() == NodeAccess(old(Now()), n)
      ensures entries[..] == old(entries[..])[old(pc)[n].l := old(entries[pc[n].l]).(owner := INVALID_NODE_ID)]
    {
      var l := pc[n].l;
      entries[l] := entries[l].(owner := INVALID_NODE_ID);
      assert entries[..] == old(entries[..])[l := old(entries[l]).(owner := INVALID_NODE_ID)];
      pc := pc[n := ResetNext];
    }

    method ClearOwnNext(n: NodeId)
      requires Shaped(Now()) && n < |pc| && pc[n].ResetNext?
      modifies this`pc, nodes
      ensures Now() == NodeAccess(old(Now()), n)
      ensures nodes[..] == old(nodes[..])[n := old(nodes[n]).(next := INVALID_NODE_ID)]
    {
      nodes[n] := nodes[n].(next := INVALID_NODE_ID);
      assert nodes[..] == old(nodes[..])[n := old(nodes[n]).(next := INVALID_NODE_ID)];
      pc := pc[n := ResetLocked];
    }

    method ClearOwnLocked(n: NodeId)
      requires Shaped(Now()) && n < |pc| && pc[n].ResetLocked?
      modifies this`pc, nodes
      ensures Now() == NodeAccess(old(Now()), n)
      ensures nodes[..] == old(nodes[..])[n := old(nodes[n]).(locked := 0)]
    {
      nodes[n] := nodes[n].(locked := 0);
      assert nodes[..] == old(nodes[..])[n := old(nodes[n]).(locked := 0)];
      pc := pc[n := ResetWaiting];
    }

    method ClearOwnWaiting(n: NodeId)
      requires Shaped(Now()) && n < |pc| && pc[n].ResetWaiting?
      modifies this`pc, nodes
      ensures Now() == NodeAccess(old(Now()), n)
      ensures nodes[..] == old(nodes[..])[n := old(nodes[n]).(waiting := INVALID_LOCK_ID)]
    {
      nodes[n] := nodes[n].(waiting := INVALID_LOCK_ID);
      assert nodes[..] == old(nodes[..])[n := old(nodes[n]).(waiting := INVALID_LOCK_ID)];
      pc := pc[n := Idle];
    }

    method AccessNext(n: NodeId)
      requires Shaped(Now()) && Enabled(Now(), Access(n))
      modifies this, entries, nodes
      ensures Now() == NodeAccess(old(Now()), n)
    {
      match pc[n] {
        case Swap(_, _) => var _ := ExchangeTail(n);
        case Reload(_) => var _ := ReloadTail(n);
        case SetHead(_) => StoreHead(n);
        case LinkPred(_, _) => StoreLink(n);
        case Waiting(_) => LoadOwnLocked(n);
        case PollLock(_, _) => var _ := LoadOwnWaiting(n);
        case CheckOwner(_) => var _ := LoadOwner(n);
        case CheckCancel(_) => var _ := LoadOwnerToCancel(n);
        case ReadNext(_) => var _ := LoadNext(n);
        case DropTail(_) => var _ := ExchangeTailForNone(n);
        case Spin(_) => var _ := LoadNext(n);
        case PassHead(_, _) => StoreSuccessorAsHead(n);
        case PassOwner(_, _) => StoreSuccessorAsOwner(n);
        case Wake(_, _) => WakeSuccessor(n);
        case ClearHead(_) => StoreNoHead(n);
        case ClearOwner(_) => StoreNoOwner(n);
        case ResetNext => ClearOwnNext(n);
        case ResetLocked => ClearOwnLocked(n);
        case ResetWaiting => ClearOwnWaiting(n);
      }
    }

    // -- the accesses of check_grant and grant_lock --------------------------------------

    method ManagerLoadsOwner(l: LockId) returns (owner: NodeId)
      requires Shaped(Now()) && Enabled(Now(), Check(l))
      modifies this`mgr
      ensures Now() == Apply(old(Now()), Check(l)) && owner == entries[l].owner
    {
      owner := entries[l].owner;
      mgr := if owner != INVALID_NODE_ID then Between else LoadHead(l);
    }

    method ManagerLoadsHead() returns (head: NodeId)
      requires Shaped(Now()) && mgr.LoadHead?
      modifies this`mgr
      ensures Now() == ManagerAccess(old(Now())) && head == entries[old(mgr).l].head
    {
      var l := mgr.l;
      head := entries[l].head;
      mgr := if head == INVALID_NODE_ID || head >= nodes.Length then Between else LoadLocked(l, head);
    }

    method ManagerLoadsLocked()
      requires Shaped(Now()) && mgr.LoadLocked?
      modifies this`mgr
      ensures Now() == ManagerAccess(old(Now()))
    {
      var l, h := mgr.l, mgr.h;
      mgr := if h < nodes.Length then LoadWaiting(l, h, nodes[h].locked) else Between;
    }

    method ManagerLoadsWaiting()
      requires Shaped(Now()) && mgr.LoadWaiting?
      modifies this`mgr
      ensures Now() == ManagerAccess(old(Now()))
    {
      var l, h, v := mgr.l, mgr.h, mgr.v;
      mgr := if h < nodes.Length && v == 1 && nodes[h].waiting == l then StoreLocked(l, h) else Between;
    }

    method ManagerStoresLocked()
      requires Shaped(Now()) && mgr.StoreLocked?
      modifies this`mgr, this`owners, nodes
      ensures Now() == ManagerAccess(old(Now()))
      ensures old(mgr).h < nodes.Length ==> nodes[..] == old(nodes[..])[old(mgr).h := old(nodes[mgr.h]).(locked := 2)]
    {
      var l, h := mgr.l, mgr.h;
      if h < nodes.Length {
        nodes[h] := nodes[h].(locked := 2);
        assert nodes[..] == old(nodes[..])[h := old(nodes[h]).(locked := 2)];
      }
      owners := owners[l := owners[l] + [h]];
      mgr := StoreOwner(l, h);
    }

    method ManagerStoresOwner()
      requires Shaped(Now()) && mgr.StoreOwner?
      modifies this`mgr, entries
      ensures Now() == ManagerAccess(old(Now()))
      ensures entries[..] == old(entries[..])[old(mgr).l := old(entries[mgr.l]).(owner := old(mgr).h)]
    {
      var l, h := mgr.l, mgr.h;
      entries[l] := entries[l].(owner := h);
      assert entries[..] == old(entries[..])[l := old(entries[l]).(owner := h)];
      mgr := Between;
    }

    method ManagerNext()
      requires Shaped(Now()) && mgr != Between
      modifies this, entries, nodes
      ensures Now() == ManagerAccess(old(Now()))
    {
      match mgr {
        case LoadHead(_) => var _ := ManagerLoadsHead();
        case LoadLocked(_, _) => ManagerLoadsLocked();
        case LoadWaiting(_, _, _) => ManagerLoadsWaiting();
        case StoreLocked(_, _) => ManagerStoresLocked();
        case StoreOwner(_, _) => ManagerStoresOwner();
      }
    }

    /** Any step of any participant, performed in place. */
    method Perform(st: Step)
      requires Shaped(Now()) && Enabled(Now(), st)
      modifies this, entries, nodes
      ensures Now() == Apply(old(Now()), st)
    {
      match st {
        case Acquire(n, l) => PrepareRecord(n, l);
        case Access(n) => AccessNext(n);
        case BeginRelease(n) => pc := pc[n := CheckOwner(pc[n].l)];
        case BeginCancel(n) => pc := pc[n := CheckCancel(pc[n].l)];
        case Check(l) => var _ := ManagerLoadsOwner(l);
        case Manage => ManagerNext();
      }
    }

    /** The other participants run: the steps of `steps` that are not `me`'s, while they can and do not race. */
    method Others(me: Option<NodeId>, steps: seq<Step>) returns (ghost run: seq<Step>)
      requires Inv(Now()) && (me.Some? ==> me.value < |pc|)
      modifies this, entries, nodes
      ensures Inv(Now()) && RaceFreeRun(old(Now()), run, Now())
      ensures forall i :: 0 <= i < |run| ==> !By(run[i], me)
      ensures |pc| == old(|pc|) && (me.Some? ==> pc[me.value] == old(pc)[me.value])
      ensures me.None? ==> mgr == old(mgr)
      ensures nodes.Length == old(|pc|)
      ensures me.Some? && Outside(pc[me.value]) ==> nodes[me.value] == old(nodes[me.value])
      ensures Now() == AfterOthers(old(Now()), me, steps)
    {
      run := [];
      for i := 0 to |steps|
        invariant Inv(Now()) && RaceFreeRun(old(Now()), run, Now())
        invariant forall j :: 0 <= j < |run| ==> !By(run[j], me)
        invariant |pc| == old(|pc|) && (me.Some? ==> pc[me.value] == old(pc)[me.value])
        invariant me.None? ==> mgr == old(mgr)
        invariant Now() == AfterOthers(old(Now()), me, steps[..i])
        invariant nodes.Length == old(|pc|)
                  && (me.Some? && Outside(pc[me.value]) ==> nodes[me.value] == old(nodes[me.value]))
      {
        var st := steps[i];
        assert steps[..i + 1] == steps[..i] + [st];
        AfterOneMore(old(Now()), me, steps[..i], st);
        if Enabled(Now(), st) && !Races(Now(), st) && !By(st, me) {
          OtherStep(old(Now()), run, Now(), st, me);
          Perform(st);
          run := run + [st];
        }
      }
      assert steps[..|steps|] == steps;
    }

    /** The others run for the first part of the schedule, if there is one. */
    method Yield(me: Option<NodeId>, schedule: Schedule, ghost start: State, ghost run: seq<Step>)
      returns (rest: Schedule, ghost run': seq<Step>)
      requires Inv(Now()) && (me.Some? ==> me.value < |pc|)
      requires Shaped(start) && RaceFreeRun(start, run, Now())
      modifies this, entries, nodes
      ensures Inv(Now()) && RaceFreeRun(start, run', Now())
      ensures run <= run' && forall i :: |run| <= i < |run'| ==> !By(run'[i], me)
      ensures |pc| == old(|pc|) && (me.Some? ==> pc[me.value] == old(pc)[me.value])
      ensures me.None? ==> mgr == old(mgr)
      ensures me.None? ==> forall l, h :: old(OnTheWay(Now(), l, h)) ==> OnTheWay(Now(), l, h)
      ensures nodes.Length == |pc|
      ensures me.Some? && Outside(pc[me.value]) ==> nodes[me.value] == old(nodes[me.value])
      ensures if schedule == [] then rest == [] && Now() == old(Now()) else rest == schedule[1..]
      ensures Now() == AfterOthers(old(Now()), me, Head(schedule)) && rest == Drop(schedule, 1)
    {
      if schedule == [] {
        return [], run;
      }
      ghost var others := Others(me, schedule[0]);
      if me == None {
        forall l, h | OnTheWay(old(Now()), l, h) ensures OnTheWay(Now(), l, h) {
          NodesKeepTheWay(old(Now()), others, Now(), l, h);
        }
      }
      RunConcat(start, run, old(Now()), others, Now());
      return schedule[1..], run + others;
    }

    /** The node is in no call and in no queue of `l`, and its record is cleared. */
    ghost predicate Left(n: NodeId, l: LockId)
      reads this, nodes
    {
      && n < |pc| == nodes.Length && pc[n] == Idle && nodes[n] == CLEARED
      && l < |queue| && n !in queue[l]
    }

    /** The steps of `me` in `run` from position `i` on are accesses of node `n`. */
    ghost predicate AccessesOnly(run: seq<Step>, i: nat, n: NodeId)
    {
      forall k :: i <= k < |run| && By(run[k], Some(n)) ==> run[k] == Access(n)
    }

    /** The others run; then `n` is about to make an access that cannot race. */
    method Turn(n: NodeId, schedule: Schedule, ghost start: State, ghost run: seq<Step>)
      returns (rest: Schedule, ghost run': seq<Step>)
      requires Inv(Now()) && Enabled(Now(), Access(n))
      requires !pc[n].CheckOwner? && !pc[n].CheckCancel? && !pc[n].SetHead?
      requires Shaped(start) && RaceFreeRun(start, run, Now())
      modifies this, entries, nodes
      ensures Inv(Now()) && Enabled(Now(), Access(n))
      ensures Inv(NodeAccess(Now(), n)) && RaceFreeRun(start, run', NodeAccess(Now(), n))
      ensures run <= run' && AccessesOnly(run', |run|, n) && Accesses(run', n) == Accesses(run, n) + 1
      ensures |pc| == old(|pc|) == nodes.Length && pc[n] == old(pc)[n]
      ensures Outside(pc[n]) ==> nodes[n] == old(nodes[n])
      ensures if schedule == [] then rest == [] && Now() == old(Now()) else rest == schedule[1..]
      ensures NodeAccess(Now(), n) == AfterTurns(old(Now()), Some(n), schedule, 1) && rest == Drop(schedule, 1)
    {
      rest, run' := Yield(Some(n), schedule, start, run);
      OthersDoNotCount(run, run', n);
      Take(start, run', Now(), Access(n));
      run' := run' + [Access(n)];
    }

    /** The others run; then the manager is about to make its next access. */
    method ManagerTurn(schedule: Schedule, ghost start: State, ghost run: seq<Step>)
      returns (rest: Schedule, ghost run': seq<Step>)
      requires Inv(Now()) && mgr != Between
      requires Shaped(start) && RaceFreeRun(start, run, Now())
      modifies this, entries, nodes
      ensures Inv(Now()) && mgr == old(mgr) && |pc| == old(|pc|)
      ensures Inv(ManagerAccess(Now())) && RaceFreeRun(start, run', ManagerAccess(Now()))
      ensures forall l, h :: old(OnTheWay(Now(), l, h)) ==> OnTheWay(Now(), l, h)
      ensures schedule == [] ==> rest == [] && Now() == old(Now())
      ensures ManagerAccess(Now()) == AfterTurns(old(Now()), None, schedule, 1) && rest == Drop(schedule, 1)
    {
      rest, run' := Yield(None, schedule, start, run);
      Take(start, run', Now(), Manage);
      run' := run' + [Manage];
    }

    // -- the functions of the lock ---------------------------------------------------------

    /** The load after a failed exchange; the loop is never left because the tail is the node itself. */
    method LoadTailAgain(n: NodeId, l: LockId, schedule: Schedule, ghost start: State, ghost run: seq<Step>)
      returns (tail: NodeId, rest: Schedule, ghost run': seq<Step>)
      requires Inv(Now()) && n < |pc| && pc[n] == Reload(l)
      requires Shaped(start) && RaceFreeRun(start, run, Now())
      modifies this, entries, nodes
      ensures Inv(Now()) && RaceFreeRun(start, run', Now())
      ensures run <= run' && AccessesOnly(run', |run|, n)
      ensures |pc| == old(|pc|) && l < entries.Length && pc[n] == Swap(l, tail) && entries[l].tail == tail
      ensures if schedule == [] then rest == [] else rest == schedule[1..]
      ensures schedule == [] ==> entries[l].tail == old(entries[pc[n].l].tail)
      ensures Now() == AfterTurns(old(Now()), Some(n), schedule, 1) && rest == Drop(schedule, 1)
    {
      rest, run' := Turn(n, schedule, start, run);
      NeverSelf(Now(), n);
      tail := ReloadTail(n);
      if tail == n {
        assert false;
      }
    }

    /** One exchange of the tail; it can fail only if others have run or the tail had changed before. */
    method TrySwap(n: NodeId, l: LockId, oldTail: NodeId, schedule: Schedule, ghost start: State, ghost run: seq<Step>)
      returns (swapped: bool, rest: Schedule, ghost run': seq<Step>)
      requires Inv(Now()) && n < |pc| && pc[n] == Swap(l, oldTail) && l < entries.Length
      requires Shaped(start) && RaceFreeRun(start, run, Now())
      modifies this, entries, nodes
      ensures Inv(Now()) && RaceFreeRun(start, run', Now())
      ensures run <= run' && AccessesOnly(run', |run|, n) && |pc| == old(|pc|)
      ensures pc[n] == if !swapped then Reload(l) else if oldTail == INVALID_NODE_ID then SetHead(l)
              else LinkPred(l, oldTail)
      ensures if schedule == [] then rest == [] else |rest| < |schedule|
      ensures schedule == [] && !swapped ==> entries[l].tail == old(entries[l].tail)
      ensures schedule == [] ==> (swapped <==> old(entries[l].tail) == oldTail)
      ensures Now() == AfterTurns(old(Now()), Some(n), schedule, 1) && rest == Drop(schedule, 1)
    {
      rest, run' := Turn(n, schedule, start, run);
      swapped := ExchangeTail(n);
    }

    /** One turn of the retry loop: the exchange, and after a failure the load of the tail. */
    method SwapOrReload(n: NodeId, l: LockId, oldTail: NodeId, schedule: Schedule, ghost start: State, ghost run: seq<Step>)
      returns (swapped: bool, tail: NodeId, rest: Schedule, ghost run': seq<Step>)
      requires Inv(Now()) && n < |pc| && pc[n] == Swap(l, oldTail) && l < entries.Length
      requires Shaped(start) && RaceFreeRun(start, run, Now())
      modifies this, entries, nodes
      ensures Inv(Now()) && RaceFreeRun(start, run', Now())
      ensures run <= run' && AccessesOnly(run', |run|, n) && |pc| == old(|pc|)
      ensures swapped ==> pc[n] == if oldTail == INVALID_NODE_ID then SetHead(l) else LinkPred(l, oldTail)
      ensures !swapped ==> pc[n] == Swap(l, tail) && entries[l].tail == tail
      ensures !swapped ==> |rest| < |schedule| || (rest == schedule == [] && old(entries[l].tail) != oldTail)
      ensures schedule == [] && !swapped ==> rest == [] && entries[l].tail == old(entries[l].tail)
      ensures schedule == [] ==> (swapped <==> old(entries[l].tail) == oldTail)
      ensures Now() == AfterTurns(old(Now()), Some(n), schedule, if swapped then 1 else 2)
      ensures rest == Drop(schedule, if swapped then 1 else 2)
    {
      tail := oldTail;
      swapped, rest, run' := TrySwap(n, l, oldTail, schedule, start, run);
      if !swapped {
        tail, rest, run' := LoadTailAgain(n, l, rest, start, run');
      }
    }

    /**
     The retry loop of `acquire_lock`.  It ends because an exchange only fails after
     another node has changed the tail since it was loaded.
     */
    method SwapInto(n: NodeId, l: LockId, schedule: Schedule, ghost start: State, ghost run: seq<Step>)
      returns (oldTail: NodeId, rest: Schedule, ghost run': seq<Step>, ghost turns: nat)
      requires Inv(Now()) && n < |pc| && pc[n] == Swap(l, INVALID_NODE_ID)
      requires Shaped(start) && RaceFreeRun(start, run, Now())
      modifies this, entries, nodes
      ensures Inv(Now()) && RaceFreeRun(start, run', Now())
      ensures run <= run' && AccessesOnly(run', |run|, n)
      ensures |pc| == old(|pc|)
      ensures pc[n] == if oldTail == INVALID_NODE_ID then SetHead(l) else LinkPred(l, oldTail)
      ensures Now() == AfterTurns(old(Now()), Some(n), schedule, turns) && rest == Drop(schedule, turns)
      ensures l < entries.Length
      ensures schedule == [] ==> turns == if old(entries[pc[n].l].tail) == INVALID_NODE_ID then 1 else 3
    {
      hide AfterTurn, AfterTurns, Inv, RaceFreeRun;
      NoTurns(Now(), Some(n), schedule);
      rest, run', turns := schedule, run, 0;
      oldTail := INVALID_NODE_ID;
      while true
        invariant Inv(Now()) && RaceFreeRun(start, run', Now())
        invariant run <= run' && AccessesOnly(run', |run|, n)
        invariant |pc| == old(|pc|) && l < entries.Length && pc[n] == Swap(l, oldTail)
        invariant Now() == AfterTurns(old(Now()), Some(n), schedule, turns) && rest == Drop(schedule, turns)
        invariant schedule == [] ==>
                    && rest == [] && entries[l].tail == old(entries[pc[n].l].tail)
                    && if oldTail == INVALID_NODE_ID then turns == 0 else turns == 2 && oldTail == entries[l].tail
        decreases |rest|, if entries[l].tail == oldTail then 0 else 1
      {
        var swapped, tail;
        swapped, tail, rest, run' := SwapOrReload(n, l, oldTail, rest, start, run');
        TurnsAdd(old(Now()), Some(n), schedule, turns, if swapped then 1 else 2);
        turns := turns + if swapped then 1 else 2;
        if swapped {
          return;
        }
        oldTail := tail;
      }
    }

    /** `acquire_lock`. */
    method AcquireLock(n: NodeId, l: LockId, schedule: Schedule)
      returns (outcome: Outcome, ghost run: seq<Step>, ghost turns: nat)
      requires Inv(Now()) && (n < |pc| ==> pc[n] == Idle)
      modifies this, entries, nodes
      ensures Inv(Now()) && RaceFreeRun(old(Now()), run, Now())
      ensures outcome == Returned(InvalidParam) <==> !(n < nodes.Length && l < entries.Length)
      ensures outcome == Returned(InvalidParam) ==> Now() == old(Now())
      ensures outcome in {Returned(InvalidParam), Returned(Success), AtRace}
      ensures outcome == Returned(Success) ==>
                && run != [] && run[0] == Acquire(n, l) && AccessesOnly(run, 1, n)
                && |pc| == nodes.Length && pc[n] == Waiting(l) && |queue| == entries.Length && n in queue[l]
      ensures outcome != Returned(InvalidParam) ==>
                Now() == AfterTurns(Apply(old(Now()), Acquire(n, l)), Some(n), schedule, turns)
      ensures outcome == AtRace ==> Shaped(Now()) && Races(Now(), Access(n))
      ensures schedule == [] && n < nodes.Length && l < entries.Length ==>
                (outcome == AtRace <==> old(entries[l].tail) == INVALID_NODE_ID && Departing(old(Now()), l))
      ensures schedule == [] && outcome == Returned(Success) ==>
                var s := old(Now());
                JoinedAlone(s.(nodes := s.nodes[n := McsNode(INVALID_NODE_ID, 1, l)]), Now(), n, l)
    {
      ghost var start := Now();
      if n == INVALID_NODE_ID || l >= entries.Length || n >= nodes.Length {
        return Returned(InvalidParam), [], 0;
      }
      Take(start, [], start, Acquire(n, l));
      run := [Acquire(n, l)];
      assert [] + run == run;
      PrepareRecord(n, l);
      if schedule == [] {
        JoinsAlone(Now(), n, l);
      }
      var joined;
      joined, run, turns := Join(n, l, schedule, start, run);
      if !joined {
        return AtRace, run, turns;
      }
      WaitingIsIn(Now(), n, l);
      return Returned(Success), run, turns;
    }

    /** `acquire_lock` after the own record has been prepared. */
    method Join(n: NodeId, l: LockId, schedule: Schedule, ghost start: State, ghost run: seq<Step>)
      returns (joined: bool, ghost run': seq<Step>, ghost turns: nat)
      requires Inv(Now()) && n < |pc| && pc[n] == Swap(l, INVALID_NODE_ID)
      requires Shaped(start) && RaceFreeRun(start, run, Now())
      modifies this, entries, nodes
      ensures Inv(Now()) && RaceFreeRun(start, run', Now())
      ensures run <= run' && AccessesOnly(run', |run|, n) && |pc| == old(|pc|)
      ensures if joined then pc[n] == Waiting(l) else Races(Now(), Access(n))
      ensures Now() == AfterTurns(old(Now()), Some(n), schedule, turns)
      ensures schedule == [] ==> turns == if old(entries[pc[n].l].tail) == INVALID_NODE_ID then 2 else 4
    {
      hide AfterTurn, AfterTurns;
      var oldTail, rest;
      oldTail, rest, run', turns := SwapInto(n, l, schedule, start, run);
      joined, run' := JoinBehind(n, l, oldTail, rest, start, run');
      TurnsAdd(old(Now()), Some(n), schedule, turns, 1);
      turns := turns + 1;
    }

    /** The store of the head or of the link, unless it would race. */
    method JoinBehind(n: NodeId, l: LockId, oldTail: NodeId, schedule: Schedule, ghost start: State, ghost run: seq<Step>)
      returns (joined: bool, ghost run': seq<Step>)
      requires Inv(Now()) && n < |pc|
      requires pc[n] == (if oldTail == INVALID_NODE_ID then SetHead(l) else LinkPred(l, oldTail))
      requires Shaped(start) && RaceFreeRun(start, run, Now())
      modifies this, entries, nodes
      ensures Inv(Now()) && RaceFreeRun(start, run', Now())
      ensures run <= run' && AccessesOnly(run', |run|, n) && |pc| == old(|pc|)
      ensures if joined then pc[n] == Waiting(l) else Races(Now(), Access(n))
      ensures Now() == AfterTurns(old(Now()), Some(n), schedule, 1)
    {
      hide AfterTurn, AfterTurns;
      var rest;
      rest, run' := Yield(Some(n), schedule, start, run);
      TurnOrRace(old(Now()), n, schedule, Now());
      if Races(Now(), Access(n)) {
        return false, run';
      }
      Take(start, run', Now(), Access(n));
      run' := run' + [Access(n)];
      if oldTail == INVALID_NODE_ID {
        StoreHead(n);
      } else {
        StoreLink(n);
      }
      return true, run';
    }

    /**
     One turn of `poll_for_grant`: two loads of the own record.  It reports the lock exactly
     if that record says that it was granted, and then the node is the holder.
     */
    method Poll(n: NodeId, l: LockId, schedule: Schedule) returns (granted: bool, ghost run: seq<Step>)
      requires Inv(Now()) && n < |pc| && pc[n] == Waiting(l)
      modifies this, entries, nodes
      ensures Inv(Now()) && RaceFreeRun(old(Now()), run, Now())
      ensures n < |pc| && pc[n] == (if granted then Holding(l) else Waiting(l))
      ensures AccessesOnly(run, 0, n) && Accesses(run, n) == 2
      ensures n < nodes.Length && (granted <==> old(nodes[n].locked) in {0, 2})
      ensures granted ==> l < |queue| && Holder(Now(), l) == Some(n)
      ensures Now() == AfterTurns(NodeAccess(old(Now()), n), Some(n), schedule, 1)
    {
      ghost var start := Now();
      var rest;
      rest, run := Turn(n, [], start, []);
      LoadOwnLocked(n);
      granted, run := FinishPoll(n, l, schedule, start, run);
    }

    /** The second load of the poll. */
    method FinishPoll(n: NodeId, l: LockId, schedule: Schedule, ghost start: State, ghost run: seq<Step>)
      returns (granted: bool, ghost run': seq<Step>)
      requires Inv(Now()) && n < |pc| && pc[n].PollLock? && pc[n].l == l
      requires Shaped(start) && RaceFreeRun(start, run, Now())
      modifies this, entries, nodes
      ensures Inv(Now()) && RaceFreeRun(start, run', Now())
      ensures run <= run' && AccessesOnly(run', |run|, n) && Accesses(run', n) == Accesses(run, n) + 1
      ensures n < |pc| && pc[n] == (if granted then Holding(l) else Waiting(l))
      ensures granted <==> old(pc)[n].v in {0, 2}
      ensures granted ==> l < |queue| && Holder(Now(), l) == Some(n)
      ensures Now() == AfterTurns(old(Now()), Some(n), schedule, 1)
    {
      var rest;
      rest, run' := Turn(n, schedule, start, run);
      WaitsForIt(Now(), n, l);
      granted := LoadOwnWaiting(n);
      if granted {
        HoldingIsHolder(Now(), n, l);
      }
    }

    /**
     `release_lock`, by a node in no other call.  A holder is never refused; a waiter gets
     through exactly if it has become the owner; everybody else is refused and changes
     nothing.  A release that gets through spins only while the node behind it has a link
     to store.
     */
    method ReleaseLock(n: NodeId, l: LockId, schedule: Schedule)
      returns (outcome: Outcome, rest: Schedule, ghost run: seq<Step>, ghost turns: nat)
      requires Inv(Now()) && (n < |pc| ==> pc[n].Idle? || pc[n].Waiting? || pc[n].Holding?)
      modifies this, entries, nodes
      ensures Inv(Now()) && RaceFreeRun(old(Now()), run, Now()) && |pc| == old(|pc|)
      ensures outcome in {Returned(InvalidParam), Returned(NotOwner), Returned(Success), AtRace, StillSpinning}
      ensures outcome == Returned(InvalidParam) <==> !(n < nodes.Length && l < entries.Length)
      ensures outcome == Returned(InvalidParam) ==> Now() == old(Now())
      ensures outcome == Returned(NotOwner) ==> entries[l].owner != n && n < |pc| && pc[n] == old(pc)[n] != Holding(l)
      ensures schedule == [] && n < nodes.Length && l < entries.Length ==>
                (outcome == Returned(NotOwner) <==> old(entries[l].owner) != n && old(pc)[n] != Holding(l))
      ensures schedule == [] && outcome == Returned(NotOwner) ==> Now() == old(Now())
      ensures outcome == Returned(Success) ==> Left(n, l)
      ensures outcome == AtRace ==> Races(Now(), Access(n))
      ensures outcome == StillSpinning ==>
                n < |pc| == nodes.Length && pc[n] == Spin(l) && nodes[n].next == INVALID_NODE_ID && rest == []
      ensures schedule == [] && n < nodes.Length && l < entries.Length ==>
                (outcome == AtRace <==> RacesWhenChecked(old(Now()), n, l))
      ensures schedule == [] && outcome == AtRace ==> SameRecords(old(Now()), Now())
      ensures schedule == [] && outcome in {Returned(Success), StillSpinning} ==>
                ReleasedAlone(old(Now()), Now(), n, l, outcome)
      ensures outcome in {Returned(NotOwner), AtRace} ==> Now() == Checked(old(Now()), n, l, schedule)
      ensures outcome in {Returned(Success), StillSpinning} ==>
                Now() == AfterTurns(Checked(old(Now()), n, l, schedule), Some(n), Drop(schedule, 1), turns)
    {
      ghost var start := Now();
      if n == INVALID_NODE_ID || l >= entries.Length || n >= nodes.Length {
        return Returned(InvalidParam), schedule, [], 0;
      }
      var verdict;
      verdict, rest, run := CheckOwnership(n, l, schedule);
      if verdict == Denied {
        return Returned(NotOwner), rest, run, 0;
      } else if verdict == Undecided {
        return AtRace, rest, run, 0;
      }
      outcome, rest, run, turns := Leave(n, l, rest, start, run);
    }

    /** `release_lock` after the owner check. */
    method Leave(n: NodeId, l: LockId, schedule: Schedule, ghost start: State, ghost run: seq<Step>)
      returns (outcome: Outcome, rest: Schedule, ghost run': seq<Step>, ghost turns: nat)
      requires Inv(Now()) && n < |pc| && pc[n] == ReadNext(l)
      requires Shaped(start) && RaceFreeRun(start, run, Now())
      modifies this, entries, nodes
      ensures Inv(Now()) && RaceFreeRun(start, run', Now())
      ensures run <= run' && AccessesOnly(run', |run|, n) && |pc| == old(|pc|)
      ensures outcome in {Returned(Success), StillSpinning}
      ensures outcome == Returned(Success) ==> Left(n, l)
      ensures outcome == StillSpinning ==> pc[n] == Spin(l) && nodes.Length == |pc| && nodes[n].next == INVALID_NODE_ID
      ensures outcome == StillSpinning ==> rest == []
      ensures l < entries.Length && n < nodes.Length
      ensures schedule == [] ==> ReleasedAlone(old(Now()), Now(), n, l, outcome)
      ensures Now() == AfterTurns(old(Now()), Some(n), schedule, turns)
    {
      hide AfterTurn, AfterTurns, Inv, RaceFreeRun;
      if schedule == [] {
        LeavesAlone(Now(), n, l);
      }
      var succ;
      succ, rest, run' := LookBehind(n, l, schedule, start, run);
      if succ == INVALID_NODE_ID {
        outcome, rest, run', turns := LeaveUnlinked(n, l, rest, start, run');
        TurnsAdd(old(Now()), Some(n), schedule, 1, turns);
        turns := turns + 1;
        return;
      }
      run' := HandOff(n, l, rest, start, run');
      TurnsAdd(old(Now()), Some(n), schedule, 1, 6);
      return Returned(Success), rest, run', 7;
    }

    /** The release when no successor was linked at first. */
    method LeaveUnlinked(n: NodeId, l: LockId, schedule: Schedule, ghost start: State, ghost run: seq<Step>)
      returns (outcome: Outcome, rest: Schedule, ghost run': seq<Step>, ghost turns: nat)
      requires Inv(Now()) && n < |pc| && pc[n] == DropTail(l)
      requires Shaped(start) && RaceFreeRun(start, run, Now())
      modifies this, entries, nodes
      ensures Inv(Now()) && RaceFreeRun(start, run', Now())
      ensures run <= run' && AccessesOnly(run', |run|, n) && |pc| == old(|pc|)
      ensures outcome in {Returned(Success), StillSpinning}
      ensures outcome == Returned(Success) ==> Left(n, l)
      ensures outcome == StillSpinning ==> pc[n] == Spin(l) && nodes.Length == |pc| && nodes[n].next == INVALID_NODE_ID
      ensures outcome == StillSpinning ==> rest == []
      ensures l < entries.Length && n < nodes.Length
      ensures schedule == [] && old(nodes[n].next) == INVALID_NODE_ID ==>
                if old(entries[l].tail) == n then outcome == Returned(Success) && turns == 6
                else outcome == StillSpinning && turns == 1
      ensures Now() == AfterTurns(old(Now()), Some(n), schedule, turns)
    {
      hide AfterTurn, AfterTurns, Inv, RaceFreeRun;
      var isLast;
      isLast, rest, run' := TryToEmpty(n, l, schedule, start, run);
      if isLast {
        TurnsAdd(old(Now()), Some(n), schedule, 1, 5);
        run' := LeaveEmpty(n, l, rest, start, run');
        return Returned(Success), rest, run', 6;
      }
      outcome, rest, run', turns := SpinAndHandOff(n, l, rest, start, run');
      TurnsAdd(old(Now()), Some(n), schedule, 1, turns);
      turns := turns + 1;
    }

    /** The release when a node has joined but not linked itself. */
    method SpinAndHandOff(n: NodeId, l: LockId, schedule: Schedule, ghost start: State, ghost run: seq<Step>)
      returns (outcome: Outcome, rest: Schedule, ghost run': seq<Step>, ghost turns: nat)
      requires Inv(Now()) && n < |pc| && pc[n] == Spin(l)
      requires Shaped(start) && RaceFreeRun(start, run, Now())
      modifies this, entries, nodes
      ensures Inv(Now()) && RaceFreeRun(start, run', Now())
      ensures run <= run' && AccessesOnly(run', |run|, n) && |pc| == old(|pc|) == nodes.Length
      ensures outcome in {Returned(Success), StillSpinning}
      ensures outcome == Returned(Success) ==> Left(n, l)
      ensures outcome == StillSpinning ==> pc[n] == Spin(l) && nodes[n].next == INVALID_NODE_ID && rest == []
      ensures schedule == [] && old(nodes[n].next) == INVALID_NODE_ID ==> outcome == StillSpinning && turns == 0
      ensures Now() == AfterTurns(old(Now()), Some(n), schedule, turns)
    {
      hide AfterTurn, AfterTurns, Inv, RaceFreeRun;
      var linked;
      linked, rest, run', turns := SpinForSuccessor(n, l, schedule, start, run);
      if !linked {
        return StillSpinning, rest, run', turns;
      }
      run' := HandOff(n, l, rest, start, run');
      TurnsAdd(old(Now()), Some(n), schedule, turns, 6);
      return Returned(Success), rest, run', turns + 6;
    }

    /** The load of the own next. */
    method LookBehind(n: NodeId, l: LockId, schedule: Schedule, ghost start: State, ghost run: seq<Step>)
      returns (succ: NodeId, rest: Schedule, ghost run': seq<Step>)
      requires Inv(Now()) && n < |pc| && pc[n] == ReadNext(l)
      requires Shaped(start) && RaceFreeRun(start, run, Now())
      modifies this, entries, nodes
      ensures Inv(Now()) && RaceFreeRun(start, run', Now())
      ensures run <= run' && AccessesOnly(run', |run|, n) && |pc| == old(|pc|)
      ensures pc[n] == if succ == INVALID_NODE_ID then DropTail(l) else PassHead(l, succ)
      ensures nodes.Length == |pc|
      ensures schedule == [] ==> succ == nodes[n].next == old(nodes[n].next)
      ensures l < entries.Length && (schedule == [] ==> entries[l].tail == old(entries[l].tail))
      ensures Now() == AfterTurns(old(Now()), Some(n), schedule, 1) && rest == Drop(schedule, 1)
    {
      rest, run' := Turn(n, schedule, start, run);
      succ := LoadNext(n);
    }

    /** The exchange of the tail for none. */
    method TryToEmpty(n: NodeId, l: LockId, schedule: Schedule, ghost start: State, ghost run: seq<Step>)
      returns (isLast: bool, rest: Schedule, ghost run': seq<Step>)
      requires Inv(Now()) && n < |pc| && pc[n] == DropTail(l)
      requires Shaped(start) && RaceFreeRun(start, run, Now())
      modifies this, entries, nodes
      ensures Inv(Now()) && RaceFreeRun(start, run', Now())
      ensures run <= run' && AccessesOnly(run', |run|, n) && |pc| == old(|pc|)
      ensures pc[n] == if isLast then ClearHead(l) else Spin(l)
      ensures l < entries.Length && nodes.Length == |pc|
      ensures schedule == [] ==> nodes[n].next == old(nodes[n].next) && (isLast <==> old(entries[l].tail) == n)
      ensures Now() == AfterTurns(old(Now()), Some(n), schedule, 1) && rest == Drop(schedule, 1)
    {
      rest, run' := Turn(n, schedule, start, run);
      isLast := ExchangeTailForNone(n);
    }

    /** The owner check of `release_lock`, whoever calls. */
    method CheckOwnership(n: NodeId, l: LockId, schedule: Schedule)
      returns (verdict: Verdict, rest: Schedule, ghost run: seq<Step>)
      requires Inv(Now()) && n < |pc| && l < entries.Length && (pc[n].Idle? || pc[n].Waiting? || pc[n].Holding?)
      modifies this, entries, nodes
      ensures Inv(Now()) && RaceFreeRun(old(Now()), run, Now()) && |pc| == old(|pc|)
      ensures verdict == Confirmed ==> pc[n] == ReadNext(l)
      ensures verdict == Denied ==> entries[l].owner != n && pc[n] == old(pc)[n] != Holding(l)
      ensures verdict == Undecided ==> Races(Now(), Access(n))
      ensures schedule == [] ==> (verdict == Denied <==> old(entries[l].owner) != n && old(pc)[n] != Holding(l))
      ensures schedule == [] && verdict == Denied ==> Now() == old(Now())
      ensures schedule == [] ==> rest == [] && SameRecords(old(Now()), Now())
      ensures schedule == [] ==> (verdict == Undecided <==> RacesWhenChecked(old(Now()), n, l))
      ensures old(pc)[n] in {Waiting(l), Holding(l)} ==> Accesses(run, n) == if verdict == Undecided then 0 else 1
      ensures Now() == Checked(old(Now()), n, l, schedule) && rest == Drop(schedule, 1)
    {
      if schedule == [] && pc[n] in {Holding(l), Waiting(l)} {
        CheckedAlone(Now(), n, l);
      }
      if pc[n] == Holding(l) {
        verdict, rest, run := ConfirmHolder(n, l, schedule);
      } else if pc[n] == Waiting(l) {
        verdict, rest, run := ConfirmWaiter(n, l, schedule);
      } else {
        OutsiderIsNotOwner(Now(), n, l);
        ghost var start := Now();
        rest, run := Yield(Some(n), schedule, start, []);
        OutsiderIsNotOwner(Now(), n, l);
        verdict := if entries[l].owner == n then Confirmed else Denied;
      }
    }

    /** The entry of `release_lock`; then the others run. */
    method BeginCheck(n: NodeId, st: Step, schedule: Schedule)
      returns (rest: Schedule, ghost run: seq<Step>)
      requires Inv(Now()) && n < |pc| && (st == BeginRelease(n) || st == BeginCancel(n)) && Enabled(Now(), st)
      modifies this, entries, nodes
      ensures Inv(Now()) && RaceFreeRun(old(Now()), run, Now()) && |pc| == old(|pc|)
      ensures pc[n] == if st.BeginRelease? then CheckOwner(old(pc)[n].l) else CheckCancel(old(pc)[n].l)
      ensures schedule == [] ==> Now() == Apply(old(Now()), st)
      ensures schedule == [] ==> rest == []
      ensures Accesses(run, n) == 0
      ensures Now() == AfterOthers(Apply(old(Now()), st), Some(n), Head(schedule)) && rest == Drop(schedule, 1)
    {
      ghost var start := Now();
      Take(start, [], start, st);
      run := [st];
      assert [] + run == run;
      Perform(st);
      ghost var begun := run;
      rest, run := Yield(Some(n), schedule, start, begun);
      OthersDoNotCount(begun, run, n);
    }

    /** It confirms a holder, unless it would race with the manager's two stores. */
    method ConfirmHolder(n: NodeId, l: LockId, schedule: Schedule)
      returns (verdict: Verdict, rest: Schedule, ghost run: seq<Step>)
      requires Inv(Now()) && n < |pc| && pc[n] == Holding(l)
      modifies this, entries, nodes
      ensures Inv(Now()) && RaceFreeRun(old(Now()), run, Now()) && |pc| == old(|pc|)
      ensures verdict != Denied
      ensures if verdict == Confirmed then pc[n] == ReadNext(l) else pc[n] == CheckOwner(l) && Races(Now(), Access(n))
      ensures Accesses(run, n) == if verdict == Undecided then 0 else 1
      ensures Now() == Checked(old(Now()), n, l, schedule) && rest == Drop(schedule, 1)
    {
      hide AfterTurn, AfterTurns, Inv, RaceFreeRun;
      ghost var start := Now();
      InvIsShaped(start);
      rest, run := BeginCheck(n, BeginRelease(n), schedule);
      InvIsShaped(Now());
      TurnOrRace(Apply(start, BeginRelease(n)), n, schedule, Now());
      if Races(Now(), Access(n)) {
        return Undecided, rest, run;
      }
      HolderIsOwner(Now(), n, l);
      Take(start, run, Now(), Access(n));
      run := run + [Access(n)];
      var isOwner := LoadOwner(n);
      if !isOwner {
        assert false;
      }
      verdict := Confirmed;
    }

    /** It confirms a waiter exactly if that is the owner, unless its predecessor is about to wake it. */
    method ConfirmWaiter(n: NodeId, l: LockId, schedule: Schedule)
      returns (verdict: Verdict, rest: Schedule, ghost run: seq<Step>)
      requires Inv(Now()) && n < |pc| && l < entries.Length && pc[n] == Waiting(l)
      modifies this, entries, nodes
      ensures Inv(Now()) && RaceFreeRun(old(Now()), run, Now()) && |pc| == old(|pc|)
      ensures verdict == Confirmed ==> pc[n] == ReadNext(l) && entries[l].owner == n
      ensures verdict == Denied ==> pc[n] == Waiting(l) && entries[l].owner != n
      ensures verdict == Undecided ==> pc[n] == CheckCancel(l) && Races(Now(), Access(n)) && entries[l].owner == n
      ensures Accesses(run, n) == if verdict == Undecided then 0 else 1
      ensures Now() == Checked(old(Now()), n, l, schedule) && rest == Drop(schedule, 1)
    {
      hide AfterTurn, AfterTurns, Inv, RaceFreeRun;
      ghost var start := Now();
      InvIsShaped(start);
      rest, run := BeginCheck(n, BeginCancel(n), schedule);
      InvIsShaped(Now());
      TurnOrRace(Apply(start, BeginCancel(n)), n, schedule, Now());
      if Races(Now(), Access(n)) {
        return Undecided, rest, run;
      }
      Take(start, run, Now(), Access(n));
      run := run + [Access(n)];
      var isOwner := LoadOwnerToCancel(n);
      verdict := if isOwner then Confirmed else Denied;
    }

    /** One load of the own next in the spin. */
    method SpinOnce(n: NodeId, l: LockId, schedule: Schedule, ghost start: State, ghost run: seq<Step>)
      returns (linked: bool, rest: Schedule, ghost run': seq<Step>)
      requires Inv(Now()) && n < |pc| && pc[n] == Spin(l)
      requires Shaped(start) && RaceFreeRun(start, run, Now())
      modifies this, entries, nodes
      ensures Inv(Now()) && RaceFreeRun(start, run', Now())
      ensures run <= run' && AccessesOnly(run', |run|, n)
      ensures |pc| == old(|pc|) == nodes.Length
      ensures if linked then pc[n].PassHead? && pc[n].l == l else pc[n] == Spin(l) && nodes[n].next == INVALID_NODE_ID
      ensures schedule == [] ==> (linked <==> old(nodes[n].next) != INVALID_NODE_ID)
      ensures Now() == AfterTurns(old(Now()), Some(n), schedule, 1) && rest == Drop(schedule, 1)
    {
      rest, run' := Turn(n, schedule, start, run);
      var succ := LoadNext(n);
      linked := succ != INVALID_NODE_ID;
    }

    /** The spin of `release_lock`; it is cut off where the schedule ends. */
    method SpinForSuccessor(n: NodeId, l: LockId, schedule: Schedule, ghost start: State, ghost run: seq<Step>)
      returns (linked: bool, rest: Schedule, ghost run': seq<Step>, ghost turns: nat)
      requires Inv(Now()) && n < |pc| && pc[n] == Spin(l)
      requires Shaped(start) && RaceFreeRun(start, run, Now())
      modifies this, entries, nodes
      ensures Inv(Now()) && RaceFreeRun(start, run', Now())
      ensures run <= run' && AccessesOnly(run', |run|, n) && |pc| == old(|pc|)
      ensures nodes.Length == |pc|
      ensures if linked then pc[n].PassHead? && pc[n].l == l
              else rest == [] && pc[n] == Spin(l) && nodes[n].next == INVALID_NODE_ID
      ensures schedule == [] && old(nodes[n].next) == INVALID_NODE_ID ==> !linked && turns == 0
      ensures Now() == AfterTurns(old(Now()), Some(n), schedule, turns) && rest == Drop(schedule, turns)
    {
      hide AfterTurn, AfterTurns, Inv, RaceFreeRun;
      NoTurns(Now(), Some(n), schedule);
      rest, run', turns := schedule, run, 0;
      while rest != [] || nodes[n].next != INVALID_NODE_ID
        invariant Inv(Now()) && RaceFreeRun(start, run', Now())
        invariant run <= run' && AccessesOnly(run', |run|, n)
        invariant |pc| == old(|pc|) && pc[n] == Spin(l)
        invariant Now() == AfterTurns(old(Now()), Some(n), schedule, turns) && rest == Drop(schedule, turns)
        invariant schedule == [] ==> turns == 0
        decreases |rest|
      {
        linked, rest, run' := SpinOnce(n, l, rest, start, run');
        TurnsAdd(old(Now()), Some(n), schedule, turns, 1);
        turns := turns + 1;
        if linked {
          return true, rest, run', turns;
        }
      }
      return false, rest, run', turns;
    }

    /** The end of `release_lock` when nobody is behind: clear the head, the owner, the own record. */
    method LeaveEmpty(n: NodeId, l: LockId, schedule: Schedule, ghost start: State, ghost run: seq<Step>)
      returns (ghost run': seq<Step>)
      requires Inv(Now()) && n < |pc| && pc[n] == ClearHead(l)
      requires Shaped(start) && RaceFreeRun(start, run, Now())
      modifies this, entries, nodes
      ensures Inv(Now()) && RaceFreeRun(start, run', Now())
      ensures run <= run' && AccessesOnly(run', |run|, n) && |pc| == old(|pc|)
      ensures Left(n, l)
      ensures l < entries.Length
      ensures Now() == AfterTurns(old(Now()), Some(n), schedule, 5)
      ensures schedule == [] && old(entries[l].tail) == INVALID_NODE_ID ==> Emptied(old(Now()), Now(), n, l)
    {
      var rest;
      rest, run' := Turn(n, schedule, start, run);
      StoreNoHead(n);
      run' := ClearOwnerAndReset(n, l, rest, start, run');
      if schedule == [] && old(entries[l].tail) == INVALID_NODE_ID {
        EmptiedAlone(old(Now()), n);
      }
    }

    method ClearOwnerAndReset(n: NodeId, l: LockId, schedule: Schedule, ghost start: State, ghost run: seq<Step>)
      returns (ghost run': seq<Step>)
      requires Inv(Now()) && n < |pc| && pc[n] == ClearOwner(l)
      requires Shaped(start) && RaceFreeRun(start, run, Now())
      modifies this, entries, nodes
      ensures Inv(Now()) && RaceFreeRun(start, run', Now())
      ensures run <= run' && AccessesOnly(run', |run|, n) && |pc| == old(|pc|)
      ensures Left(n, l)
      ensures l < entries.Length
      ensures Now() == AfterTurns(old(Now()), Some(n), schedule, 4)
    {
      var rest;
      rest, run' := Turn(n, schedule, start, run);
      StoreNoOwner(n);
      run' := ResetRecord(n, rest, start, run');
      IdleIsOut(Now(), n, l);
    }

    /** The end of `release_lock` with a successor: store it as head and owner, wake it. */
    method HandOff(n: NodeId, l: LockId, schedule: Schedule, ghost start: State, ghost run: seq<Step>)
      returns (ghost run': seq<Step>)
      requires Inv(Now()) && n < |pc| && pc[n].PassHead? && pc[n].l == l
      requires Shaped(start) && RaceFreeRun(start, run, Now())
      modifies this, entries, nodes
      ensures Inv(Now()) && RaceFreeRun(start, run', Now())
      ensures run <= run' && AccessesOnly(run', |run|, n) && |pc| == old(|pc|)
      ensures Left(n, l)
      ensures old(pc)[n].succ < nodes.Length && l < entries.Length
      ensures schedule == [] ==> HandedOn(old(Now()), Now(), n, l, old(pc)[n].succ)
      ensures Now() == AfterTurns(old(Now()), Some(n), schedule, 6)
    {
      hide AfterTurn, AfterTurns, Inv, RaceFreeRun;
      var rest;
      InvIsShaped(Now());
      rest, run' := Turn(n, schedule, start, run);
      InvIsShaped(Now());
      TurnsAdd(old(Now()), Some(n), schedule, 1, 5);
      StoreSuccessorAsHead(n);
      run' := HandOffOwner(n, l, rest, start, run');
      if schedule == [] {
        HandedOnAlone(old(Now()), n);
      }
    }

    method HandOffOwner(n: NodeId, l: LockId, schedule: Schedule, ghost start: State, ghost run: seq<Step>)
      returns (ghost run': seq<Step>)
      requires Inv(Now()) && n < |pc| && pc[n].PassOwner? && pc[n].l == l
      requires Shaped(start) && RaceFreeRun(start, run, Now())
      modifies this, entries, nodes
      ensures Inv(Now()) && RaceFreeRun(start, run', Now())
      ensures run <= run' && AccessesOnly(run', |run|, n) && |pc| == old(|pc|)
      ensures Left(n, l)
      ensures old(pc)[n].succ < nodes.Length && l < entries.Length
      ensures Now() == AfterTurns(old(Now()), Some(n), schedule, 5)
    {
      hide AfterTurn, AfterTurns, Inv, RaceFreeRun;
      var rest;
      InvIsShaped(Now());
      rest, run' := Turn(n, schedule, start, run);
      InvIsShaped(Now());
      TurnsAdd(old(Now()), Some(n), schedule, 1, 4);
      StoreSuccessorAsOwner(n);
      run' := WakeAndReset(n, l, rest, start, run');
    }

    method WakeAndReset(n: NodeId, l: LockId, schedule: Schedule, ghost start: State, ghost run: seq<Step>)
      returns (ghost run': seq<Step>)
      requires Inv(Now()) && n < |pc| && pc[n].Wake? && pc[n].l == l
      requires Shaped(start) && RaceFreeRun(start, run, Now())
      modifies this, entries, nodes
      ensures Inv(Now()) && RaceFreeRun(start, run', Now())
      ensures run <= run' && AccessesOnly(run', |run|, n) && |pc| == old(|pc|)
      ensures Left(n, l)
      ensures old(pc)[n].succ < nodes.Length
      ensures Now() == AfterTurns(old(Now()), Some(n), schedule, 4)
    {
      hide AfterTurn, AfterTurns, Inv, RaceFreeRun;
      var rest;
      InvIsShaped(Now());
      rest, run' := Turn(n, schedule, start, run);
      InvIsShaped(Now());
      TurnsAdd(old(Now()), Some(n), schedule, 1, 3);
      WakesNode(Now(), n);
      WakeSuccessor(n);
      run' := ResetRecord(n, rest, start, run');
      IdleIsOut(Now(), n, l);
    }

    /** The end of `release_lock`: next, locked and waiting of the own record are cleared. */
    method ResetRecord(n: NodeId, schedule: Schedule, ghost start: State, ghost run: seq<Step>)
      returns (ghost run': seq<Step>)
      requires Inv(Now()) && n < |pc| && pc[n] == ResetNext
      requires Shaped(start) && RaceFreeRun(start, run, Now())
      modifies this, entries, nodes
      ensures Inv(Now()) && RaceFreeRun(start, run', Now())
      ensures run <= run' && AccessesOnly(run', |run|, n)
      ensures |pc| == old(|pc|) == nodes.Length && pc[n] == Idle
              && nodes[n] == old(nodes[n]).(next := INVALID_NODE_ID, locked := 0, waiting := INVALID_LOCK_ID)
      ensures Now() == AfterTurns(old(Now()), Some(n), schedule, 3)
    {
      var rest;
      rest, run' := Turn(n, schedule, start, run);
      ClearOwnNext(n);
      run' := ResetLockedOn(n, rest, start, run');
    }

    /** The last two of the three stores. */
    method ResetLockedOn(n: NodeId, schedule: Schedule, ghost start: State, ghost run: seq<Step>)
      returns (ghost run': seq<Step>)
      requires Inv(Now()) && n < |pc| && pc[n] == ResetLocked
      requires Shaped(start) && RaceFreeRun(start, run, Now())
      modifies this, entries, nodes
      ensures Inv(Now()) && RaceFreeRun(start, run', Now())
      ensures run <= run' && AccessesOnly(run', |run|, n)
      ensures |pc| == old(|pc|) == nodes.Length && pc[n] == Idle
              && nodes[n] == old(nodes[n]).(locked := 0, waiting := INVALID_LOCK_ID)
      ensures Now() == AfterTurns(old(Now()), Some(n), schedule, 2)
    {
      var rest;
      rest, run' := Turn(n, schedule, start, run);
      ClearOwnLocked(n);
      run' := ResetWaitingOn(n, rest, start, run');
    }

    /** The last of the three stores. */
    method ResetWaitingOn(n: NodeId, schedule: Schedule, ghost start: State, ghost run: seq<Step>)
      returns (ghost run': seq<Step>)
      requires Inv(Now()) && n < |pc| && pc[n] == ResetWaiting
      requires Shaped(start) && RaceFreeRun(start, run, Now())
      modifies this, entries, nodes
      ensures Inv(Now()) && RaceFreeRun(start, run', Now())
      ensures run <= run' && AccessesOnly(run', |run|, n)
      ensures |pc| == old(|pc|) == nodes.Length && pc[n] == Idle
              && nodes[n] == old(nodes[n]).(waiting := INVALID_LOCK_ID)
      ensures Now() == AfterTurns(old(Now()), Some(n), schedule, 1)
    {
      var rest;
      rest, run' := Turn(n, schedule, start, run);
      ClearOwnWaiting(n);
    }

    /**
     `check_grant`: the head of a lock without an owner is returned, and it is the first of
     the queue, whatever the nodes did since.  Other nodes are returned only if they have
     become the head during the check.
     */
    method CheckGrant(l: LockId, schedule: Schedule, ghost start: State, ghost run: seq<Step>)
      returns (grantee: NodeId, rest: Schedule, ghost run': seq<Step>, ghost turns: nat)
      requires Inv(Now()) && l < entries.Length && mgr == Between
      requires Shaped(start) && RaceFreeRun(start, run, Now())
      modifies this, entries, nodes
      ensures Inv(Now()) && RaceFreeRun(start, run', Now()) && |pc| == old(|pc|)
      ensures mgr == if grantee == INVALID_NODE_ID then Between else StoreLocked(l, grantee)
      ensures grantee != INVALID_NODE_ID ==> old(entries[l].owner) == INVALID_NODE_ID && OnTheWay(Now(), l, grantee)
      ensures old(entries[l].owner) == INVALID_NODE_ID && old(entries[l].head) < nodes.Length ==>
                grantee == old(entries[l].head) && l < |old(queue)| && old(queue)[l] != []
                  && grantee == old(queue)[l][0]
      ensures schedule == [] ==>
                (grantee == INVALID_NODE_ID <==>
                  old(entries[l].owner) != INVALID_NODE_ID || old(entries[l].head) >= nodes.Length)
      ensures Now() == AfterTurns(Apply(old(Now()), Check(l)), None, schedule, turns) && rest == Drop(schedule, turns)
    {
      hide AfterTurn, AfterTurns, Inv, RaceFreeRun;
      InvIsShaped(Now());
      NoTurns(Apply(Now(), Check(l)), None, schedule);
      rest := schedule;
      Take(start, run, Now(), Check(l));
      run' := run + [Check(l)];
      var owner := ManagerLoadsOwner(l);
      if owner != INVALID_NODE_ID {
        return INVALID_NODE_ID, rest, run', 0;
      }
      grantee, rest, run' := CheckHead(l, rest, start, run');
      turns := 1;
      if grantee != INVALID_NODE_ID {
        turns := 3;
        TurnsAdd(Apply(old(Now()), Check(l)), None, schedule, 1, 2);
        var waits;
        waits, rest, run' := CheckRecord(l, grantee, rest, start, run');
        if !waits {
          assert false;
        }
      }
    }

    /** The load of the head: an id that is no node is none; a head that is a node is not taken away before the load. */
    method CheckHead(l: LockId, schedule: Schedule, ghost start: State, ghost run: seq<Step>)
      returns (head: NodeId, rest: Schedule, ghost run': seq<Step>)
      requires Inv(Now()) && l < entries.Length && mgr == LoadHead(l)
      requires Shaped(start) && RaceFreeRun(start, run, Now())
      modifies this, entries, nodes
      ensures Inv(Now()) && RaceFreeRun(start, run', Now()) && |pc| == old(|pc|)
      ensures mgr == if head == INVALID_NODE_ID then Between else LoadLocked(l, head)
      ensures old(entries[l].head) < nodes.Length ==>
                head == old(entries[l].head) && l < |old(queue)| && old(queue)[l] != [] && head == old(queue)[l][0]
      ensures schedule == [] ==> rest == [] && (head == INVALID_NODE_ID <==> old(entries[l].head) >= nodes.Length)
      ensures Now() == AfterTurns(old(Now()), None, schedule, 1) && rest == Drop(schedule, 1)
    {
      ghost var first := entries[l].head;
      if first < nodes.Length {
        HeadIsFirst(Now(), l);
        assert OnTheWay(Now(), l, first);
      }
      rest, run' := ManagerTurn(schedule, start, run);
      head := ManagerLoadsHead();
      if head == INVALID_NODE_ID || head >= nodes.Length {
        head := INVALID_NODE_ID;
      }
    }

    /** The two loads of the head's record. */
    method CheckRecord(l: LockId, head: NodeId, schedule: Schedule, ghost start: State, ghost run: seq<Step>)
      returns (waits: bool, rest: Schedule, ghost run': seq<Step>)
      requires Inv(Now()) && mgr == LoadLocked(l, head)
      requires Shaped(start) && RaceFreeRun(start, run, Now())
      modifies this, entries, nodes
      ensures Inv(Now()) && RaceFreeRun(start, run', Now()) && |pc| == old(|pc|)
      ensures waits && mgr == StoreLocked(l, head) && OnTheWay(Now(), l, head)
      ensures Now() == AfterTurns(old(Now()), None, schedule, 2) && rest == Drop(schedule, 2)
    {
      rest, run' := ManagerTurn(schedule, start, run);
      RecordWaits(Now());
      ManagerLoadsLocked();
      waits, rest, run' := CheckWaiting(l, head, rest, start, run');
    }

    /** The load of the lock that the head waits for, and the test of both values. */
    method CheckWaiting(l: LockId, head: NodeId, schedule: Schedule, ghost start: State, ghost run: seq<Step>)
      returns (waits: bool, rest: Schedule, ghost run': seq<Step>)
      requires Inv(Now()) && mgr.LoadWaiting? && mgr.l == l && mgr.h == head
      requires Shaped(start) && RaceFreeRun(start, run, Now())
      modifies this, entries, nodes
      ensures Inv(Now()) && RaceFreeRun(start, run', Now()) && |pc| == old(|pc|)
      ensures waits && mgr == StoreLocked(l, head) && OnTheWay(Now(), l, head)
      ensures Now() == AfterTurns(old(Now()), None, schedule, 1) && rest == Drop(schedule, 1)
    {
      rest, run' := ManagerTurn(schedule, start, run);
      RecordWaits(Now());
      ManagerLoadsWaiting();
      waits := mgr != Between;
    }

    /** `grant_lock`: the node becomes the holder and the recorded owner. */
    method GrantLock(n: NodeId, l: LockId, schedule: Schedule, ghost start: State, ghost run: seq<Step>)
      returns (ghost run': seq<Step>)
      requires Inv(Now()) && mgr == StoreLocked(l, n)
      requires Shaped(start) && RaceFreeRun(start, run, Now())
      modifies this, entries, nodes
      ensures Inv(Now()) && RaceFreeRun(start, run', Now()) && mgr == Between && |pc| == old(|pc|)
      ensures l < entries.Length && l < |queue| && Holder(Now(), l) == Some(n) && entries[l].owner == n
      ensures n < nodes.Length && nodes[n].locked == 2
      ensures Now() == AfterTurns(old(Now()), None, schedule, 2)
      ensures schedule == [] ==>
                && entries[..] == old(entries[..])[l := old(entries[l]).(owner := n)]
                && nodes[..] == old(nodes[..])[n := old(nodes[n]).(locked := 2)]
    {
      var rest;
      rest, run' := ManagerTurn(schedule, start, run);
      ManagerStoresLocked();
      rest, run' := ManagerTurn(rest, start, run');
      GrantIsStored(Now());
      ManagerStoresOwner();
      if schedule == [] {
        GrantedAlone(old(Now()));
      }
    }
  }
}
