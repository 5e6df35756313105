/**
 The two-tier lock over CAS slots as code: the methods read and write the slots and the
 mutexes in place, and let the other participants run before each access.
 */
module TwoTierCluster {
  import opened LockTypes
  import opened TwoTierProtocol
  import opened TwoTierInvariant
  import opened TwoTierMisuse
  import opened TwoTierScan
  import opened TwoTierTheorems
  import opened TwoTierTurns

  /** How a call ends; a blocking call may still wait for the mutex where the schedule ends. */
  datatype Outcome = Returned(result: LockResult) | StillBlocked

  /** How an undisturbed attempt at the mutex ends. */
  function TakenAlone(s: State, t: ThreadId): Outcome
    requires Shaped(s) && t < |s.threads| && s.threads[t].pc.AtMutex?
  {
    var AtMutex(l, timed, blocking) := s.threads[t].pc;
    match MutexOf(s, t, l)
    case None => Returned(Success)
    case Some(o) => if !blocking then Returned(Busy) else if o == t then Returned(Unknown) else StillBlocked
  }

  predicate NoneWaits(row: seq<Slot>, upTo: nat)
    requires upTo <= |row|
  {
    forall j :: 0 <= j < upTo ==> row[j] != SlotWaiting
  }

  /** `n` is the first waiting node of the row, or no node where none waits. */
  predicate IsFirstWaiting(row: seq<Slot>, n: NodeId)
  {
    if n == INVALID_NODE_ID then NoneWaits(row, |row|)
    else n < |row| && row[n] == SlotWaiting && NoneWaits(row, n)
  }

  /** Nobody holds the lock of the row, and somebody waits for it. */
  predicate Grantable(row: seq<Slot>)
  {
    SlotLocked !in row && SlotWaiting in row
  }

  /** What an undisturbed look at a row of slots leaves: the first that waits is locked if none was locked. */
  ghost predicate Served(row: seq<Slot>, row': seq<Slot>)
  {
    if Grantable(row) then exists n: NodeId :: IsFirstWaiting(row, n) && n < |row| && row' == row[n := SlotLocked]
    else row' == row
  }

  /** What an undisturbed scan has left after the first `lid` locks. */
  ghost predicate ScannedAlone(s: State, t: State, lid: nat)
    requires |s.stats.byLock| == |s.slots| == |t.slots| == |t.stats.byLock|
  {
    forall l :: 0 <= l < |s.slots| ==>
      if l < lid then
        Served(s.slots[l], t.slots[l]) && t.stats.byLock[l] == s.stats.byLock[l] + One(Grantable(s.slots[l]))
      else t.slots[l] == s.slots[l] && t.stats.byLock[l] == s.stats.byLock[l]
  }

  /** What a scan that has finished the first `lid` locks did to the counters since `start`. */
  predicate Scanned(start: Stats, now: Stats, lid: nat)
    requires |start.byLock| == |now.byLock|
  {
    && now.cycles == start.cycles && now.idle == start.idle
    && start.total <= now.total <= start.total + lid
    && (forall l :: 0 <= l < |now.byLock| ==>
          start.byLock[l] <= now.byLock[l] <= start.byLock[l] + (if l < lid then 1 else 0))
  }

  class Cluster {
    var slots: seq<seq<Slot>>
    var mutexes: seq<seq<Option<ThreadId>>>
    var threads: seq<Thread>
    var mgr: ManagerPc
    var anyWork: bool
    var stats: Stats
    var grants: seq<nat>
    var releases: seq<nat>
    var wasReset: bool

    function Now(): State
      reads this
    {
      State(slots, mutexes, threads, mgr, anyWork, stats, grants, releases, wasReset)
    }

    constructor (nodeCount: nat, lockCount: nat, homes: seq<NodeId>)
      requires 0 < nodeCount && 0 < lockCount && ProperHomes(homes, nodeCount)
      ensures Now() == InitState(nodeCount, lockCount, homes) && Inv(Now())
    {
      var s := InitState(nodeCount, lockCount, homes);
      slots, mutexes, threads, mgr := s.slots, s.mutexes, s.threads, s.mgr;
      anyWork, stats, grants, releases, wasReset := s.anyWork, s.stats, s.grants, s.releases, s.wasReset;
      new;
      InitInv(nodeCount, lockCount, homes);
    }

    /** Any step of any participant. */
    method Perform(st: Step)
      requires Shaped(Now()) && Enabled(Now(), st)
      modifies this
      ensures Now() == Apply(old(Now()), st)
    {
      var s := Apply(Now(), st);
      slots, mutexes, threads, mgr := s.slots, s.mutexes, s.threads, s.mgr;
      anyWork, stats, grants, releases, wasReset := s.anyWork, s.stats, s.grants, s.releases, s.wasReset;
    }

    /** The other participants run for the first part of the schedule, if there is one. */
    method Yield(me: Option<ThreadId>, schedule: Schedule, ghost start: State, ghost run: seq<Step>)
      returns (rest: Schedule, ghost run': seq<Step>)
      requires Inv(Now()) && (me.Some? ==> me.value < |threads|)
      requires Shaped(start) && IsRun(start, run, Now())
      modifies this
      ensures Inv(Now()) && IsRun(start, run', Now()) && SameSize(old(Now()), Now())
      ensures me.Some? ==> threads[me.value] == old(threads)[me.value]
      ensures me.None? ==> mgr == old(mgr) && stats == old(stats) && anyWork == old(anyWork)
      ensures if schedule == [] then rest == [] && Now() == old(Now()) else rest == schedule[1..]
      ensures OwnSteps(run', me) == OwnSteps(run, me)
      ensures Now() == AfterOthers(old(Now()), me, Head(schedule)) && rest == Drop(schedule, 1)
    {
      run' := run;
      if schedule == [] {
        return [], run';
      }
      rest := schedule[1..];
      var steps := schedule[0];
      for i := 0 to |steps|
        invariant Inv(Now()) && IsRun(start, run', Now()) && SameSize(old(Now()), Now())
        invariant me.Some? ==> threads[me.value] == old(threads)[me.value]
        invariant me.None? ==> mgr == old(mgr) && stats == old(stats) && anyWork == old(anyWork)
        invariant OwnSteps(run', me) == OwnSteps(run, me)
        invariant Now() == AfterOthers(old(Now()), me, steps[..i])
      {
        var st := steps[i];
        assert steps[..i + 1] == steps[..i] + [st];
        AfterOneMore(old(Now()), me, steps[..i], st);
        if Enabled(Now(), st) && !By(st, me) {
          Take(start, run', Now(), st);
          OthersKeepMe(Now(), st, me);
          OthersDoNotCount(run', st, me);
          Perform(st);
          run' := run' + [st];
        }
      }
      assert steps[..|steps|] == steps;
    }

    // -- the manager -----------------------------------------------------------------------

    /** The others run; then the manager is about to make its next access. */
    method ManagerTurn(schedule: Schedule, ghost start: State, ghost run: seq<Step>)
      returns (rest: Schedule, ghost run': seq<Step>)
      requires Inv(Now()) && mgr != Between && Shaped(start) && IsRun(start, run, Now())
      modifies this
      ensures Inv(Now()) && SameSize(old(Now()), Now())
      ensures mgr == old(mgr) && stats == old(stats) && anyWork == old(anyWork)
      ensures Inv(ManagerAccess(Now())) && IsRun(start, run', ManagerAccess(Now()))
      ensures schedule == [] ==> rest == [] && Now() == old(Now())
      ensures Begun(run') == Begun(run)
      ensures ManagerAccess(Now()) == AfterTurns(old(Now()), None, 0, schedule, 1) && rest == Drop(schedule, 1)
    {
      rest, run' := Yield(None, schedule, start, run);
      OneTurn(old(Now()), None, 0, schedule, Now());
      Take(start, run', Now(), Manage);
      run' := run' + [Manage];
    }

    /** Where a pass of `check_grant` goes on after it has read `v`. */
    function AfterRead(m: ManagerPc, v: Slot): ManagerPc
      requires m.FirstPass? || m.SecondPass?
      reads this
    {
      if m.FirstPass? then
        if v == SlotLocked then NextLock(Now(), m.l)
        else if m.i + 1 < |mutexes| then FirstPass(m.l, m.i + 1) else SecondPass(m.l, 0)
      else
        if v == SlotWaiting then Exchange(m.l, m.i)
        else if m.i + 1 < |mutexes| then SecondPass(m.l, m.i + 1) else NextLock(Now(), m.l)
    }

    /** `read_slot_state` in either pass. */
    method ReadSlotState(l: LockId, i: NodeId, schedule: Schedule, ghost start: State, ghost run: seq<Step>)
      returns (v: Slot, rest: Schedule, ghost run': seq<Step>)
      requires Inv(Now()) && mgr in {FirstPass(l, i), SecondPass(l, i)} && Shaped(start) && IsRun(start, run, Now())
      modifies this
      ensures Inv(Now()) && IsRun(start, run', Now()) && SameSize(old(Now()), Now())
      ensures stats == old(stats) && anyWork == old(anyWork)
      ensures v == slots[l][i] && mgr == AfterRead(old(mgr), v)
      ensures schedule == [] ==> rest == [] && slots == old(slots)
      ensures Begun(run') == Begun(run)
      ensures Now() == AfterTurns(old(Now()), None, 0, schedule, 1) && rest == Drop(schedule, 1)
    {
      hide AfterTurn, AfterTurns;
      rest, run' := ManagerTurn(schedule, start, run);
      ghost var before := Now();
      v := slots[l][i];
      mgr := AfterRead(mgr, v);
      assert Now() == ManagerAccess(before);
    }

    /** The first loop of `check_grant`: is any slot locked? */
    method NoneIsLocked(l: LockId, schedule: Schedule, ghost start: State, ghost run: seq<Step>)
      returns (free: bool, rest: Schedule, ghost run': seq<Step>, ghost turns: nat)
      requires Inv(Now()) && mgr == FirstPass(l, 0) && Shaped(start) && IsRun(start, run, Now())
      modifies this
      ensures Inv(Now()) && IsRun(start, run', Now()) && SameSize(old(Now()), Now())
      ensures stats == old(stats) && anyWork == old(anyWork)
      ensures mgr == if free then SecondPass(l, 0) else NextLock(Now(), l)
      ensures schedule == [] ==> rest == [] && slots == old(slots) && (free <==> SlotLocked !in slots[l])
      ensures Begun(run') == Begun(run)
      ensures Now() == AfterTurns(old(Now()), None, 0, schedule, turns) && rest == Drop(schedule, turns)
    {
      hide AfterTurn, AfterTurns;
      NoTurns(Now(), None, 0, schedule);
      rest, run', turns := schedule, run, 0;
      var i: nat := 0;
      while i < |mutexes|
        invariant Inv(Now()) && IsRun(start, run', Now()) && SameSize(old(Now()), Now())
        invariant 0 <= i <= |mutexes| && mgr == if i < |mutexes| then FirstPass(l, i) else SecondPass(l, 0)
        invariant stats == old(stats) && anyWork == old(anyWork) && Begun(run') == Begun(run)
        invariant schedule == [] ==> rest == [] && slots == old(slots)
        invariant Now() == AfterTurns(old(Now()), None, 0, schedule, turns) && rest == Drop(schedule, turns)
        decreases Nodes(old(Now())) - i
      {
        var state;
        state, rest, run' := ReadSlotState(l, i, rest, start, run');
        TurnsAdd(old(Now()), None, 0, schedule, turns, 1);
        turns := turns + 1;
        if state == SlotLocked {
          return false, rest, run', turns;
        }
        i := i + 1;
      }
      forall j | 0 <= j < |slots[l]| ensures slots[l][j] != SlotLocked {
        assert !IsLocked(Now(), l, j);
      }
      return true, rest, run', turns;
    }

    /** The second loop of `check_grant`: the first slot that waits. */
    method FirstWaiting(l: LockId, schedule: Schedule, ghost start: State, ghost run: seq<Step>)
      returns (grantee: NodeId, rest: Schedule, ghost run': seq<Step>, ghost turns: nat)
      requires Inv(Now()) && mgr == SecondPass(l, 0) && Shaped(start) && IsRun(start, run, Now())
      requires Nodes(Now()) <= INVALID_NODE_ID
      modifies this
      ensures Inv(Now()) && IsRun(start, run', Now()) && SameSize(old(Now()), Now())
      ensures stats == old(stats) && anyWork == old(anyWork)
      ensures mgr == if grantee == INVALID_NODE_ID then NextLock(Now(), l) else Exchange(l, grantee)
      ensures schedule == [] ==> rest == [] && slots == old(slots) && IsFirstWaiting(slots[l], grantee)
      ensures Begun(run') == Begun(run)
      ensures Now() == AfterTurns(old(Now()), None, 0, schedule, turns) && rest == Drop(schedule, turns)
    {
      hide AfterTurn, AfterTurns, IsRun;
      NoTurns(Now(), None, 0, schedule);
      rest, run', turns := schedule, run, 0;
      var i: nat := 0;
      while i < |mutexes|
        invariant Inv(Now()) && IsRun(start, run', Now()) && SameSize(old(Now()), Now())
        invariant 0 <= i <= |mutexes| && mgr == if i < |mutexes| then SecondPass(l, i) else NextLock(Now(), l)
        invariant stats == old(stats) && anyWork == old(anyWork) && Begun(run') == Begun(run)
        invariant schedule == [] ==> rest == [] && slots == old(slots) && NoneWaits(slots[l], i)
        invariant Now() == AfterTurns(old(Now()), None, 0, schedule, turns) && rest == Drop(schedule, turns)
        decreases Nodes(old(Now())) - i
      {
        var state;
        state, rest, run' := ReadSlotState(l, i, rest, start, run');
        TurnsAdd(old(Now()), None, 0, schedule, turns, 1);
        turns := turns + 1;
        if state == SlotWaiting {
          return i, rest, run', turns;
        }
        i := i + 1;
      }
      return INVALID_NODE_ID, rest, run', turns;
    }

    /** `check_grant`. */
    method CheckGrant(l: LockId, schedule: Schedule, ghost start: State, ghost run: seq<Step>)
      returns (grantee: NodeId, rest: Schedule, ghost run': seq<Step>, ghost turns: nat)
      requires Inv(Now()) && mgr == FirstPass(l, 0) && Shaped(start) && IsRun(start, run, Now())
      requires Nodes(Now()) <= INVALID_NODE_ID
      modifies this
      ensures Inv(Now()) && IsRun(start, run', Now()) && SameSize(old(Now()), Now())
      ensures stats == old(stats) && anyWork == old(anyWork)
      ensures mgr == if grantee == INVALID_NODE_ID then NextLock(Now(), l) else Exchange(l, grantee)
      ensures schedule == [] ==>
                rest == [] && slots == old(slots) &&
                if SlotLocked in slots[l] then grantee == INVALID_NODE_ID else IsFirstWaiting(slots[l], grantee)
      ensures Begun(run') == Begun(run)
      ensures Now() == AfterTurns(old(Now()), None, 0, schedule, turns) && rest == Drop(schedule, turns)
    {
      hide AfterTurn, AfterTurns;
      var free;
      free, rest, run', turns := NoneIsLocked(l, schedule, start, run);
      if !free {
        return INVALID_NODE_ID, rest, run', turns;
      }
      ghost var more;
      grantee, rest, run', more := FirstWaiting(l, rest, start, run');
      TurnsAdd(old(Now()), None, 0, schedule, turns, more);
      turns := turns + more;
    }

    /** The exchange of "waiting" for "locked". */
    method ExchangeSlot(n: NodeId, l: LockId) returns (ok: bool)
      requires Shaped(Now()) && mgr == Exchange(l, n)
      modifies this`slots, this`grants, this`mgr
      ensures Now() == ManagerAccess(old(Now())) && (ok <==> old(slots)[l][n] == SlotWaiting)
    {
      ok := slots[l][n] == SlotWaiting;
      if ok {
        slots := slots[l := slots[l][n := SlotLocked]];
        grants := grants[l := grants[l] + 1];
        mgr := Count(l);
      } else {
        mgr := NextLock(Now(), l);
      }
    }

    /** `grant_lock`: exchange "waiting" for "locked"; it fails if the node has withdrawn. */
    method GrantLock(n: NodeId, l: LockId, schedule: Schedule, ghost start: State, ghost run: seq<Step>)
      returns (r: LockResult, rest: Schedule, ghost run': seq<Step>)
      requires Inv(Now()) && mgr == Exchange(l, n) && Shaped(start) && IsRun(start, run, Now())
      modifies this
      ensures Inv(Now()) && IsRun(start, run', Now()) && SameSize(old(Now()), Now())
      ensures stats == old(stats) && anyWork == old(anyWork)
      ensures r in {Success, Busy} && mgr == if r == Success then Count(l) else NextLock(Now(), l)
      ensures r == Success ==> forall i :: 0 <= i < Nodes(Now()) ==> (slots[l][i] == SlotLocked <==> i == n)
      ensures schedule == [] ==> rest == [] && (r == Success <==> old(slots)[l][n] == SlotWaiting)
      ensures schedule == [] ==>
                slots == if r == Success then old(slots)[l := old(slots)[l][n := SlotLocked]] else old(slots)
      ensures Begun(run') == Begun(run)
      ensures Now() == AfterTurns(old(Now()), None, 0, schedule, 1) && rest == Drop(schedule, 1)
    {
      hide AfterTurn, AfterTurns;
      rest, run' := ManagerTurn(schedule, start, run);
      ghost var before := Now();
      ManagerAccessShaped(before);
      var exchanged := ExchangeSlot(n, l);
      if exchanged {
        ExchangeLocksOnly(before);
      }
      r := if exchanged then Success else Busy;
    }

    method CountGrant(l: LockId, schedule: Schedule, ghost start: State, ghost run: seq<Step>)
      returns (rest: Schedule, ghost run': seq<Step>)
      requires Inv(Now()) && mgr == Count(l) && Shaped(start) && IsRun(start, run, Now())
      modifies this
      ensures Inv(Now()) && IsRun(start, run', Now()) && SameSize(old(Now()), Now())
      ensures mgr == NextLock(Now(), l) && stats == Counted(old(stats), l) && anyWork
      ensures schedule == [] ==> rest == []
      ensures Begun(run') == Begun(run)
      ensures schedule == [] ==> slots == old(slots)
      ensures Now() == AfterTurns(old(Now()), None, 0, schedule, 1) && rest == Drop(schedule, 1)
    {
      hide AfterTurn, AfterTurns;
      rest, run' := ManagerTurn(schedule, start, run);
      ghost var before := Now();
      anyWork := true;
      stats := Counted(stats, l);
      mgr := NextLock(Now(), l);
      assert Now() == ManagerAccess(before);
    }

    /** Grant, and count a grant that succeeded. */
    method GrantAndCount(n: NodeId, l: LockId, schedule: Schedule, ghost start: State, ghost run: seq<Step>)
      returns (counted: bool, rest: Schedule, ghost run': seq<Step>)
      requires Inv(Now()) && mgr == Exchange(l, n) && Shaped(start) && IsRun(start, run, Now())
      modifies this
      ensures Inv(Now()) && IsRun(start, run', Now()) && SameSize(old(Now()), Now())
      ensures mgr == NextLock(Now(), l)
      ensures stats == if counted then Counted(old(stats), l) else old(stats)
      ensures anyWork == (counted || old(anyWork))
      ensures schedule == [] ==> rest == [] && (counted <==> old(slots)[l][n] == SlotWaiting)
      ensures Begun(run') == Begun(run)
      ensures schedule == [] ==>
                slots == if counted then old(slots)[l := old(slots)[l][n := SlotLocked]] else old(slots)
      ensures Now() == AfterTurns(old(Now()), None, 0, schedule, if counted then 2 else 1)
      ensures rest == Drop(schedule, if counted then 2 else 1)
    {
      hide AfterTurn, AfterTurns;
      var rc;
      rc, rest, run' := GrantLock(n, l, schedule, start, run);
      if rc != Success {
        return false, rest, run';
      }
      rest, run' := CountGrant(l, rest, start, run');
      TurnsAdd(old(Now()), None, 0, schedule, 1, 1);
      return true, rest, run';
    }

    /** One turn of the scan loop. */
    method ScanLock(l: LockId, schedule: Schedule, ghost start: State, ghost run: seq<Step>)
      returns (counted: bool, rest: Schedule, ghost run': seq<Step>, ghost turns: nat)
      requires Inv(Now()) && mgr == FirstPass(l, 0) && Nodes(Now()) <= INVALID_NODE_ID
      requires Shaped(start) && IsRun(start, run, Now())
      modifies this
      ensures Inv(Now()) && IsRun(start, run', Now()) && SameSize(old(Now()), Now())
      ensures mgr == NextLock(Now(), l)
      ensures stats == if counted then Counted(old(stats), l) else old(stats)
      ensures anyWork == (counted || old(anyWork))
      ensures schedule == [] ==> rest == [] && (counted <==> Grantable(old(slots)[l]))
      ensures Begun(run') == Begun(run)
      ensures schedule == [] ==> slots == old(slots)[l := slots[l]] && Served(old(slots)[l], slots[l])
      ensures Now() == AfterTurns(old(Now()), None, 0, schedule, turns) && rest == Drop(schedule, turns)
    {
      hide AfterTurn, AfterTurns, IsRun;
      var grantee;
      grantee, rest, run', turns := CheckGrant(l, schedule, start, run);
      if grantee == INVALID_NODE_ID {
        return false, rest, run', turns;
      }
      counted, rest, run' := GrantAndCount(grantee, l, rest, start, run');
      TurnsAdd(old(Now()), None, 0, schedule, turns, if counted then 2 else 1);
      turns := turns + if counted then 2 else 1;
    }

    function Counted(c: Stats, l: LockId): Stats
      requires l < |c.byLock|
    {
      c.(total := c.total + 1, byLock := c.byLock[l := c.byLock[l] + 1])
    }

    method StartScan() returns (ghost run: seq<Step>)
      requires Inv(Now()) && mgr == Between
      modifies this
      ensures Inv(Now()) && IsRun(old(Now()), run, Now()) && SameSize(old(Now()), Now())
      ensures mgr == FirstPass(0, 0) && !anyWork && stats == old(stats)
      ensures Begun(run) == 1 && slots == old(slots)
      ensures Now() == Apply(old(Now()), BeginScan)
    {
      Take(Now(), [], Now(), BeginScan);
      run := [BeginScan];
      assert [] + run == run;
      anyWork := false;
      mgr := FirstPass(0, 0);
    }

    method FinishScan(schedule: Schedule, ghost start: State, ghost run: seq<Step>) returns (ghost run': seq<Step>)
      requires Inv(Now()) && mgr == EndScan && Shaped(start) && IsRun(start, run, Now())
      modifies this
      ensures Inv(Now()) && IsRun(start, run', Now()) && SameSize(old(Now()), Now()) && mgr == Between
      ensures stats == old(stats).(cycles := old(stats).cycles + 1, idle := old(stats).idle + (if old(anyWork) then 0 else 1))
      ensures Begun(run') == Begun(run)
      ensures schedule == [] ==> slots == old(slots)
      ensures Now() == AfterTurns(old(Now()), None, 0, schedule, 1)
    {
      hide AfterTurn, AfterTurns;
      var rest;
      rest, run' := ManagerTurn(schedule, start, run);
      ghost var before := Now();
      stats := stats.(cycles := stats.cycles + 1, idle := stats.idle + (if anyWork then 0 else 1));
      mgr := Between;
      assert Now() == ManagerAccess(before);
    }

    /** The counters after one more lock of the scan. */
    lemma ScannedOneMore(start: Stats, before: Stats, now: Stats, lid: nat, counted: bool)
      requires |start.byLock| == |before.byLock| && lid < |start.byLock| && Scanned(start, before, lid)
      requires now == if counted then Counted(before, lid) else before
      ensures |start.byLock| == |now.byLock| && Scanned(start, now, lid + 1)
    {
    }

    /** One turn of the scan loop, and what the turns up to it did to the counters. */
    method ScanOneMore(lid: nat, schedule: Schedule, ghost start: State, ghost run: seq<Step>)
      returns (rest: Schedule, ghost run': seq<Step>, ghost turns: nat)
      requires Inv(Now()) && mgr == FirstPass(lid, 0) && Nodes(Now()) <= INVALID_NODE_ID
      requires Shaped(start) && IsRun(start, run, Now()) && SameSize(start, Now()) && Scanned(start.stats, stats, lid)
      requires anyWork <==> stats.total != start.stats.total
      modifies this
      ensures Inv(Now()) && IsRun(start, run', Now()) && SameSize(old(Now()), Now())
      ensures mgr == NextLock(Now(), lid) && Scanned(start.stats, stats, lid + 1)
      ensures anyWork <==> stats.total != start.stats.total
      ensures Begun(run') == Begun(run)
      ensures schedule == [] ==> rest == []
      ensures schedule == [] && ScannedAlone(start, old(Now()), lid) ==> ScannedAlone(start, Now(), lid + 1)
      ensures Now() == AfterTurns(old(Now()), None, 0, schedule, turns) && rest == Drop(schedule, turns)
    {
      hide AfterTurn, AfterTurns;
      var counted;
      ghost var before := stats;
      counted, rest, run', turns := ScanLock(lid, schedule, start, run);
      ScannedOneMore(start.stats, before, stats, lid, counted);
    }

    /** `run_single_scan`: over all locks, then the cycle counters. */
    method RunSingleScan(schedule: Schedule) returns (ghost run: seq<Step>, ghost turns: nat)
      requires Inv(Now()) && mgr == Between && Nodes(Now()) <= INVALID_NODE_ID
      modifies this
      ensures Inv(Now()) && IsRun(old(Now()), run, Now()) && SameSize(old(Now()), Now()) && mgr == Between
      ensures stats.cycles == old(stats.cycles) + 1
      ensures stats.idle == old(stats.idle) + (if stats.total == old(stats.total) then 1 else 0)
      ensures Scanned(old(stats), stats.(cycles := old(stats.cycles), idle := old(stats.idle)), Locks(Now()))
      ensures forall l :: 0 <= l < Locks(Now()) ==> VisitCount(old(Now()), run, Now(), l) == 1
      ensures schedule == [] ==> ScannedAlone(old(Now()), Now(), Locks(Now()))
      ensures Now() == AfterTurns(Apply(old(Now()), BeginScan), None, 0, schedule, turns)
    {
      hide AfterTurn, AfterTurns, IsRun;
      ghost var start := Now();
      run := StartScan();
      ghost var begun := Now();
      NoTurns(begun, None, 0, schedule);
      turns := 0;
      var rest := schedule;
      var lid: nat := 0;
      while lid < |slots|
        invariant Inv(Now()) && IsRun(start, run, Now()) && SameSize(start, Now())
        invariant 0 <= lid <= |slots| && mgr == if lid < |slots| then FirstPass(lid, 0) else EndScan
        invariant Scanned(start.stats, stats, lid)
        invariant anyWork <==> stats.total != start.stats.total
        invariant Begun(run) == 1
        invariant Now() == AfterTurns(begun, None, 0, schedule, turns) && rest == Drop(schedule, turns)
        invariant schedule == [] ==> rest == [] && ScannedAlone(start, Now(), lid)
        decreases |slots| - lid
      {
        ghost var more;
        rest, run, more := ScanOneMore(lid, rest, start, run);
        TurnsAdd(begun, None, 0, schedule, turns, more);
        turns := turns + more;
        lid := lid + 1;
      }
      run := FinishScan(rest, start, run);
      TurnsAdd(begun, None, 0, schedule, turns, 1);
      turns := turns + 1;
      ScansVisitAll(start, run, Now());
    }

    /** `reset_stats`, at any moment: the counters start again from zero. */
    method ResetStatistics() returns (ghost run: seq<Step>)
      requires Inv(Now())
      modifies this`stats, this`wasReset
      ensures Inv(Now()) && IsRun(old(Now()), run, Now())
      ensures stats.total == stats.cycles == stats.idle == 0 && |stats.byLock| == Locks(Now())
      ensures forall l :: 0 <= l < Locks(Now()) ==> stats.byLock[l] == 0
    {
      Take(Now(), [], Now(), ResetStats);
      run := [ResetStats];
      assert [] + run == run;
      stats, wasReset := Stats(0, Zeros(|slots|), 0, 0), true;
    }

    // -- the threads -----------------------------------------------------------------------

    /** The others run; then thread `t` is about to make its next access. */
    method Turn(t: ThreadId, giveUp: bool, ghost patience: nat, schedule: Schedule, ghost start: State, ghost run: seq<Step>)
      returns (rest: Schedule, ghost run': seq<Step>)
      requires Inv(Now()) && t < |threads| && threads[t].pc != Ready && !threads[t].pc.AtMutex?
      requires giveUp == GivesUp(threads[t].pc, patience)
      requires Shaped(start) && IsRun(start, run, Now())
      modifies this
      ensures Inv(Now()) && SameSize(old(Now()), Now()) && threads[t] == old(threads)[t]
      ensures Inv(RunThread(Now(), t, giveUp)) && IsRun(start, run', RunThread(Now(), t, giveUp))
      ensures Accesses(run', t) == Accesses(run, t) + 1
      ensures schedule == [] ==> rest == [] && Now() == old(Now())
      ensures RunThread(Now(), t, giveUp) == AfterTurns(old(Now()), Some(t), patience, schedule, 1)
              && rest == Drop(schedule, 1)
    {
      rest, run' := Yield(Some(t), schedule, start, run);
      OneTurn(old(Now()), Some(t), patience, schedule, Now());
      Take(start, run', Now(), Run(t, giveUp));
      run' := run' + [Run(t, giveUp)];
    }

    method MoveTo(t: ThreadId, p: Pc)
      requires t < |threads|
      modifies this`threads
      ensures threads == old(threads)[t := old(threads)[t].(pc := p)]
    {
      threads := threads[t := threads[t].(pc := p)];
    }

    method ReturnFrom(t: ThreadId, r: LockResult)
      requires t < |threads|
      modifies this`threads
      ensures threads == old(threads)[t := old(threads)[t].(pc := Ready, result := r)]
    {
      threads := threads[t := threads[t].(pc := Ready, result := r)];
    }

    predicate MutexBlocks(t: ThreadId, l: LockId)
      requires Shaped(Now()) && t < |threads| && l < |slots|
      reads this
    {
      MutexOf(Now(), t, l) !in {None, Some(t)}
    }

    /** The blocking call waits while another thread owns the mutex. */
    method WaitForMutex(t: ThreadId, l: LockId, ghost patience: nat, schedule: Schedule, ghost start: State, ghost run: seq<Step>)
      returns (rest: Schedule, ghost run': seq<Step>, ghost turns: nat)
      requires Inv(Now()) && t < |threads| && threads[t].pc.AtMutex? && threads[t].pc.l == l
      requires Shaped(start) && IsRun(start, run, Now())
      modifies this
      ensures Inv(Now()) && IsRun(start, run', Now()) && SameSize(old(Now()), Now())
      ensures threads[t] == old(threads)[t]
      ensures threads[t].pc.blocking && MutexBlocks(t, l) ==> rest == []
      ensures schedule == [] ==> rest == [] && Now() == old(Now())
      ensures rest == Drop(schedule, turns + 1)
      ensures Now() == AfterOthers(AfterTurns(old(Now()), Some(t), patience, schedule, turns), Some(t), Head(Drop(schedule, turns)))
    {
      hide AfterTurn, AfterTurns, IsRun;
      NoTurns(Now(), Some(t), patience, schedule);
      turns := 0;
      ghost var here := Now();
      rest, run' := Yield(Some(t), schedule, start, run);
      while rest != [] && threads[t].pc.blocking && MutexBlocks(t, l)
        invariant Inv(Now()) && IsRun(start, run', Now()) && SameSize(old(Now()), Now())
        invariant threads[t] == old(threads)[t]
        invariant schedule == [] ==> rest == [] && Now() == old(Now())
        invariant here == AfterTurns(old(Now()), Some(t), patience, schedule, turns)
        invariant Now() == AfterOthers(here, Some(t), Head(Drop(schedule, turns))) && rest == Drop(schedule, turns + 1)
        decreases |rest|
      {
        OneTurn(here, Some(t), patience, Drop(schedule, turns), Now());
        TurnsAdd(old(Now()), Some(t), patience, schedule, turns, 1);
        turns := turns + 1;
        here := Now();
        DropsAdd(schedule, turns, 1);
        rest, run' := Yield(Some(t), rest, start, run');
      }
    }

    /** The error-checking mutex where it does not block: it is taken if it is free, and refused otherwise. */
    method LockOrRefuse(t: ThreadId, l: LockId, ghost start: State, ghost run: seq<Step>)
      returns (r: LockResult, ghost run': seq<Step>)
      requires Inv(Now()) && t < |threads| && threads[t].pc.AtMutex? && threads[t].pc.l == l
      requires !(threads[t].pc.blocking && MutexBlocks(t, l))
      requires Shaped(start) && IsRun(start, run, Now())
      modifies this`mutexes, this`threads
      ensures Inv(Now()) && IsRun(start, run', Now()) && SameSize(old(Now()), Now())
      ensures r == if MutexOf(old(Now()), t, l) == None then Success
              else if old(threads)[t].pc.blocking then Unknown else Busy
      ensures r == Success ==>
                threads[t] == old(threads)[t].(pc := AtRequest(l, old(threads)[t].pc.timed))
                  && MutexOf(Now(), t, l) == Some(t)
      ensures r != Success ==> mutexes == old(mutexes) && threads[t] == old(threads)[t].(pc := Ready, result := r)
      ensures Enabled(old(Now()), Run(t, false)) && Now() == Apply(old(Now()), Run(t, false))
    {
      var home, timed, blocking := threads[t].home, threads[t].pc.timed, threads[t].pc.blocking;
      Take(start, run, Now(), Run(t, false));
      run' := run + [Run(t, false)];
      if mutexes[home][l] == None {
        mutexes := mutexes[home := mutexes[home][l := Some(t)]];
        MoveTo(t, AtRequest(l, timed));
        return Success, run';
      }
      r := if blocking then Unknown else Busy;
      ReturnFrom(t, r);
    }

    /** `LocalLockArray::acquire` and `try_acquire` on the mutex of the thread's node. */
    method TakeMutex(t: ThreadId, l: LockId, ghost patience: nat, schedule: Schedule, ghost start: State, ghost run: seq<Step>)
      returns (outcome: Outcome, rest: Schedule, ghost run': seq<Step>, ghost turns: nat)
      requires Inv(Now()) && t < |threads| && threads[t].pc.AtMutex? && threads[t].pc.l == l
      requires Shaped(start) && IsRun(start, run, Now())
      modifies this
      ensures Inv(Now()) && IsRun(start, run', Now()) && SameSize(old(Now()), Now())
      ensures outcome == Returned(Success) ==>
                threads[t] == old(threads)[t].(pc := AtRequest(l, old(threads)[t].pc.timed))
                  && MutexOf(Now(), t, l) == Some(t)
      ensures outcome == StillBlocked ==>
                threads[t] == old(threads)[t] && threads[t].pc.blocking && MutexBlocks(t, l)
      ensures outcome.Returned? && outcome.result != Success ==>
                outcome.result == (if old(threads)[t].pc.blocking then Unknown else Busy)
                && threads[t] == old(threads)[t].(pc := Ready, result := outcome.result)
      ensures schedule == [] ==> rest == [] && outcome == TakenAlone(old(Now()), t)
      ensures Now() == AfterTurns(old(Now()), Some(t), patience, schedule, turns) && rest == Drop(schedule, turns)
    {
      hide AfterTurn, AfterTurns;
      rest, run', turns := WaitForMutex(t, l, patience, schedule, start, run);
      OneTurn(AfterTurns(old(Now()), Some(t), patience, schedule, turns), Some(t), patience, Drop(schedule, turns), Now());
      TurnsAdd(old(Now()), Some(t), patience, schedule, turns, 1);
      turns := turns + 1;
      if threads[t].pc.blocking && MutexBlocks(t, l) {
        return StillBlocked, rest, run', turns;
      }
      var r;
      r, run' := LockOrRefuse(t, l, start, run');
      return Returned(r), rest, run', turns;
    }

    /** `acquire_lock` of the algorithm: write "waiting". */
    method WriteWaiting(t: ThreadId, l: LockId, ghost patience: nat, schedule: Schedule, ghost start: State, ghost run: seq<Step>)
      returns (rest: Schedule, ghost run': seq<Step>)
      requires Inv(Now()) && t < |threads| && threads[t].pc.AtRequest? && threads[t].pc.l == l
      requires Shaped(start) && IsRun(start, run, Now())
      modifies this
      ensures Inv(Now()) && IsRun(start, run', Now()) && SameSize(old(Now()), Now())
      ensures threads[t] == old(threads)[t].(pc := AtPoll(l, old(threads)[t].pc.timed, 0))
      ensures SlotOf(Now(), t, l) == SlotWaiting
      ensures schedule == [] ==> rest == []
      ensures Now() == AfterTurns(old(Now()), Some(t), patience, schedule, 1) && rest == Drop(schedule, 1)
    {
      rest, run' := Turn(t, false, patience, schedule, start, run);
      slots := slots[l := slots[l][threads[t].home := SlotWaiting]];
      MoveTo(t, AtPoll(l, threads[t].pc.timed, 0));
    }

    /** The state of a thread after one turn of the poll that has read `v`. */
    function AfterPoll(th: Thread, giveUp: bool, v: Slot): Thread
      requires th.pc.AtPoll?
    {
      var AtPoll(l, timed, spins) := th.pc;
      if v == SlotLocked then Thread(th.home, Ready, th.held + {l}, Success)
      else if timed && giveUp then th.(pc := AtCancel(l, Timeout))
      else if !timed && spins > 1000 then th.(pc := AtCancel(l, Busy))
      else th.(pc := AtPoll(l, timed, spins + 1))
    }

    /** One turn of the poll. */
    method PollOnce(t: ThreadId, l: LockId, giveUp: bool, ghost patience: nat, schedule: Schedule,
                    ghost start: State, ghost run: seq<Step>)
      returns (v: Slot, rest: Schedule, ghost run': seq<Step>)
      requires Inv(Now()) && t < |threads| && threads[t].pc.AtPoll? && threads[t].pc.l == l
      requires giveUp == GivesUp(threads[t].pc, patience)
      requires Shaped(start) && IsRun(start, run, Now())
      modifies this
      ensures Inv(Now()) && IsRun(start, run', Now()) && SameSize(old(Now()), Now())
      ensures v == SlotOf(Now(), t, l)
      ensures var th := old(threads)[t];
              var timed, spins := th.pc.timed, th.pc.spins;
              if v == SlotLocked then threads[t] == Thread(th.home, Ready, th.held + {l}, Success)
              else threads[t] == th.(pc := if timed && giveUp then AtCancel(l, Timeout)
                                           else if !timed && spins > 1000 then AtCancel(l, Busy)
                                           else AtPoll(l, timed, spins + 1))
      ensures Accesses(run', t) == Accesses(run, t) + 1
      ensures schedule == [] ==> rest == [] && slots == old(slots)
      ensures Now() == AfterTurns(old(Now()), Some(t), patience, schedule, 1) && rest == Drop(schedule, 1)
    {
      rest, run' := Turn(t, giveUp, patience, schedule, start, run);
      ghost var before := Now();
      v := slots[l][threads[t].home];
      threads := threads[t := AfterPoll(threads[t], giveUp, v)];
      assert Now() == RunThread(before, t, giveUp);
    }

    /**
     `poll_for_grant`.  `patience` is the number of turns before the clock reaches a
     positive timeout; a zero timeout gives up after exactly 1002 turns.
     */
    method PollForGrant(t: ThreadId, l: LockId, patience: nat, schedule: Schedule,
                        ghost start: State, ghost run: seq<Step>)
      returns (r: LockResult, turns: nat, rest: Schedule, ghost run': seq<Step>)
      requires Inv(Now()) && t < |threads| && threads[t].pc.AtPoll? && threads[t].pc.l == l && threads[t].pc.spins == 0
      requires Shaped(start) && IsRun(start, run, Now())
      modifies this
      ensures Inv(Now()) && IsRun(start, run', Now()) && SameSize(old(Now()), Now())
      ensures var timed, th := old(threads)[t].pc.timed, threads[t];
              && (r == Success ==> th == Thread(th.home, Ready, old(threads)[t].held + {l}, Success))
              && (r != Success ==> th.pc == AtCancel(l, r) && th.held == old(threads)[t].held)
              && r in {Success, if timed then Timeout else Busy}
              && turns <= (if timed then patience + 1 else 1002)
              && (r == Busy ==> turns == 1002) && (r == Timeout ==> turns == patience + 1)
      ensures turns == Accesses(run', t) - Accesses(run, t)
      ensures schedule == [] ==>
                rest == [] && slots == old(slots) && (r == Success <==> SlotOf(old(Now()), t, l) == SlotLocked)
      ensures Now() == AfterTurns(old(Now()), Some(t), patience, schedule, turns) && rest == Drop(schedule, turns)
    {
      hide AfterTurn, AfterTurns, IsRun, Inv;
      InvIsShaped(Now());
      NoTurns(Now(), Some(t), patience, schedule);
      rest, run', turns := schedule, run, 0;
      ghost var th0 := threads[t];
      var timed := threads[t].pc.timed;
      var spinCount: nat := 0;
      while true
        invariant Inv(Now()) && Shaped(Now()) && IsRun(start, run', Now()) && SameSize(old(Now()), Now())
        invariant threads[t] == th0.(pc := AtPoll(l, timed, spinCount)) && turns == spinCount
        invariant if timed then spinCount <= patience else spinCount <= 1001
        invariant Accesses(run', t) == Accesses(run, t) + spinCount
        invariant schedule == [] ==>
                    rest == [] && slots == old(slots) && (spinCount > 0 ==> SlotOf(Now(), t, l) != SlotLocked)
        invariant Now() == AfterTurns(old(Now()), Some(t), patience, schedule, turns) && rest == Drop(schedule, turns)
        decreases (if timed then patience else 1001) - spinCount
      {
        var value;
        value, rest, run' := PollOnce(t, l, timed && spinCount == patience, patience, rest, start, run');
        InvIsShaped(Now());
        TurnsAdd(old(Now()), Some(t), patience, schedule, turns, 1);
        turns := turns + 1;
        if value == SlotLocked {
          return Success, turns, rest, run';
        }
        if timed {
          if spinCount == patience {
            return Timeout, turns, rest, run';
          }
        } else if spinCount > 1000 {
          return Busy, turns, rest, run';
        }
        spinCount := spinCount + 1;
      }
    }

    method StoreIdle(l: LockId, n: NodeId)
      requires Shaped(Now()) && l < |slots| && n < |mutexes|
      modifies this`slots, this`releases
      ensures Now() == ClearSlot(old(Now()), l, n)
    {
      if slots[l][n] == SlotLocked {
        releases := releases[l := releases[l] + 1];
      }
      slots := slots[l := slots[l][n := SlotIdle]];
    }

    /** `release_lock` of the algorithm: write "idle". */
    method WriteIdle(t: ThreadId, l: LockId, ghost patience: nat, schedule: Schedule, ghost start: State, ghost run: seq<Step>)
      returns (rest: Schedule, ghost run': seq<Step>)
      requires Inv(Now()) && t < |threads| && (threads[t].pc.AtCancel? || threads[t].pc.AtRelease?)
      requires threads[t].pc.l == l
      requires Shaped(start) && IsRun(start, run, Now())
      modifies this
      ensures Inv(Now()) && IsRun(start, run', Now()) && SameSize(old(Now()), Now())
      ensures threads[t] == old(threads)[t].(pc := AtUnlock(l, if old(threads)[t].pc.AtCancel? then old(threads)[t].pc.failure else Success))
      ensures SlotOf(Now(), t, l) == SlotIdle
      ensures Now() == AfterTurns(old(Now()), Some(t), patience, schedule, 1) && rest == Drop(schedule, 1)
    {
      rest, run' := Turn(t, false, patience, schedule, start, run);
      ghost var before := Now();
      StoreIdle(l, threads[t].home);
      MoveTo(t, AtUnlock(l, if threads[t].pc.AtCancel? then threads[t].pc.failure else Success));
      assert Now() == RunThread(before, t, false);
    }

    /** `LocalLockArray::release` and the return; the thread always owns the mutex here. */
    method FreeMutex(t: ThreadId, l: LockId, ghost patience: nat, schedule: Schedule, ghost start: State, ghost run: seq<Step>)
      returns (r: LockResult, ghost run': seq<Step>)
      requires Inv(Now()) && t < |threads| && threads[t].pc.AtUnlock? && threads[t].pc.l == l
      requires Shaped(start) && IsRun(start, run, Now())
      modifies this
      ensures Inv(Now()) && IsRun(start, run', Now()) && SameSize(old(Now()), Now())
      ensures r == old(threads)[t].pc.outcome && threads[t] == old(threads)[t].(pc := Ready, result := r)
      ensures MutexOf(Now(), t, l) == None && SlotOf(Now(), t, l) == SlotIdle && l !in threads[t].held
      ensures Now() == AfterTurns(old(Now()), Some(t), patience, schedule, 1)
    {
      var rest;
      rest, run' := Turn(t, false, patience, schedule, start, run);
      var home := threads[t].home;
      assert ThreadInv(Now(), t) && Claims(threads[t], l) && CellInv(Now(), l, home);
      r := threads[t].pc.outcome;
      if mutexes[home][l] == Some(t) {
        mutexes := mutexes[home := mutexes[home][l := None]];
      } else {
        assert false;
      }
      ReturnFrom(t, r);
    }

    /** Both tiers in order, the slot first. */
    method ReleaseBoth(t: ThreadId, l: LockId, ghost patience: nat, schedule: Schedule, ghost start: State, ghost run: seq<Step>)
      returns (r: LockResult, ghost run': seq<Step>)
      requires Inv(Now()) && t < |threads| && (threads[t].pc.AtCancel? || threads[t].pc.AtRelease?)
      requires threads[t].pc.l == l
      requires Shaped(start) && IsRun(start, run, Now())
      modifies this
      ensures Inv(Now()) && IsRun(start, run', Now()) && SameSize(old(Now()), Now())
      ensures r == if old(threads)[t].pc.AtCancel? then old(threads)[t].pc.failure else Success
      ensures threads[t] == old(threads)[t].(pc := Ready, result := r)
      ensures MutexOf(Now(), t, l) == None && SlotOf(Now(), t, l) == SlotIdle && l !in threads[t].held
      ensures Now() == AfterTurns(old(Now()), Some(t), patience, schedule, 2)
    {
      hide AfterTurn, AfterTurns;
      var rest;
      rest, run' := WriteIdle(t, l, patience, schedule, start, run);
      TurnsAdd(old(Now()), Some(t), patience, schedule, 1, 1);
      r, run' := FreeMutex(t, l, patience, rest, start, run');
    }

    /** With the mutex: request, poll, and on giving up free both tiers. */
    method RequestAndPoll(t: ThreadId, l: LockId, patience: nat, schedule: Schedule,
                          ghost start: State, ghost run: seq<Step>)
      returns (r: LockResult, ghost run': seq<Step>, ghost turns: nat)
      requires Inv(Now()) && t < |threads| && threads[t].pc.AtRequest? && threads[t].pc.l == l
      requires Shaped(start) && IsRun(start, run, Now())
      modifies this
      ensures Inv(Now()) && IsRun(start, run', Now()) && SameSize(old(Now()), Now())
      ensures threads[t].pc == Ready && threads[t].result == r
      ensures r == Success ==>
                && threads[t].held == old(threads)[t].held + {l}
                && MutexOf(Now(), t, l) == Some(t) && SlotOf(Now(), t, l) == SlotLocked
      ensures r != Success ==>
                && r == (if old(threads)[t].pc.timed then Timeout else Busy)
                && threads[t].held == old(threads)[t].held
                && MutexOf(Now(), t, l) == None && SlotOf(Now(), t, l) == SlotIdle
      ensures schedule == [] ==> r != Success
      ensures Now() == AfterTurns(old(Now()), Some(t), patience, schedule, turns)
    {
      hide AfterTurn, AfterTurns, IsRun;
      var rest;
      rest, run' := WriteWaiting(t, l, patience, schedule, start, run);
      var polls;
      r, polls, rest, run' := PollForGrant(t, l, patience, rest, start, run');
      TurnsAdd(old(Now()), Some(t), patience, schedule, 1, polls);
      turns := 1 + polls;
      if r != Success {
        r, run' := ReleaseBoth(t, l, patience, rest, start, run');
        TurnsAdd(old(Now()), Some(t), patience, schedule, turns, 2);
        turns := turns + 2;
      } else {
        assert ThreadInv(Now(), t) && Claims(threads[t], l) && CellInv(Now(), l, threads[t].home);
      }
    }

    /** The entry of a call: an unknown lock is refused. */
    method BeginCall(t: ThreadId, l: LockId, timed: bool, blocking: bool) returns (known: bool, ghost run: seq<Step>)
      requires Inv(Now()) && t < |threads| && threads[t].pc == Ready
      modifies this
      ensures Inv(Now()) && IsRun(old(Now()), run, Now()) && SameSize(old(Now()), Now())
      ensures known <==> l < Locks(Now())
      ensures threads[t] == if known then old(threads)[t].(pc := AtMutex(l, timed && blocking, blocking))
                            else old(threads)[t].(pc := Ready, result := InvalidParam)
      ensures mutexes == old(mutexes) && slots == old(slots)
      ensures Enabled(old(Now()), Call(t, l, timed, blocking))
              && Now() == Apply(old(Now()), Call(t, l, timed, blocking))
    {
      Take(Now(), [], Now(), Call(t, l, timed, blocking));
      run := [Call(t, l, timed, blocking)];
      assert [] + run == run;
      known := l < |slots|;
      if known {
        MoveTo(t, AtMutex(l, timed && blocking, blocking));
      } else {
        ReturnFrom(t, InvalidParam);
      }
    }

    /**
     `acquire` (blocking) and `try_acquire`: success with both tiers, or failure with the
     slot idle and the mutex freed.
     */
    method Acquire(t: ThreadId, l: LockId, timed: bool, blocking: bool, patience: nat, schedule: Schedule)
      returns (outcome: Outcome, ghost run: seq<Step>, ghost turns: nat)
      requires Inv(Now()) && t < |threads| && threads[t].pc == Ready
      modifies this
      ensures Inv(Now()) && IsRun(old(Now()), run, Now()) && SameSize(old(Now()), Now())
      ensures outcome == Returned(InvalidParam) <==> l >= Locks(Now())
      ensures outcome == Returned(Success) ==>
                && threads[t].held == old(threads)[t].held + {l} && l !in old(threads)[t].held
                && MutexOf(Now(), t, l) == Some(t) && SlotOf(Now(), t, l) == SlotLocked
      ensures outcome.Returned? && outcome.result != Success ==> threads[t].held == old(threads)[t].held
      ensures outcome.Returned? ==> threads[t].pc == Ready && threads[t].result == outcome.result
      ensures outcome == Returned(Timeout) ==>
                timed && blocking && MutexOf(Now(), t, l) == None && SlotOf(Now(), t, l) == SlotIdle
      ensures outcome == StillBlocked ==> blocking
      ensures outcome.Returned? ==> outcome.result in {Success, InvalidParam, Unknown, Busy, Timeout}
      ensures outcome in {Returned(Busy), Returned(Timeout)} && l !in old(threads)[t].held ==>
                MutexOf(Now(), t, l) != Some(t)
      ensures schedule == [] && l < Locks(Now()) ==>
                outcome ==
                  match MutexOf(old(Now()), t, l)
                  case None => Returned(if timed && blocking then Timeout else Busy)
                  case Some(o) => if !blocking then Returned(Busy) else if o == t then Returned(Unknown)
                    else StillBlocked
      ensures l < Locks(Now()) ==>
                Now() == AfterTurns(Apply(old(Now()), Call(t, l, timed, blocking)), Some(t), patience, schedule, turns)
    {
      hide AfterTurn, AfterTurns, IsRun;
      ghost var start := Now();
      var known;
      known, run := BeginCall(t, l, timed, blocking);
      if !known {
        return Returned(InvalidParam), run, 0;
      }
      var rest;
      outcome, rest, run, turns := TakeMutex(t, l, patience, schedule, start, run);
      assert ThreadInv(Now(), t) && CellInv(Now(), l, threads[t].home);
      if outcome != Returned(Success) {
        return;
      }
      var rc;
      ghost var more;
      rc, run, more := RequestAndPoll(t, l, patience, rest, start, run);
      TurnsAdd(Apply(start, Call(t, l, timed, blocking)), Some(t), patience, schedule, turns, more);
      return Returned(rc), run, turns + more;
    }

    /** `release` of a lock the thread holds. */
    method ReleaseHeld(t: ThreadId, l: LockId, schedule: Schedule) returns (r: LockResult, ghost run: seq<Step>)
      requires Inv(Now()) && t < |threads| && threads[t].pc == Ready && l in threads[t].held
      modifies this
      ensures Inv(Now()) && IsRun(old(Now()), run, Now()) && SameSize(old(Now()), Now())
      ensures r == Success && threads[t] == old(threads)[t].(held := old(threads)[t].held - {l}, result := Success)
      ensures l < Locks(Now()) && MutexOf(Now(), t, l) == None && SlotOf(Now(), t, l) == SlotIdle
      ensures Enabled(old(Now()), BeginRelease(t, l))
      ensures Now() == AfterTurns(Apply(old(Now()), BeginRelease(t, l)), Some(t), 0, schedule, 2)
    {
      hide AfterTurn, AfterTurns;
      ghost var start := Now();
      Take(start, [], start, BeginRelease(t, l));
      run := [BeginRelease(t, l)];
      assert [] + run == run;
      threads := threads[t := threads[t].(pc := AtRelease(l), held := threads[t].held - {l})];
      r, run := ReleaseBoth(t, l, 0, schedule, start, run);
    }

    /** The other participants run, in whatever state they are. */
    method OthersRun(t: ThreadId, l: LockId, schedule: Schedule) returns (ghost run: seq<Step>)
      requires Shaped(Now()) && t < |threads| && l < Locks(Now()) && MutexOf(Now(), t, l) != Some(t)
      modifies this
      ensures Shaped(Now()) && SameSize(old(Now()), Now()) && IsRun(old(Now()), run, Now())
      ensures threads[t] == old(threads)[t] && MutexOf(Now(), t, l) != Some(t)
      ensures schedule == [] ==> run == [] && Now() == old(Now())
      ensures Now() == AfterOthers(old(Now()), Some(t), Head(schedule))
    {
      run := [];
      if schedule == [] {
        return;
      }
      var steps := schedule[0];
      for i := 0 to |steps|
        invariant Shaped(Now()) && SameSize(old(Now()), Now()) && IsRun(old(Now()), run, Now())
        invariant threads[t] == old(threads)[t] && MutexOf(Now(), t, l) != Some(t)
        invariant Now() == AfterOthers(old(Now()), Some(t), steps[..i])
      {
        var st := steps[i];
        assert steps[..i + 1] == steps[..i] + [st];
        AfterOneMore(old(Now()), Some(t), steps[..i], st);
        if Enabled(Now(), st) && !By(st, Some(t)) {
          Append(old(Now()), run, Now(), st);
          OthersTakeNoMutexForMe(Now(), st, t, l);
          Perform(st);
          run := run + [st];
        }
      }
      assert steps[..|steps|] == steps;
    }

    /**
     `release` of a lock the thread does not hold: the slot is cleared all the same, then the
     mutex refuses the thread.  The others run before either access.
     */
    method ReleaseUnheld(t: ThreadId, l: LockId, schedule: Schedule)
      returns (r: LockResult, ghost run: seq<Step>, ghost before: State, ghost late: seq<Step>, ghost after: State)
      requires Inv(Now()) && t < |threads| && threads[t].pc == Ready && l < Locks(Now()) && l !in threads[t].held
      modifies this
      ensures Shaped(Now()) && SameSize(old(Now()), Now()) && Inv(before) && SameSize(old(Now()), before)
      ensures IsRun(old(Now()), run, before) && before.threads[t] == old(threads)[t]
      ensures var cleared := ClearSlot(before, l, before.threads[t].home);
              Shaped(cleared) && IsRun(cleared, late, after)
      ensures r == NotOwner && t < |after.threads| && Now() == Return(after, t, NotOwner)
      ensures |schedule| < 2 ==> late == []
      ensures schedule == [] ==> before == old(Now())
      ensures before == AfterOthers(old(Now()), Some(t), Head(schedule))
      ensures after == AfterOthers(ClearSlot(before, l, before.threads[t].home), Some(t), Head(Drop(schedule, 1)))
    {
      var rest;
      rest, run := Yield(Some(t), schedule, Now(), []);
      before := Now();
      UnheldIsNotOwner(before, t, l);
      var home := threads[t].home;
      StoreIdle(l, home);
      late := OthersRun(t, l, rest);
      after := Now();
      if mutexes[home][l] == Some(t) {
        assert false;
      }
      ReturnFrom(t, NotOwner);
      r := NotOwner;
    }

    /** `release`: without the lock the thread is refused, but only after it has cleared the slot of its node. */
    method Release(t: ThreadId, l: LockId, schedule: Schedule)
      returns (r: LockResult, ghost run: seq<Step>, ghost before: State, ghost late: seq<Step>, ghost after: State)
      requires Inv(Now()) && t < |threads| && threads[t].pc == Ready
      modifies this
      ensures Shaped(Now()) && SameSize(old(Now()), Now()) && Inv(before) && SameSize(old(Now()), before)
      ensures r == if l >= Locks(Now()) then InvalidParam else if l in old(threads)[t].held then Success else NotOwner
      ensures r == Success ==> IsRun(old(Now()), run, Now()) && Inv(Now())
      ensures r == Success ==>
                && threads[t] == old(threads)[t].(held := old(threads)[t].held - {l}, result := Success)
                && MutexOf(Now(), t, l) == None && SlotOf(Now(), t, l) == SlotIdle
      ensures r == InvalidParam ==> Now() == Return(old(Now()), t, InvalidParam)
      ensures r == NotOwner ==> IsRun(old(Now()), run, before) && before.threads[t] == old(threads)[t]
      ensures r == NotOwner ==>
                var cleared := ClearSlot(before, l, before.threads[t].home);
                && Shaped(cleared) && IsRun(cleared, late, after)
                && t < |after.threads| && Now() == Return(after, t, NotOwner)
      ensures r == NotOwner && |schedule| < 2 ==>
                Now() == UnheldRelease(before, t, l) && (Inv(Now()) <==> SlotOf(before, t, l) == SlotIdle)
      ensures r == Success ==> Now() == AfterTurns(Apply(old(Now()), BeginRelease(t, l)), Some(t), 0, schedule, 2)
      ensures r == NotOwner ==>
                && before == AfterOthers(old(Now()), Some(t), Head(schedule))
                && after == AfterOthers(ClearSlot(before, l, before.threads[t].home), Some(t), Head(Drop(schedule, 1)))
    {
      hide AfterTurn, AfterTurns;
      before, after, late := Now(), Now(), [];
      if l >= |slots| {
        ReturnFrom(t, InvalidParam);
        return InvalidParam, [], before, late, after;
      }
      if l in threads[t].held {
        r, run := ReleaseHeld(t, l, schedule);
      } else {
        r, run, before, late, after := ReleaseUnheld(t, l, schedule);
        UnheldReleaseKeepsInvariant(before, t, l);
      }
    }
  }
}
