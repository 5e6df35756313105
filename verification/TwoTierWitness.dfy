/** A run of two nodes and three threads in which a release by the wrong thread lets two threads into one lock. */
module TwoTierWitness {
  import opened LockTypes
  import opened TwoTierProtocol
  import opened TwoTierTheorems
  import opened TwoTierMisuse

  predicate Same(a: State, b: State)
  {
    && a.slots == b.slots && a.mutexes == b.mutexes && a.threads == b.threads
    && a.mgr == b.mgr && a.anyWork == b.anyWork && a.stats == b.stats && a.grants == b.grants && a.releases == b.releases && a.wasReset == b.wasReset
  }

  /** Some run leads from `s` to `t`. */
  ghost predicate Leads(s: State, t: State)
  {
    Shaped(s) && Shaped(t) && exists run: seq<Step> :: IsRun(s, run, t)
  }

  lemma Starts(s: State)
    requires Shaped(s)
    ensures Leads(s, s)
  {
    assert IsRun(s, [], s);
  }

  lemma Goes(s: State, t: State, st: Step, u: State)
    requires Leads(s, t) && Enabled(t, st) && Same(Apply(t, st), u)
    ensures Leads(s, u)
  {
    var run: seq<Step> :| IsRun(s, run, t);
    Append(s, run, t, st);
    assert Apply(t, st) == u;
  }

  function Idler(home: NodeId): Thread
  {
    Thread(home, Ready, {}, Success)
  }

  function Holder(home: NodeId): Thread
  {
    Thread(home, Ready, {0}, Success)
  }

  function Caller(home: NodeId, p: Pc): Thread
  {
    Thread(home, p, {}, Success)
  }

  const START := InitState(2, 1, [0, 0, 1])

  /** Thread 0 takes the lock. */
  function Taking(slot: Slot, m: Option<ThreadId>, th: Thread, mgr: ManagerPc,
                  work: bool, stats: Stats, grants: nat): State
  {
    State([[slot, SlotIdle]], [[m], [None]], [th, Idler(0), Idler(1)], mgr, work, stats, [grants], [0], false)
  }

  const FRESH := Stats(0, [0], 0, 0)
  const COUNTED := Stats(1, [1], 0, 0)
  const SCANNED := Stats(1, [1], 1, 0)

  /** Updates of a table with one row of two, and of one with two rows of one. */
  lemma Update<T>(a: T, b: T, v: T)
    ensures [[a, b]][0 := [[a, b]][0][0 := v]] == [[v, b]] && [[a, b]][0 := [[a, b]][0][1 := v]] == [[a, v]]
    ensures [[a], [b]][0 := [[a], [b]][0][0 := v]] == [[v], [b]] && [[a], [b]][1 := [[a], [b]][1][0 := v]] == [[a], [v]]
  {
    assert [a, b][0 := v] == [v, b] && [a, b][1 := v] == [a, v] && [a][0 := v] == [v] && [b][0 := v] == [v];
  }

  lemma StartIs()
    ensures Shaped(START) && START == Taking(SlotIdle, None, Idler(0), Between, false, FRESH, 0)
  {
    var row := seq(2, _ => SlotIdle);
    assert row == [SlotIdle, SlotIdle];
    assert seq(1, _ => row) == [row] && Zeros(1) == [0];
    var none: Option<ThreadId> := None;
    assert seq(1, _ => none) == [none];
    assert seq(2, _ => [none]) == [[none], [none]];
    var s0 := Taking(SlotIdle, None, Idler(0), Between, false, FRESH, 0);
    assert START.slots == s0.slots && START.mutexes == s0.mutexes && START.threads == s0.threads;
  }

  lemma ThreadZeroAsks()
    ensures Leads(START, Taking(SlotWaiting, Some(0), Caller(0, AtPoll(0, false, 0)), Between, false, FRESH, 0))
  {
    var s0 := Taking(SlotIdle, None, Idler(0), Between, false, FRESH, 0);
    StartIs();
    Starts(START);
    var s1 := Taking(SlotIdle, None, Caller(0, AtMutex(0, false, true)), Between, false, FRESH, 0);
    Goes(START, s0, Call(0, 0, false, true), s1);
    var s2 := Taking(SlotIdle, Some(0), Caller(0, AtRequest(0, false)), Between, false, FRESH, 0);
    Update(None, None, Some(0));
    Goes(START, s1, Run(0, false), s2);
    var s3 := Taking(SlotWaiting, Some(0), Caller(0, AtPoll(0, false, 0)), Between, false, FRESH, 0);
    Update(SlotIdle, SlotIdle, SlotWaiting);
    Goes(START, s2, Run(0, false), s3);
  }

  function Scanned(mgr: ManagerPc): State
  {
    Taking(SlotWaiting, Some(0), Caller(0, AtPoll(0, false, 0)), mgr, false, FRESH, 0)
  }

  lemma ManagerFindsZero()
    ensures Leads(START, Scanned(Exchange(0, 0)))
  {
    ThreadZeroAsks();
    Goes(START, Scanned(Between), BeginScan, Scanned(FirstPass(0, 0)));
    Goes(START, Scanned(FirstPass(0, 0)), Manage, Scanned(FirstPass(0, 1)));
    Goes(START, Scanned(FirstPass(0, 1)), Manage, Scanned(SecondPass(0, 0)));
    Goes(START, Scanned(SecondPass(0, 0)), Manage, Scanned(Exchange(0, 0)));
  }

  /** Thread 0 has been granted the lock and has not seen it. */
  function Granted(mgr: ManagerPc, work: bool, stats: Stats): State
  {
    Taking(SlotLocked, Some(0), Caller(0, AtPoll(0, false, 0)), mgr, work, stats, 1)
  }

  lemma ManagerGrantsZero()
    ensures Leads(START, Granted(Count(0), false, FRESH))
  {
    ManagerFindsZero();
    Update(SlotWaiting, SlotIdle, SlotLocked);
    Goes(START, Scanned(Exchange(0, 0)), Manage, Granted(Count(0), false, FRESH));
  }

  lemma ManagerEndsScan()
    ensures Leads(START, Granted(Between, true, SCANNED))
  {
    ManagerGrantsZero();
    Goes(START, Granted(Count(0), false, FRESH), Manage, Granted(EndScan, true, COUNTED));
    Goes(START, Granted(EndScan, true, COUNTED), Manage, Granted(Between, true, SCANNED));
  }

  lemma ThreadZeroGetsIn()
    ensures Leads(START, Taking(SlotLocked, Some(0), Holder(0), Between, true, SCANNED, 1))
  {
    ManagerEndsScan();
    assert Caller(0, AtPoll(0, false, 0)).held + {0} == {0};
    Goes(START, Granted(Between, true, SCANNED), Run(0, false),
         Taking(SlotLocked, Some(0), Holder(0), Between, true, SCANNED, 1));
  }

  /** Thread 1 has released the lock of thread 0, and thread 2 takes it. */
  function Robbing(slot: Slot, m: Option<ThreadId>, th: Thread, mgr: ManagerPc, work: bool, grants: nat): State
  {
    State([[SlotIdle, slot]], [[Some(0)], [m]], [Holder(0), Thread(0, Ready, {}, NotOwner), th], mgr, work, SCANNED,
          [grants], [1], false)
  }

  lemma ThreadTwoAsks(s: State)
    requires Shaped(s) && Same(s, Robbing(SlotIdle, None, Idler(1), Between, true, 1))
    ensures Leads(s, Robbing(SlotWaiting, Some(2), Caller(1, AtPoll(0, false, 0)), Between, true, 1))
  {
    var s0 := Robbing(SlotIdle, None, Idler(1), Between, true, 1);
    assert s == s0;
    Starts(s);
    var s1 := Robbing(SlotIdle, None, Caller(1, AtMutex(0, false, true)), Between, true, 1);
    Goes(s, s0, Call(2, 0, false, true), s1);
    var s2 := Robbing(SlotIdle, Some(2), Caller(1, AtRequest(0, false)), Between, true, 1);
    Update(Some(0), None, Some(2));
    Goes(s, s1, Run(2, false), s2);
    var s3 := Robbing(SlotWaiting, Some(2), Caller(1, AtPoll(0, false, 0)), Between, true, 1);
    Update(SlotIdle, SlotIdle, SlotWaiting);
    Goes(s, s2, Run(2, false), s3);
  }

  function Rescanned(mgr: ManagerPc): State
  {
    Robbing(SlotWaiting, Some(2), Caller(1, AtPoll(0, false, 0)), mgr, false, 1)
  }

  lemma ManagerFindsTwo(s: State)
    requires Shaped(s) && Same(s, Robbing(SlotIdle, None, Idler(1), Between, true, 1))
    ensures Leads(s, Rescanned(Exchange(0, 1)))
  {
    ThreadTwoAsks(s);
    var s0 := Robbing(SlotWaiting, Some(2), Caller(1, AtPoll(0, false, 0)), Between, true, 1);
    Goes(s, s0, BeginScan, Rescanned(FirstPass(0, 0)));
    Goes(s, Rescanned(FirstPass(0, 0)), Manage, Rescanned(FirstPass(0, 1)));
    Goes(s, Rescanned(FirstPass(0, 1)), Manage, Rescanned(SecondPass(0, 0)));
    Goes(s, Rescanned(SecondPass(0, 0)), Manage, Rescanned(SecondPass(0, 1)));
    Goes(s, Rescanned(SecondPass(0, 1)), Manage, Rescanned(Exchange(0, 1)));
  }

  lemma ThreadTwoGetsIn(s: State)
    requires Shaped(s) && Same(s, Robbing(SlotIdle, None, Idler(1), Between, true, 1))
    ensures Leads(s, Robbing(SlotLocked, Some(2), Holder(1), Count(0), false, 2))
  {
    ManagerFindsTwo(s);
    var s0 := Rescanned(Exchange(0, 1));
    var polls := Caller(1, AtPoll(0, false, 0));
    var s1 := Robbing(SlotLocked, Some(2), polls, Count(0), false, 2);
    Update(SlotIdle, SlotWaiting, SlotLocked);
    Goes(s, s0, Manage, s1);
    assert polls.held + {0} == {0};
    Goes(s, s1, Run(2, false), Robbing(SlotLocked, Some(2), Holder(1), Count(0), false, 2));
  }

  lemma ThreadOneReleases()
    ensures var s := Taking(SlotLocked, Some(0), Holder(0), Between, true, SCANNED, 1);
            Shaped(s) && UnheldRelease(s, 1, 0) == Robbing(SlotIdle, None, Idler(1), Between, true, 1)
  {
    var s := Taking(SlotLocked, Some(0), Holder(0), Between, true, SCANNED, 1);
    var u, v := UnheldRelease(s, 1, 0), Robbing(SlotIdle, None, Idler(1), Between, true, 1);
    Update(SlotLocked, SlotIdle, SlotIdle);
    assert u.threads == v.threads;
  }

  /** Thread 0 holds lock 0, thread 1 of the same node releases it, and thread 2 of the other node gets it as well. */
  lemma SomeReleaseLetsTwoThreadsIn() returns (run: seq<Step>, s: State, t: State)
    ensures ReachedBy(2, 1, [0, 0, 1], run, s) && |s.threads| == 3 && Locks(s) == 1
    ensures s.threads[1].pc == Ready && 0 !in s.threads[1].held && s.threads[1].home == s.threads[0].home
    ensures Leads(UnheldRelease(s, 1, 0), t) && |t.threads| == 3 && Inside(t.threads[0], 0) && Inside(t.threads[2], 0)
  {
    ThreadZeroGetsIn();
    s := Taking(SlotLocked, Some(0), Holder(0), Between, true, SCANNED, 1);
    run :| IsRun(START, run, s);
    ThreadOneReleases();
    ThreadTwoGetsIn(UnheldRelease(s, 1, 0));
    t := Robbing(SlotLocked, Some(2), Holder(1), Count(0), false, 2);
  }
}
