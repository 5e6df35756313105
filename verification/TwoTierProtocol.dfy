/**
 The two-tier lock over CAS slots as a transition system.  Any number of threads on any
 number of nodes take the mutex of their node, write their node's slot, poll it and may
 give up at any moment, while one manager scans the slots one read at a time.
 */
module TwoTierProtocol {
  import opened LockTypes

  type ThreadId = nat

  datatype Slot = SlotIdle | SlotWaiting | SlotLocked

  /** What a thread does next; `timed` tells a positive timeout from a zero one. */
  datatype Pc =
    | Ready
    | AtMutex(l: LockId, timed: bool, blocking: bool)  // take the mutex of the node
    | AtRequest(l: LockId, timed: bool)                // write "waiting" into the slot
    | AtPoll(l: LockId, timed: bool, spins: nat)       // read the slot
    | AtCancel(l: LockId, failure: LockResult)         // write "idle" after giving up
    | AtRelease(l: LockId)                             // write "idle" after the critical section
    | AtUnlock(l: LockId, outcome: LockResult)         // free the mutex and return

  /** `held` are the locks whose acquisition was reported to the thread and not yet released. */
  datatype Thread = Thread(home: NodeId, pc: Pc, held: set<LockId>, result: LockResult)

  datatype ManagerPc =
    | Between
    | FirstPass(l: LockId, i: NodeId)   // read slot i, looking for "locked"
    | SecondPass(l: LockId, i: NodeId)  // read slot i, looking for "waiting"
    | Exchange(l: LockId, i: NodeId)    // compare_exchange of slot i from "waiting" to "locked"
    | Count(l: LockId)                  // update the statistics after a grant
    | EndScan

  datatype Stats = Stats(total: nat, byLock: seq<nat>, cycles: nat, idle: nat)

  datatype State = State(
    slots: seq<seq<Slot>>,               // [lock][node], in shared memory
    mutexes: seq<seq<Option<ThreadId>>>, // [node][lock], local to each node
    threads: seq<Thread>,
    mgr: ManagerPc,
    anyWork: bool,                       // the manager's local flag in a scan
    stats: Stats,
    grants: seq<nat>,                    // log, per lock: successful exchanges
    releases: seq<nat>,                  // log, per lock: "idle" written over "locked"
    wasReset: bool)                      // log: the statistics were reset

  datatype Step =
    | Call(t: ThreadId, l: LockId, timed: bool, blocking: bool)
    | Run(t: ThreadId, giveUp: bool)
    | BeginRelease(t: ThreadId, l: LockId)
    | BeginScan
    | Manage
    | ResetStats

  function Zeros(n: nat): seq<nat>
  {
    seq(n, _ => 0)
  }

  function InitState(nodeCount: nat, lockCount: nat, homes: seq<NodeId>): State
  {
    State(
      seq(lockCount, _ => seq(nodeCount, _ => SlotIdle)),
      seq(nodeCount, _ => seq(lockCount, _ => None)),
      seq(|homes|, t requires 0 <= t < |homes| => Thread(homes[t], Ready, {}, Success)),
      Between, false, Stats(0, Zeros(lockCount), 0, 0), Zeros(lockCount), Zeros(lockCount), false)
  }

  function Locks(s: State): nat { |s.slots| }

  function Nodes(s: State): nat { |s.mutexes| }

  predicate Shaped(s: State)
  {
    && 0 < |s.slots| && 0 < |s.mutexes|
    && (forall l :: 0 <= l < |s.slots| ==> |s.slots[l]| == |s.mutexes|)
    && (forall n :: 0 <= n < |s.mutexes| ==> |s.mutexes[n]| == |s.slots|)
    && (forall t :: 0 <= t < |s.threads| ==> ThreadShaped(s.threads[t], |s.slots|, |s.mutexes|))
    && ManagerShaped(s.mgr, |s.slots|, |s.mutexes|)
    && |s.stats.byLock| == |s.grants| == |s.releases| == |s.slots|
  }

  predicate ThreadShaped(th: Thread, locks: nat, nodes: nat)
  {
    th.home < nodes && (th.pc.Ready? || th.pc.l < locks) && (forall l :: l in th.held ==> l < locks)
  }

  predicate ManagerShaped(m: ManagerPc, locks: nat, nodes: nat)
  {
    (m.Between? || m.EndScan? || m.l < locks) && (m.FirstPass? || m.SecondPass? || m.Exchange? ==> m.i < nodes)
  }

  function SlotOf(s: State, t: ThreadId, l: LockId): Slot
    requires Shaped(s) && t < |s.threads| && l < |s.slots|
  {
    s.slots[l][s.threads[t].home]
  }

  function MutexOf(s: State, t: ThreadId, l: LockId): Option<ThreadId>
    requires Shaped(s) && t < |s.threads| && l < |s.slots|
  {
    s.mutexes[s.threads[t].home][l]
  }

  function SetSlot(s: State, l: LockId, n: NodeId, v: Slot): State
    requires Shaped(s) && l < |s.slots| && n < |s.mutexes|
  {
    s.(slots := s.slots[l := s.slots[l][n := v]])
  }

  function SetMutex(s: State, n: NodeId, l: LockId, v: Option<ThreadId>): State
    requires Shaped(s) && l < |s.slots| && n < |s.mutexes|
  {
    s.(mutexes := s.mutexes[n := s.mutexes[n][l := v]])
  }

  function Goto(s: State, t: ThreadId, p: Pc): State
    requires t < |s.threads|
  {
    s.(threads := s.threads[t := s.threads[t].(pc := p)])
  }

  function Return(s: State, t: ThreadId, r: LockResult): State
    requires t < |s.threads|
  {
    s.(threads := s.threads[t := s.threads[t].(pc := Ready, result := r)])
  }

  /** Write "idle" and log the release if the slot was locked. */
  function ClearSlot(s: State, l: LockId, n: NodeId): State
    requires Shaped(s) && l < |s.slots| && n < |s.mutexes|
  {
    SetSlot(s, l, n, SlotIdle).(releases := if s.slots[l][n] == SlotLocked then s.releases[l := s.releases[l] + 1] else s.releases)
  }

  /**
   A blocking call waits at a mutex that another thread holds.  A client calls `release`
   only for a lock it holds.
   */
  predicate Enabled(s: State, st: Step)
    requires Shaped(s)
  {
    match st
    case Call(t, l, _, _) => t < |s.threads| && s.threads[t].pc == Ready
    case Run(t, _) =>
      t < |s.threads| && s.threads[t].pc != Ready &&
      (s.threads[t].pc.AtMutex? && s.threads[t].pc.blocking ==> MutexOf(s, t, s.threads[t].pc.l) in {None, Some(t)})
    case BeginRelease(t, l) => t < |s.threads| && s.threads[t].pc == Ready && l in s.threads[t].held
    case BeginScan => s.mgr == Between
    case Manage => s.mgr != Between
    case ResetStats => true
  }

  /** The error-checking mutex: the owner itself gets an error, a try on a held mutex is busy. */
  function RunMutex(s: State, t: ThreadId): State
    requires Shaped(s) && t < |s.threads| && s.threads[t].pc.AtMutex?
  {
    var th := s.threads[t];
    var AtMutex(l, timed, blocking) := th.pc;
    if MutexOf(s, t, l) == None then Goto(SetMutex(s, th.home, l, Some(t)), t, AtRequest(l, timed))
    else Return(s, t, if blocking then Unknown else Busy)
  }

  /** One turn of the poll: a zero timeout gives up when more than a thousand turns have failed. */
  function RunPoll(s: State, t: ThreadId, giveUp: bool): State
    requires Shaped(s) && t < |s.threads| && s.threads[t].pc.AtPoll?
  {
    var th := s.threads[t];
    var AtPoll(l, timed, spins) := th.pc;
    if SlotOf(s, t, l) == SlotLocked then
      s.(threads := s.threads[t := Thread(th.home, Ready, th.held + {l}, Success)])
    else if timed && giveUp then Goto(s, t, AtCancel(l, Timeout))
    else if !timed && spins > 1000 then Goto(s, t, AtCancel(l, Busy))
    else Goto(s, t, AtPoll(l, timed, spins + 1))
  }

  function RunThread(s: State, t: ThreadId, giveUp: bool): State
    requires Shaped(s) && Enabled(s, Run(t, giveUp))
  {
    var th := s.threads[t];
    match th.pc
    case AtMutex(_, _, _) => RunMutex(s, t)
    case AtRequest(l, timed) => Goto(SetSlot(s, l, th.home, SlotWaiting), t, AtPoll(l, timed, 0))
    case AtPoll(_, _, _) => RunPoll(s, t, giveUp)
    case AtCancel(l, failure) => Goto(ClearSlot(s, l, th.home), t, AtUnlock(l, failure))
    case AtRelease(l) => Goto(ClearSlot(s, l, th.home), t, AtUnlock(l, Success))
    case AtUnlock(l, outcome) =>
      if MutexOf(s, t, l) == Some(t) then Return(SetMutex(s, th.home, l, None), t, outcome)
      else Return(s, t, if outcome == Success then NotOwner else outcome)
    case Ready => s
  }

  function NextLock(s: State, l: LockId): ManagerPc
  {
    if l + 1 < |s.slots| then FirstPass(l + 1, 0) else EndScan
  }

  function ManagerAccess(s: State): State
    requires Shaped(s) && s.mgr != Between
  {
    match s.mgr
    case FirstPass(l, i) =>
      s.(mgr := if s.slots[l][i] == SlotLocked then NextLock(s, l)
                else if i + 1 < |s.mutexes| then FirstPass(l, i + 1) else SecondPass(l, 0))
    case SecondPass(l, i) =>
      s.(mgr := if s.slots[l][i] == SlotWaiting then Exchange(l, i)
                else if i + 1 < |s.mutexes| then SecondPass(l, i + 1) else NextLock(s, l))
    case Exchange(l, i) =>
      if s.slots[l][i] == SlotWaiting then
        SetSlot(s, l, i, SlotLocked).(mgr := Count(l), grants := s.grants[l := s.grants[l] + 1])
      else s.(mgr := NextLock(s, l))
    case Count(l) =>
      s.(mgr := NextLock(s, l), anyWork := true,
         stats := s.stats.(total := s.stats.total + 1, byLock := s.stats.byLock[l := s.stats.byLock[l] + 1]))
    case EndScan =>
      s.(mgr := Between,
         stats := s.stats.(cycles := s.stats.cycles + 1, idle := s.stats.idle + (if s.anyWork then 0 else 1)))
  }

  function Apply(s: State, st: Step): State
    requires Shaped(s) && Enabled(s, st)
  {
    match st
    case Call(t, l, timed, blocking) =>
      if l < |s.slots| then Goto(s, t, AtMutex(l, timed && blocking, blocking)) else Return(s, t, InvalidParam)
    case Run(t, giveUp) => RunThread(s, t, giveUp)
    case BeginRelease(t, l) =>
      s.(threads := s.threads[t := s.threads[t].(pc := AtRelease(l), held := s.threads[t].held - {l})])
    case BeginScan => s.(mgr := FirstPass(0, 0), anyWork := false)
    case Manage => ManagerAccess(s)
    case ResetStats => s.(stats := Stats(0, Zeros(|s.slots|), 0, 0), wasReset := true)
  }

  predicate SameSize(s: State, u: State)
  {
    Locks(u) == Locks(s) && Nodes(u) == Nodes(s) && |u.threads| == |s.threads|
  }

  lemma RunMutexShaped(s: State, t: ThreadId)
    requires Shaped(s) && t < |s.threads| && s.threads[t].pc.AtMutex?
    ensures Shaped(RunMutex(s, t)) && SameSize(s, RunMutex(s, t))
  {
  }

  lemma RunPollShaped(s: State, t: ThreadId, giveUp: bool)
    requires Shaped(s) && t < |s.threads| && s.threads[t].pc.AtPoll?
    ensures Shaped(RunPoll(s, t, giveUp)) && SameSize(s, RunPoll(s, t, giveUp))
  {
  }

  lemma RunSlotShaped(s: State, t: ThreadId, giveUp: bool)
    requires Shaped(s) && t < |s.threads|
    requires (s.threads[t].pc.AtRequest? || s.threads[t].pc.AtCancel? || s.threads[t].pc.AtRelease?)
    ensures Shaped(RunThread(s, t, giveUp)) && SameSize(s, RunThread(s, t, giveUp))
  {
  }

  lemma RunUnlockShaped(s: State, t: ThreadId, giveUp: bool)
    requires Shaped(s) && t < |s.threads| && s.threads[t].pc.AtUnlock?
    ensures Shaped(RunThread(s, t, giveUp)) && SameSize(s, RunThread(s, t, giveUp))
  {
  }

  lemma RunShaped(s: State, t: ThreadId, giveUp: bool)
    requires Shaped(s) && Enabled(s, Run(t, giveUp))
    ensures Shaped(RunThread(s, t, giveUp)) && SameSize(s, RunThread(s, t, giveUp))
  {
    if s.threads[t].pc.AtMutex? {
      RunMutexShaped(s, t);
    } else if s.threads[t].pc.AtPoll? {
      RunPollShaped(s, t, giveUp);
    } else if s.threads[t].pc.AtUnlock? {
      RunUnlockShaped(s, t, giveUp);
    } else {
      RunSlotShaped(s, t, giveUp);
    }
  }

  lemma ManagerAccessShaped(s: State)
    requires Shaped(s) && s.mgr != Between
    ensures Shaped(ManagerAccess(s)) && SameSize(s, ManagerAccess(s))
  {
  }

  lemma ApplyShaped(s: State, st: Step)
    requires Shaped(s) && Enabled(s, st)
    ensures Shaped(Apply(s, st)) && SameSize(s, Apply(s, st))
  {
    match st {
      case Run(t, giveUp) => RunShaped(s, t, giveUp);
      case Manage => ManagerAccessShaped(s);
      case _ =>
    }
  }

  predicate IsRun(s: State, run: seq<Step>, t: State)
    requires Shaped(s)
    ensures IsRun(s, run, t) ==> Shaped(t) && SameSize(s, t)
    decreases run
  {
    if run == [] then s == t
    else Enabled(s, run[0]) && (ApplyShaped(s, run[0]); IsRun(Apply(s, run[0]), run[1..], t))
  }
}
