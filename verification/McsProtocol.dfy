/**
 The MCS queue lock as a transition system: one step is one access to shared memory by
 one node or by the lock manager.  The ghost queue and the logs only record what the
 accesses do; no access depends on them.
 */
module McsProtocol {
  import opened LockTypes

  /** The per-lock record: last node queued, first node queued, holder. */
  datatype McsLockEntry = McsLockEntry(tail: NodeId, head: NodeId, owner: NodeId)

  /** The per-node record, one for all locks. */
  datatype McsNode = McsNode(next: NodeId, locked: nat, waiting: LockId)

  /** What a node does next.  Each constructor but the client's own choices is one access. */
  datatype Pc =
    | Idle                               // outside any call
    | Swap(l: LockId, seen: NodeId)       // acquire: compare_exchange of the tail, expecting seen
    | Reload(l: LockId)                  // acquire: the exchange failed; load the tail
    | SetHead(l: LockId)                 // acquire: the queue was empty; store the head
    | LinkPred(l: LockId, pred: NodeId)  // acquire: store pred's next
    | Waiting(l: LockId)                 // poll: load own locked
    | PollLock(l: LockId, v: nat)        // poll: locked was v; load own waiting
    | CheckCancel(l: LockId)             // release before the poll succeeded: load the owner
    | Holding(l: LockId)                 // the poll succeeded: critical section
    | CheckOwner(l: LockId)              // release: load the owner
    | ReadNext(l: LockId)                // release: load own next
    | DropTail(l: LockId)                // release: compare_exchange of the tail to none
    | Spin(l: LockId)                    // release: load own next again
    | PassHead(l: LockId, succ: NodeId)  // release: store the head
    | PassOwner(l: LockId, succ: NodeId) // release: store the owner
    | Wake(l: LockId, succ: NodeId)      // release: store the successor's locked
    | ClearHead(l: LockId)               // release, empty queue: clear the head
    | ClearOwner(l: LockId)              // release, empty queue: clear the owner
    | ResetNext                          // release: clear own next
    | ResetLocked                        // release: clear own locked
    | ResetWaiting                       // release: clear own waiting
    | Refused(l: LockId)                 // release returned "not the owner"

  /** What the manager does next for the lock it is looking at. */
  datatype ManagerPc =
    | Between
    | LoadHead(l: LockId)
    | LoadLocked(l: LockId, h: NodeId)
    | LoadWaiting(l: LockId, h: NodeId, v: nat)
    | StoreLocked(l: LockId, h: NodeId)
    | StoreOwner(l: LockId, h: NodeId)

  datatype State = State(
    entries: seq<McsLockEntry>,
    nodes: seq<McsNode>,
    pc: seq<Pc>,
    mgr: ManagerPc,
    queue: seq<seq<NodeId>>,   // per lock: the holder, if any, and the nodes behind it
    swaps: seq<seq<NodeId>>,   // per lock: every node that swapped itself into the tail
    owners: seq<seq<NodeId>>,  // per lock: every node that was given the lock
    releases: seq<nat>)        // per lock: how often the lock was given up

  datatype Step =
    | Acquire(n: NodeId, l: LockId)
    | Access(n: NodeId)
    | BeginRelease(n: NodeId)
    | BeginCancel(n: NodeId)
    | Check(l: LockId)
    | Manage

  const FREE := McsLockEntry(INVALID_NODE_ID, INVALID_NODE_ID, INVALID_NODE_ID)

  function InitState(nodeCount: nat, lockCount: nat): State
  {
    State(
      seq(lockCount, _ => FREE),
      seq(nodeCount, _ => McsNode(0, 0, INVALID_LOCK_ID)),
      seq(nodeCount, _ => Idle),
      Between,
      seq(lockCount, _ => []),
      seq(lockCount, _ => []),
      seq(lockCount, _ => []),
      seq(lockCount, _ => 0))
  }

  /** The sequences have matching lengths and every identifier differs from the sentinel. */
  predicate Shaped(s: State)
  {
    && |s.pc| == |s.nodes| <= INVALID_NODE_ID
    && |s.queue| == |s.swaps| == |s.owners| == |s.releases| == |s.entries| <= INVALID_LOCK_ID
    && (forall n :: 0 <= n < |s.pc| ==> PcLock(s.pc[n]) < |s.entries|)
    && (s.mgr != Between ==> s.mgr.l < |s.entries|)
  }

  /** The lock a node works on (0 where there is none). */
  function PcLock(p: Pc): LockId
  {
    if p.Idle? || p.ResetNext? || p.ResetLocked? || p.ResetWaiting? then 0 else p.l
  }

  // Stores to one field of one record.  A store through an invalid node id is dropped.

  function SetTail(s: State, l: LockId, v: NodeId): State
    requires l < |s.entries|
  { s.(entries := s.entries[l := s.entries[l].(tail := v)]) }

  function StoreHead(s: State, l: LockId, v: NodeId): State
    requires l < |s.entries|
  { s.(entries := s.entries[l := s.entries[l].(head := v)]) }

  function SetOwner(s: State, l: LockId, v: NodeId): State
    requires l < |s.entries|
  { s.(entries := s.entries[l := s.entries[l].(owner := v)]) }

  function SetNext(s: State, n: NodeId, v: NodeId): State
  { if n < |s.nodes| then s.(nodes := s.nodes[n := s.nodes[n].(next := v)]) else s }

  function SetLocked(s: State, n: NodeId, v: nat): State
  { if n < |s.nodes| then s.(nodes := s.nodes[n := s.nodes[n].(locked := v)]) else s }

  function SetWaiting(s: State, n: NodeId, v: LockId): State
  { if n < |s.nodes| then s.(nodes := s.nodes[n := s.nodes[n].(waiting := v)]) else s }

  function Goto(s: State, n: NodeId, p: Pc): State
    requires n < |s.pc|
  { s.(pc := s.pc[n := p]) }

  // Ghost bookkeeping.

  function Enqueue(s: State, l: LockId, n: NodeId): State
    requires l < |s.queue| && l < |s.swaps|
  { s.(queue := s.queue[l := s.queue[l] + [n]], swaps := s.swaps[l := s.swaps[l] + [n]]) }

  function Dequeue(s: State, l: LockId): State
    requires l < |s.queue| && l < |s.releases|
  {
    s.(queue := s.queue[l := if s.queue[l] == [] then [] else s.queue[l][1..]],
       releases := s.releases[l := s.releases[l] + 1])
  }

  function LogOwner(s: State, l: LockId, n: NodeId): State
    requires l < |s.owners|
  { s.(owners := s.owners[l := s.owners[l] + [n]]) }

  predicate Enabled(s: State, st: Step)
    requires Shaped(s)
  {
    match st
    case Acquire(n, l) => n < |s.pc| && l < |s.entries| && (s.pc[n] == Idle || s.pc[n].Refused?)
    case Access(n) => n < |s.pc| && s.pc[n] != Idle && !s.pc[n].Refused? && !s.pc[n].Holding?
    case BeginRelease(n) => n < |s.pc| && (s.pc[n].Holding? || s.pc[n].Refused?)
    case BeginCancel(n) => n < |s.pc| && s.pc[n].Waiting?
    case Check(l) => l < |s.entries| && s.mgr == Between
    case Manage => s.mgr != Between
  }

  /** The next access of node `n`. */
  function NodeAccess(s: State, n: NodeId): State
    requires Shaped(s) && Enabled(s, Access(n))
  {
    var me := s.nodes[n];
    match s.pc[n]
    case Swap(l, seen) =>
      if s.entries[l].tail == seen then
        Goto(Enqueue(SetTail(s, l, n), l, n), n,
             if seen == INVALID_NODE_ID then SetHead(l) else LinkPred(l, seen))
      else Goto(s, n, Reload(l))
    case Reload(l) =>
      // the loop is left without a swap when the tail is the node itself
      if s.entries[l].tail == n then Goto(s, n, LinkPred(l, n))
      else Goto(s, n, Swap(l, s.entries[l].tail))
    case SetHead(l) => Goto(StoreHead(s, l, n), n, Waiting(l))
    case LinkPred(l, pred) => Goto(SetNext(s, pred, n), n, Waiting(l))
    case Waiting(l) => Goto(s, n, PollLock(l, me.locked))
    case PollLock(l, v) =>
      Goto(s, n, if (v == 2 || v == 0) && me.waiting == l then Holding(l) else Waiting(l))
    case CheckOwner(l) => Goto(s, n, if s.entries[l].owner == n then ReadNext(l) else Refused(l))
    case CheckCancel(l) => Goto(s, n, if s.entries[l].owner == n then ReadNext(l) else Waiting(l))
    case ReadNext(l) => Goto(s, n, if me.next == INVALID_NODE_ID then DropTail(l) else PassHead(l, me.next))
    case DropTail(l) =>
      if s.entries[l].tail == n then Goto(Dequeue(SetTail(s, l, INVALID_NODE_ID), l), n, ClearHead(l))
      else Goto(s, n, Spin(l))
    case Spin(l) => if me.next == INVALID_NODE_ID then s else Goto(s, n, PassHead(l, me.next))
    case PassHead(l, succ) => Goto(StoreHead(s, l, succ), n, PassOwner(l, succ))
    case PassOwner(l, succ) => Goto(LogOwner(Dequeue(SetOwner(s, l, succ), l), l, succ), n, Wake(l, succ))
    case Wake(l, succ) => Goto(SetLocked(s, succ, 0), n, ResetNext)
    case ClearHead(l) => Goto(StoreHead(s, l, INVALID_NODE_ID), n, ClearOwner(l))
    case ClearOwner(l) => Goto(SetOwner(s, l, INVALID_NODE_ID), n, ResetNext)
    case ResetNext => Goto(SetNext(s, n, INVALID_NODE_ID), n, ResetLocked)
    case ResetLocked => Goto(SetLocked(s, n, 0), n, ResetWaiting)
    case ResetWaiting => Goto(SetWaiting(s, n, INVALID_LOCK_ID), n, Idle)
    case Idle => s
    case Holding(_) => s
    case Refused(_) => s
  }

  /** The manager's first access for lock `l`: load the owner. */
  function ManagerCheck(s: State, l: LockId): State
    requires l < |s.entries|
  {
    s.(mgr := if s.entries[l].owner != INVALID_NODE_ID then Between else LoadHead(l))
  }

  /** The manager's next access. */
  function ManagerAccess(s: State): State
    requires Shaped(s) && s.mgr != Between
  {
    match s.mgr
    case LoadHead(l) =>
      var h := s.entries[l].head;
      s.(mgr := if h == INVALID_NODE_ID || h >= |s.nodes| then Between else LoadLocked(l, h))
    case LoadLocked(l, h) =>
      s.(mgr := if h < |s.nodes| then LoadWaiting(l, h, s.nodes[h].locked) else Between)
    case LoadWaiting(l, h, v) =>
      s.(mgr := if h < |s.nodes| && v == 1 && s.nodes[h].waiting == l then StoreLocked(l, h) else Between)
    case StoreLocked(l, h) => LogOwner(SetLocked(s, h, 2), l, h).(mgr := StoreOwner(l, h))
    case StoreOwner(l, h) => SetOwner(s, l, h).(mgr := Between)
  }

  function Apply(s: State, st: Step): State
    requires Shaped(s) && Enabled(s, st)
  {
    match st
    case Acquire(n, l) =>
      Goto(s.(nodes := s.nodes[n := McsNode(INVALID_NODE_ID, 1, l)]), n, Swap(l, INVALID_NODE_ID))
    case Access(n) => NodeAccess(s, n)
    case BeginRelease(n) => Goto(s, n, CheckOwner(s.pc[n].l))
    case BeginCancel(n) => Goto(s, n, CheckCancel(s.pc[n].l))
    case Check(l) => ManagerCheck(s, l)
    case Manage => ManagerAccess(s)
  }

  lemma ReleaseAccessShaped(s: State, n: NodeId)
    requires Shaped(s) && Enabled(s, Access(n)) && (s.pc[n].PassHead? || s.pc[n].PassOwner? || s.pc[n].DropTail? || s.pc[n].Wake?
                                                   || s.pc[n].ClearHead? || s.pc[n].ClearOwner?)
    ensures Shaped(NodeAccess(s, n))
    ensures |NodeAccess(s, n).nodes| == |s.nodes| && |NodeAccess(s, n).entries| == |s.entries|
  {
  }

  lemma AccessShaped(s: State, n: NodeId)
    requires Shaped(s) && Enabled(s, Access(n))
    ensures Shaped(NodeAccess(s, n))
    ensures |NodeAccess(s, n).nodes| == |s.nodes| && |NodeAccess(s, n).entries| == |s.entries|
  {
    if s.pc[n].PassHead? || s.pc[n].PassOwner? || s.pc[n].DropTail? || s.pc[n].Wake? || s.pc[n].ClearHead? || s.pc[n].ClearOwner? {
      ReleaseAccessShaped(s, n);
    }
  }

  /** An access of a node moves its own program counter only, and not the manager's. */
  lemma AccessKeepsOthers(s: State, n: NodeId)
    requires Shaped(s) && Enabled(s, Access(n))
    ensures |NodeAccess(s, n).pc| == |s.pc| && NodeAccess(s, n).mgr == s.mgr
    ensures forall m :: 0 <= m < |s.pc| && m != n ==> NodeAccess(s, n).pc[m] == s.pc[m]
  {
    assert NodeAccess(s, n).pc == s.pc[n := NodeAccess(s, n).pc[n]];
  }

  lemma ApplyShaped(s: State, st: Step)
    requires Shaped(s) && Enabled(s, st)
    ensures Shaped(Apply(s, st))
    ensures |Apply(s, st).nodes| == |s.nodes| && |Apply(s, st).entries| == |s.entries|
  {
    if st.Access? {
      AccessShaped(s, st.n);
    }
  }

  /** The holder that emptied the queue of `l` has not cleared the head yet. */
  predicate Departing(s: State, l: LockId)
    requires Shaped(s) && l < |s.entries|
  {
    s.entries[l].owner < |s.pc| && s.pc[s.entries[l].owner] == ClearHead(l)
  }

  /**
   The three places where another order of the accesses has another outcome. A holder
   checks its ownership after the manager has set its record but before the manager has
   stored the owner; a newcomer stores the head after the last holder has emptied the queue
   but before that holder has cleared the head; a waiter that gives up checks its ownership
   after its predecessor has stored it as owner but before that has woken it.
   */
  predicate Races(s: State, st: Step)
    requires Shaped(s)
  {
    st.Access? && st.n < |s.pc| &&
    match s.pc[st.n]
    case CheckOwner(l) => s.mgr == StoreOwner(l, st.n)
    case SetHead(l) => l < |s.entries| && Departing(s, l)
    case CheckCancel(l) => l < |s.entries| && s.entries[l].owner == st.n && s.nodes[st.n].locked == 1
    case _ => false
  }

  /** `run` leads from `s` to `t` without a race. */
  predicate RaceFreeRun(s: State, run: seq<Step>, t: State)
    requires Shaped(s)
    ensures RaceFreeRun(s, run, t) ==> Shaped(t) && |t.nodes| == |s.nodes| && |t.entries| == |s.entries|
    decreases run
  {
    if run == [] then s == t
    else
      && Enabled(s, run[0])
      && !Races(s, run[0])
      && (ApplyShaped(s, run[0]); RaceFreeRun(Apply(s, run[0]), run[1..], t))
  }
}
