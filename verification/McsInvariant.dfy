/**
 The invariant of the MCS queue lock: how the shared words, the program counters and the
 ghost queue of each lock hang together.
 */
module McsInvariant {
  import opened LockTypes
  import opened LockService
  import opened McsProtocol

  /** The node has swapped itself into the tail of `l` and has not passed the lock on yet. */
  predicate InQueue(p: Pc, l: LockId)
  {
    (p.SetHead? || p.LinkPred? || p.Waiting? || p.PollLock? || p.CheckCancel? || p.Holding? || p.CheckOwner?
     || p.ReadNext? || p.DropTail? || p.Spin? || p.PassHead? || p.PassOwner?)
    && p.l == l
  }

  predicate Polling(p: Pc, l: LockId)
  {
    (p.Waiting? || p.PollLock? || p.CheckCancel?) && p.l == l
  }

  /** The client of the node was told that it has `l`, or a release has been accepted, and the lock has not moved on. */
  predicate Owning(p: Pc, l: LockId)
  {
    (p.Holding? || p.CheckOwner? || p.ReadNext? || p.DropTail? || p.Spin? || p.PassHead? || p.PassOwner?)
    && p.l == l
  }

  /** The owner check of the release has succeeded. */
  predicate Leaving(p: Pc, l: LockId)
  {
    (p.ReadNext? || p.DropTail? || p.Spin? || p.PassHead? || p.PassOwner?) && p.l == l
  }

  /** The queue of `l` is duplicate free, its nodes are in it, and the tail is its last node. */
  ghost predicate QueueInv(s: State, l: LockId)
    requires Shaped(s) && l < |s.entries|
  {
    var q := s.queue[l];
    && Distinct(q)
    && (forall i :: 0 <= i < |q| ==>
          q[i] < |s.pc| && InQueue(s.pc[q[i]], l) && s.nodes[q[i]].waiting == l)
    && s.entries[l].tail == (if q == [] then INVALID_NODE_ID else q[|q| - 1])
  }

  /** The node at position `i` waits, and it is linked or is the one that will store the link. */
  ghost predicate LinkedAt(s: State, l: LockId, i: nat)
    requires Shaped(s) && l < |s.entries| && 1 <= i < |s.queue[l]|
    requires s.queue[l][i - 1] < |s.pc| && s.queue[l][i] < |s.pc|
  {
    var a, b := s.queue[l][i - 1], s.queue[l][i];
    && s.nodes[b].locked == 1
    && (|| (s.pc[b] == LinkPred(l, a) && s.nodes[a].next == INVALID_NODE_ID)
        || (Polling(s.pc[b], l) && s.nodes[a].next == b))
    && (s.pc[b].PollLock? ==> s.pc[b].v == 1)
  }

  ghost predicate LinkInv(s: State, l: LockId)
    requires Shaped(s) && l < |s.entries| && QueueInv(s, l)
  {
    var q := s.queue[l];
    && (forall i :: 1 <= i < |q| ==> LinkedAt(s, l, i))
    && (q != [] ==> s.nodes[q[|q| - 1]].next == INVALID_NODE_ID)
  }

  /** Some node has been given `l`: it is the recorded owner, or the manager is recording it. */
  predicate Granted(s: State, l: LockId, n: NodeId)
    requires Shaped(s) && l < |s.entries|
  {
    s.entries[l].owner == n || s.mgr == StoreOwner(l, n)
  }

  /** The first node of the queue. */
  ghost predicate FirstInv(s: State, l: LockId)
    requires Shaped(s) && l < |s.entries| && s.queue[l] != [] && s.queue[l][0] < |s.pc|
  {
    var q, e := s.queue[l], s.entries[l];
    var n := q[0];
    var p := s.pc[n];
    && !p.LinkPred?
    && (p == SetHead(l) ==> !Granted(s, l, n) && (e.head == INVALID_NODE_ID || Departing(s, l)))
    && (Owning(p, l) ==> Granted(s, l, n))
    && (Leaving(p, l) ==> e.owner == n)
    && (if p == SetHead(l) then true
        else if p.PassOwner? then |q| >= 2 && e.head == q[1]
        else e.head == n)
    && (!Granted(s, l, n) ==> s.nodes[n].locked == 1)
    && (s.mgr == StoreOwner(l, n) ==> s.nodes[n].locked == 2)
    && (p.PollLock? && (p.v == 0 || p.v == 2) ==> Granted(s, l, n))
  }

  /** The recorded owner is the first node, or the last holder on its way out. */
  ghost predicate OwnerInv(s: State, l: LockId)
    requires Shaped(s) && l < |s.entries|
  {
    var q, o := s.queue[l], s.entries[l].owner;
    && (o != INVALID_NODE_ID ==>
          || (q != [] && o == q[0])
          || (o < |s.pc| && (s.pc[o] == ClearHead(l) || s.pc[o] == ClearOwner(l))))
    && (q == [] ==> s.entries[l].head == INVALID_NODE_ID || Departing(s, l))
    && (q != [] && Departing(s, l) ==> q[0] < |s.pc| && s.pc[q[0]] == SetHead(l))
  }

  /** The logs: the queue is what is left of the swaps after the releases. */
  ghost predicate LogInv(s: State, l: LockId)
    requires Shaped(s) && l < |s.entries|
  {
    && s.releases[l] <= |s.swaps[l]|
    && s.queue[l] == s.swaps[l][s.releases[l]..]
    && |s.owners[l]| == s.releases[l] + (if Holder(s, l).Some? then 1 else 0) <= |s.swaps[l]|
    && s.owners[l] == s.swaps[l][..|s.owners[l]|]
  }

  /** The node that has been given `l` and has not given it up. */
  function Holder(s: State, l: LockId): Option<NodeId>
    requires Shaped(s) && l < |s.entries|
  {
    if s.queue[l] != [] && Granted(s, l, s.queue[l][0]) then Some(s.queue[l][0]) else None
  }

  ghost predicate LockInv(s: State, l: LockId)
    requires Shaped(s) && l < |s.entries|
  {
    && QueueInv(s, l)
    && LinkInv(s, l)
    && (s.queue[l] != [] ==> FirstInv(s, l))
    && OwnerInv(s, l)
    && LogInv(s, l)
  }

  /** What the program counter of a node says about the records. */
  ghost predicate NodeInv(s: State, n: NodeId)
    requires Shaped(s) && n < |s.pc|
  {
    var p := s.pc[n];
    var l := PcLock(p);
    && (InQueue(p, l) ==> n in s.queue[l])
    && (p.Swap? ==> p.seen != n)
    && (p.Swap? || p.Reload? ==> s.nodes[n] == McsNode(INVALID_NODE_ID, 1, l))
    && (p.Spin? ==> |s.queue[l]| >= 2)
    && (p.PassHead? || p.PassOwner? ==>
          |s.queue[l]| >= 2 && p.succ == s.queue[l][1] && s.nodes[n].next == p.succ)
    && (p.Wake? ==>
          && s.queue[l] != [] && s.queue[l][0] == p.succ == s.entries[l].owner
          && p.succ < |s.pc| && Polling(s.pc[p.succ], l) && s.nodes[p.succ].locked == 1
          && (s.pc[p.succ].PollLock? ==> s.pc[p.succ].v == 1))
    && (p.ClearHead? || p.ClearOwner? ==> s.entries[l].owner == n)
    && !p.Refused?
  }

  predicate WakesOn(p: Pc, l: LockId)
  {
    p.Wake? && p.l == l
  }

  /** At most one node is about to wake the new holder of a lock. */
  ghost predicate OneWaker(s: State)
  {
    forall a, b, l :: 0 <= a < |s.pc| && 0 <= b < |s.pc| && WakesOn(s.pc[a], l) && WakesOn(s.pc[b], l) ==> a == b
  }

  /** What the manager has loaded is still true. */
  ghost predicate ManagerInv(s: State)
    requires Shaped(s)
  {
    match s.mgr
    case Between => true
    case LoadHead(l) => s.entries[l].owner == INVALID_NODE_ID
    case LoadLocked(l, h) => s.entries[l].owner == INVALID_NODE_ID && IsFirst(s, l, h)
    case LoadWaiting(l, h, v) => s.entries[l].owner == INVALID_NODE_ID && IsFirst(s, l, h) && v == 1
    case StoreLocked(l, h) => s.entries[l].owner == INVALID_NODE_ID && IsFirst(s, l, h)
    case StoreOwner(l, h) => s.entries[l].owner == INVALID_NODE_ID && IsFirst(s, l, h) && !Leaving(s.pc[h], l)
  }

  /** `h` is the head of `l`, first in its queue, and has stored the head. */
  ghost predicate IsFirst(s: State, l: LockId, h: NodeId)
    requires Shaped(s) && l < |s.entries|
  {
    && s.queue[l] != [] && s.queue[l][0] == h == s.entries[l].head && h < |s.pc|
    && s.pc[h] != SetHead(l)
  }

  ghost predicate Inv(s: State)
  {
    && Shaped(s)
    && (forall l :: 0 <= l < |s.entries| ==> LockInv(s, l))
    && (forall n :: 0 <= n < |s.pc| ==> NodeInv(s, n))
    && OneWaker(s)
    && ManagerInv(s)
  }

  lemma InitInv(nodeCount: nat, lockCount: nat)
    requires nodeCount <= INVALID_NODE_ID && 0 < lockCount <= INVALID_LOCK_ID
    ensures Inv(InitState(nodeCount, lockCount))
  {
  }
}
