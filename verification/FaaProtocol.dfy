/**
 The ticket lock as a transition system.  Acquiring a lock, leaving it and the manager's
 check with the grant that follows are one step each.  A node has one ticket record for
 all locks, and the record does not name the lock; the ghost fields remember it.
 */
module FaaProtocol {
  import opened LockTypes
  import opened LockService

  const TICKET_LIMIT: nat := 0xFFFF_FFFF

  /** The per-lock record: `next_ticket`, `now_serving`, `owner_node`. */
  datatype Entry = Entry(next: nat, serving: nat, owner: NodeId)

  /** The per-node record. */
  datatype Ticket = Ticket(ticket: nat, active: bool)

  datatype State = State(
    entries: seq<Entry>,
    tickets: seq<Ticket>,
    at: seq<LockId>,          // ghost: the lock for which the node last drew a ticket
    queue: seq<seq<NodeId>>)  // ghost, per lock: the active nodes in the order of their draws

  datatype Step =
    | Draw(n: NodeId, l: LockId)   // acquire_lock
    | Leave(n: NodeId, l: LockId)  // release_lock: a release or, before the grant, a cancel
    | Serve(l: LockId)             // the manager: check_grant, then grant_lock

  const FREE_ENTRY := Entry(0, 0, INVALID_NODE_ID)
  const NO_TICKET := Ticket(0, false)

  function InitState(nodeCount: nat, lockCount: nat): State
  {
    State(seq(lockCount, _ => FREE_ENTRY), seq(nodeCount, _ => NO_TICKET), seq(nodeCount, _ => 0), seq(lockCount, _ => []))
  }

  predicate Shaped(s: State)
  {
    |s.at| == |s.tickets| <= MAX_NODE_COUNT && |s.queue| == |s.entries|
  }

  /** A node draws a ticket only after it has left, and leaves only the lock it has drawn for. */
  predicate Enabled(s: State, st: Step)
    requires Shaped(s)
  {
    match st
    case Draw(n, l) => n < |s.tickets| && l < |s.entries| && !s.tickets[n].active && s.entries[l].next < TICKET_LIMIT
    case Leave(n, l) => n < |s.tickets| && l < |s.entries| && (s.tickets[n].active ==> s.at[n] == l)
    case Serve(l) => l < |s.entries|
  }

  /** The node with the smallest ticket among the first `upTo`, the first such node if several. */
  function MinNode(tickets: seq<Ticket>, upTo: nat): (m: NodeId)
    requires upTo <= |tickets|
    ensures m < upTo || m == INVALID_NODE_ID
  {
    if upTo == 0 then INVALID_NODE_ID
    else
      var m := MinNode(tickets, upTo - 1);
      var t := tickets[upTo - 1];
      if t.active && t.ticket < MinTicket(tickets, upTo - 1) then upTo - 1 else m
  }

  function MinTicket(tickets: seq<Ticket>, upTo: nat): nat
    requires upTo <= |tickets|
  {
    if upTo == 0 then TICKET_LIMIT
    else
      var t := tickets[upTo - 1];
      if t.active && t.ticket < MinTicket(tickets, upTo - 1) then t.ticket else MinTicket(tickets, upTo - 1)
  }

  /** The node that `check_grant` returns. */
  function Grantee(s: State, l: LockId): NodeId
    requires Shaped(s) && l < |s.entries|
  {
    if s.entries[l].owner != INVALID_NODE_ID then INVALID_NODE_ID else MinNode(s.tickets, |s.tickets|)
  }

  function GrantLock(s: State, n: NodeId, l: LockId): State
    requires Shaped(s) && l < |s.entries| && n < |s.tickets|
  {
    s.(entries := s.entries[l := s.entries[l].(owner := n, serving := s.tickets[n].ticket)])
  }

  /** The counter after one more draw; it is 32 bits wide. */
  function Counted(next: nat): nat
  {
    if next == TICKET_LIMIT then 0 else next + 1
  }

  function DrawTicket(s: State, n: NodeId, l: LockId): State
    requires Shaped(s) && l < |s.entries| && n < |s.tickets|
  {
    var e := s.entries[l];
    State(s.entries[l := e.(next := Counted(e.next))], s.tickets[n := Ticket(e.next, true)],
          s.at[n := l], s.queue[l := s.queue[l] + [n]])
  }

  /** The owner is cleared whoever leaves. */
  function LeaveLock(s: State, n: NodeId, l: LockId): State
    requires Shaped(s) && l < |s.entries| && n < |s.tickets|
  {
    State(s.entries[l := s.entries[l].(owner := INVALID_NODE_ID)], s.tickets[n := NO_TICKET],
          s.at, s.queue[l := Without(s.queue[l], n)])
  }

  function ServeLock(s: State, l: LockId): State
    requires Shaped(s) && l < |s.entries|
  {
    var n := Grantee(s, l);
    if n < |s.tickets| then GrantLock(s, n, l) else s
  }

  function Apply(s: State, st: Step): State
    requires Shaped(s) && Enabled(s, st)
  {
    match st
    case Draw(n, l) => DrawTicket(s, n, l)
    case Leave(n, l) => LeaveLock(s, n, l)
    case Serve(l) => ServeLock(s, l)
  }

  predicate SameSize(s: State, t: State)
  {
    |t.entries| == |s.entries| && |t.tickets| == |s.tickets|
  }

  lemma ApplyShaped(s: State, st: Step)
    requires Shaped(s) && Enabled(s, st)
    ensures Shaped(Apply(s, st)) && SameSize(s, Apply(s, st))
  {
  }

  /**
   The test of the poll for lock `l`: it compares with "at least", and it is also passed
   by the first ticket before any grant.
   */
  predicate PollTest(s: State, n: NodeId, l: LockId)
    requires Shaped(s) && n < |s.tickets| && l < |s.entries|
  {
    s.entries[l].serving >= s.tickets[n].ticket && s.tickets[n].active
  }

  /** Node `n` has a ticket that it drew for `l`. */
  predicate Waiting(s: State, n: NodeId, l: LockId)
    requires Shaped(s) && n < |s.tickets|
  {
    s.tickets[n].active && s.at[n] == l
  }

  /** Node `n` drew its ticket for `l` and passes the poll. */
  predicate Holds(s: State, n: NodeId, l: LockId)
    requires Shaped(s) && n < |s.tickets| && l < |s.entries|
  {
    s.at[n] == l && PollTest(s, n, l)
  }

  /** The scan of `l` is about to grant the lock to a node that drew its ticket for another lock. */
  predicate Foreign(s: State, st: Step, l: LockId)
    requires Shaped(s) && l < |s.entries|
  {
    st == Serve(l) && Grantee(s, l) < |s.tickets| && s.at[Grantee(s, l)] != l
  }

  /** `run` leads from `s` to `t`, and no scan of `l` on the way grants to a node of another lock. */
  predicate NativeRun(s: State, run: seq<Step>, t: State, l: LockId)
    requires Shaped(s) && l < |s.entries|
    ensures NativeRun(s, run, t, l) ==> Shaped(t) && SameSize(s, t)
    decreases run
  {
    if run == [] then s == t
    else
      && Enabled(s, run[0])
      && !Foreign(s, run[0], l)
      && (ApplyShaped(s, run[0]); NativeRun(Apply(s, run[0]), run[1..], t, l))
  }

  /** Any run. */
  predicate IsRun(s: State, run: seq<Step>, t: State)
    requires Shaped(s)
    ensures IsRun(s, run, t) ==> Shaped(t) && SameSize(s, t)
    decreases run
  {
    if run == [] then s == t
    else Enabled(s, run[0]) && (ApplyShaped(s, run[0]); IsRun(Apply(s, run[0]), run[1..], t))
  }
}
