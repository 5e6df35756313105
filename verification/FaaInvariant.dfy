/** The invariant of one lock of the ticket lock, kept by every step that grants to its own nodes. */
module FaaInvariant {
  import opened LockTypes
  import opened LockService
  import opened FaaProtocol

  predicate InRange(q: seq<NodeId>, tickets: seq<Ticket>)
  {
    forall i :: 0 <= i < |q| ==> q[i] < |tickets|
  }

  predicate AllAbove(t: nat, q: seq<NodeId>, tickets: seq<Ticket>)
    requires InRange(q, tickets)
  {
    forall n :: n in q ==> t < tickets[n].ticket
  }

  /** The tickets grow along the queue. */
  predicate Increasing(q: seq<NodeId>, tickets: seq<Ticket>)
    requires InRange(q, tickets)
  {
    q != [] ==> AllAbove(tickets[q[0]].ticket, q[1..], tickets) && Increasing(q[1..], tickets)
  }

  /**
   What every step keeps, whatever lock the granted nodes have drawn for: the active nodes
   of the lock queue up by their tickets, and their tickets have been drawn.
   */
  ghost predicate QueueInv(s: State, l: LockId)
  {
    && Shaped(s) && l < |s.entries| && TicketsFit(s)
    && (forall n :: n in s.queue[l] <==> 0 <= n < |s.tickets| && Waiting(s, n, l))
    && InRange(s.queue[l], s.tickets) && Increasing(s.queue[l], s.tickets)
    && (forall n :: n in s.queue[l] ==> s.tickets[n].ticket < s.entries[l].next)
  }

  /** What every step keeps that grants the lock, if at all, to a node that has drawn for it. */
  ghost predicate LockInv(s: State, l: LockId)
  {
    && QueueInv(s, l)
    && (forall n :: n in s.queue[l] ==> s.entries[l].serving <= s.tickets[n].ticket)
    && (s.entries[l].serving < s.entries[l].next || s.entries[l].next == s.entries[l].serving == 0)
    && OwnerInv(s, l)
  }

  /** Every ticket in use is below the value with which the scan starts. */
  predicate TicketsFit(s: State)
    requires Shaped(s)
  {
    && (forall n :: 0 <= n < |s.tickets| && s.tickets[n].active ==> s.tickets[n].ticket < TICKET_LIMIT)
    && (forall l :: 0 <= l < |s.entries| ==> s.entries[l].next <= TICKET_LIMIT)
  }

  /** A recorded owner is the node that is being served. */
  predicate OwnerInv(s: State, l: LockId)
    requires Shaped(s) && l < |s.entries|
  {
    var h := s.entries[l].owner;
    h != INVALID_NODE_ID ==> h in s.queue[l] && h < |s.tickets| && s.tickets[h].ticket == s.entries[l].serving
  }

  lemma InitInv(nodeCount: nat, lockCount: nat, l: LockId)
    requires nodeCount <= MAX_NODE_COUNT && l < lockCount
    ensures LockInv(InitState(nodeCount, lockCount), l)
  {
  }

  // ------------------------------------------------------------------------------------
  // Increasing queues
  // ------------------------------------------------------------------------------------

  lemma {:induction false} IncreasingFrame(q: seq<NodeId>, tickets: seq<Ticket>, tickets': seq<Ticket>)
    requires InRange(q, tickets) && InRange(q, tickets') && Increasing(q, tickets)
    requires forall n :: n in q ==> tickets'[n] == tickets[n]
    ensures Increasing(q, tickets')
  {
    if q != [] {
      IncreasingFrame(q[1..], tickets, tickets');
    }
  }

  lemma {:induction false} IncreasingAppend(q: seq<NodeId>, n: NodeId, tickets: seq<Ticket>)
    requires InRange(q, tickets) && n < |tickets| && Increasing(q, tickets)
    requires forall m :: m in q ==> tickets[m].ticket < tickets[n].ticket
    ensures InRange(q + [n], tickets) && Increasing(q + [n], tickets)
  {
    if q != [] {
      IncreasingAppend(q[1..], n, tickets);
      assert (q + [n])[1..] == q[1..] + [n];
    }
  }

  lemma {:induction false} IncreasingWithout(q: seq<NodeId>, n: NodeId, tickets: seq<Ticket>)
    requires InRange(q, tickets) && Increasing(q, tickets)
    ensures InRange(Without(q, n), tickets) && Increasing(Without(q, n), tickets)
  {
    if q != [] {
      IncreasingWithout(q[1..], n, tickets);
      if q[0] != n {
        assert Without(q, n)[1..] == Without(q[1..], n);
      }
    }
  }

  lemma {:induction false} IncreasingIsDistinct(q: seq<NodeId>, tickets: seq<Ticket>)
    requires InRange(q, tickets) && Increasing(q, tickets)
    ensures Distinct(q)
    ensures forall n, m :: n in q && m in q && tickets[n].ticket == tickets[m].ticket ==> n == m
  {
    if q != [] {
      IncreasingIsDistinct(q[1..], tickets);
      assert forall n :: n in q ==> n == q[0] || n in q[1..];
      forall i, j | 0 <= i < j < |q| ensures q[i] != q[j] {
        assert q[j] == q[1..][j - 1];
        if i > 0 { assert q[i] == q[1..][i - 1]; }
      }
    }
  }

  // ------------------------------------------------------------------------------------
  // The scan for the smallest ticket
  // ------------------------------------------------------------------------------------

  /** The scan finds an active node with the smallest ticket, or no node where none is active. */
  lemma {:induction false} MinNodeIsMin(tickets: seq<Ticket>, upTo: nat)
    requires upTo <= |tickets| <= MAX_NODE_COUNT
    requires forall n :: 0 <= n < upTo && tickets[n].active ==> tickets[n].ticket < TICKET_LIMIT
    ensures var m := MinNode(tickets, upTo);
            if m == INVALID_NODE_ID
            then MinTicket(tickets, upTo) == TICKET_LIMIT && forall n :: 0 <= n < upTo ==> !tickets[n].active
            else m < upTo && tickets[m].active && MinTicket(tickets, upTo) == tickets[m].ticket
                 && (forall n :: 0 <= n < upTo && tickets[n].active ==> tickets[m].ticket <= tickets[n].ticket)
                 && (forall n :: 0 <= n < m && tickets[n].active ==> tickets[m].ticket < tickets[n].ticket)
  {
    if upTo > 0 {
      MinNodeIsMin(tickets, upTo - 1);
    }
  }

  lemma HeadIsLeast(q: seq<NodeId>, n: NodeId, tickets: seq<Ticket>)
    requires InRange(q, tickets) && Increasing(q, tickets) && n in q && n < |tickets|
    ensures n == q[0] || tickets[q[0]].ticket < tickets[n].ticket
  {
    if n != q[0] {
      assert n in q[1..];
    }
  }

  /** If it names a node of lock `l`, the scan names the first in its queue. */
  lemma GranteeIsFirst(s: State, l: LockId)
    requires QueueInv(s, l) && Grantee(s, l) < |s.tickets| && s.at[Grantee(s, l)] == l
    ensures s.queue[l] != [] && s.queue[l][0] == Grantee(s, l)
  {
    MinNodeIsMin(s.tickets, |s.tickets|);
    var n := Grantee(s, l);
    assert n in s.queue[l] && s.queue[l][0] in s.queue[l];
    HeadIsLeast(s.queue[l], n, s.tickets);
  }

  // ------------------------------------------------------------------------------------
  // The steps
  // ------------------------------------------------------------------------------------

  lemma StepFits(s: State, st: Step)
    requires Shaped(s) && Enabled(s, st) && TicketsFit(s)
    ensures Shaped(Apply(s, st)) && TicketsFit(Apply(s, st))
  {
  }

  lemma DrawQueue(s: State, n: NodeId, k: LockId, l: LockId)
    requires QueueInv(s, l) && Enabled(s, Draw(n, k))
    ensures QueueInv(DrawTicket(s, n, k), l)
  {
    var t := DrawTicket(s, n, k);
    StepFits(s, Draw(n, k));
    assert n !in s.queue[l];
    IncreasingFrame(s.queue[l], s.tickets, t.tickets);
    if k == l {
      IncreasingAppend(s.queue[l], n, t.tickets);
    }
  }

  lemma LeaveQueue(s: State, n: NodeId, k: LockId, l: LockId)
    requires QueueInv(s, l) && Enabled(s, Leave(n, k))
    ensures QueueInv(LeaveLock(s, n, k), l)
  {
    var t := LeaveLock(s, n, k);
    StepFits(s, Leave(n, k));
    if k == l {
      IncreasingWithout(s.queue[l], n, s.tickets);
      IncreasingFrame(t.queue[l], s.tickets, t.tickets);
    } else {
      assert n !in s.queue[l];
      IncreasingFrame(s.queue[l], s.tickets, t.tickets);
    }
  }

  /** Every step of every node and every scan keeps the queue of every lock. */
  lemma StepQueue(s: State, st: Step, l: LockId)
    requires QueueInv(s, l) && Enabled(s, st)
    ensures QueueInv(Apply(s, st), l)
  {
    match st {
      case Draw(n, k) => DrawQueue(s, n, k, l);
      case Leave(n, k) => LeaveQueue(s, n, k, l);
      case Serve(k) =>
    }
  }

  lemma ServeInv(s: State, k: LockId, l: LockId)
    requires LockInv(s, l) && k < |s.entries| && !Foreign(s, Serve(k), l)
    ensures LockInv(ServeLock(s, k), l)
  {
    StepQueue(s, Serve(k), l);
    if k == l && Grantee(s, l) < |s.tickets| {
      GranteeIsFirst(s, l);
      assert forall n :: n in s.queue[l] ==> n == s.queue[l][0] || n in s.queue[l][1..];
    }
  }

  lemma LeaveInv(s: State, n: NodeId, k: LockId, l: LockId)
    requires LockInv(s, l) && Enabled(s, Leave(n, k))
    ensures LockInv(LeaveLock(s, n, k), l)
  {
    StepQueue(s, Leave(n, k), l);
  }

  lemma DrawInv(s: State, n: NodeId, k: LockId, l: LockId)
    requires LockInv(s, l) && Enabled(s, Draw(n, k))
    ensures LockInv(DrawTicket(s, n, k), l)
  {
    StepQueue(s, Draw(n, k), l);
  }

  /** Every step keeps the invariant of a lock unless it grants that lock to a node of another. */
  lemma StepInv(s: State, st: Step, l: LockId)
    requires LockInv(s, l) && Enabled(s, st) && !Foreign(s, st, l)
    ensures LockInv(Apply(s, st), l)
  {
    match st {
      case Draw(n, k) => DrawInv(s, n, k, l);
      case Leave(n, k) => LeaveInv(s, n, k, l);
      case Serve(k) => ServeInv(s, k, l);
    }
  }
}
