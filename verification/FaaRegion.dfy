/**
 The ticket lock as code over shared memory: the records are arrays that the calls store
 into in place.  Each call is one step of the transition system.
 */
module FaaRegion {
  import opened LockTypes
  import opened LockService
  import opened FaaProtocol
  import opened FaaInvariant
  import opened FaaExclusion

  class Region {
    const entries: array<Entry>
    const tickets: array<Ticket>
    ghost var at: seq<LockId>
    ghost var queue: seq<seq<NodeId>>

    ghost function Now(): State
      reads this, entries, tickets
    {
      State(entries[..], tickets[..], at, queue)
    }

    /** `initialize`: the region is cleared, then the entries and the tickets are set up. */
    constructor (nodeCount: nat, lockCount: nat)
      requires nodeCount <= MAX_NODE_COUNT
      ensures fresh(entries) && fresh(tickets)
      ensures Now() == InitState(nodeCount, lockCount)
      ensures forall l :: 0 <= l < lockCount ==> LockInv(Now(), l) && InsideInv(Now(), {}, l)
    {
      var es := new Entry[lockCount](_ => Entry(0, 0, 0));
      var ts := new Ticket[nodeCount](_ => NO_TICKET);
      entries, tickets := es, ts;
      at := seq(nodeCount, _ => 0);
      queue := seq(lockCount, _ => []);
      new;
      ghost var init := InitState(nodeCount, lockCount);
      for l := 0 to lockCount
        invariant entries == es && tickets == ts && at == init.at && queue == init.queue && tickets[..] == init.tickets
        invariant forall k :: 0 <= k < l ==> entries[k] == FREE_ENTRY
        modifies entries
      {
        entries[l] := FREE_ENTRY;
      }
      assert Now() == init;
      forall l | 0 <= l < lockCount ensures LockInv(Now(), l) && InsideInv(Now(), {}, l) {
        InitInv(nodeCount, lockCount, l);
        InitInside(nodeCount, lockCount, l);
      }
    }

    method StoreTicket(n: NodeId, t: Ticket)
      requires n < tickets.Length
      modifies tickets
      ensures tickets[..] == old(tickets[..])[n := t]
    {
      tickets[n] := t;
    }

    method StoreEntry(l: LockId, e: Entry)
      requires l < entries.Length
      modifies entries
      ensures entries[..] == old(entries[..])[l := e]
    {
      entries[l] := e;
    }

    method FetchAddTicket(l: LockId) returns (t: nat)
      requires l < entries.Length
      modifies entries
      ensures t == old(entries[l].next) && entries[..] == old(entries[..])[l := old(entries[l]).(next := Counted(t))]
    {
      t := entries[l].next;
      StoreEntry(l, entries[l].(next := if t == TICKET_LIMIT then 0 else t + 1));
    }

    /** `acquire_lock`: the ticket is the number of tickets drawn before; a ticket that the node still has is lost. */
    method AcquireLock(n: NodeId, l: LockId) returns (r: LockResult)
      requires n != INVALID_NODE_ID ==> Shaped(Now()) && n < tickets.Length && l < entries.Length
      modifies this`at, this`queue, entries, tickets
      ensures if n == INVALID_NODE_ID then r == InvalidParam && Now() == old(Now())
              else r == Success && Now() == DrawTicket(old(Now()), n, l)
      ensures r == Success ==>
                var e := old(entries[l]);
                && entries[..] == old(entries[..])[l := e.(next := if e.next == 0xFFFF_FFFF then 0 else e.next + 1)]
                && tickets[..] == old(tickets[..])[n := Ticket(e.next, true)]
    {
      if n == INVALID_NODE_ID {
        return InvalidParam;
      }
      var ticket := FetchAddTicket(l);
      StoreTicket(n, Ticket(ticket, true));
      at := at[n := l];
      queue := queue[l := queue[l] + [n]];
      return Success;
    }

    /** `release_lock`: the owner and the ticket are cleared, whoever calls and whatever the ticket was drawn for. */
    method ReleaseLock(n: NodeId, l: LockId) returns (r: LockResult)
      requires n != INVALID_NODE_ID ==> Shaped(Now()) && n < tickets.Length && l < entries.Length
      modifies this`queue, entries, tickets
      ensures if n == INVALID_NODE_ID then r == InvalidParam && Now() == old(Now())
              else r == Success && Now() == LeaveLock(old(Now()), n, l)
      ensures r == Success ==>
                && entries[..] == old(entries[..])[l := Entry(old(entries[l].next), old(entries[l].serving), INVALID_NODE_ID)]
                && tickets[..] == old(tickets[..])[n := Ticket(0, false)]
    {
      if n == INVALID_NODE_ID {
        return InvalidParam;
      }
      StoreTicket(n, NO_TICKET);
      StoreEntry(l, entries[l].(owner := INVALID_NODE_ID));
      queue := queue[l := Without(queue[l], n)];
      return Success;
    }

    /** `check_grant`: the scan keeps the smallest ticket seen and the node that has it. */
    method CheckGrant(l: LockId) returns (grantee: NodeId)
      requires Shaped(Now()) && l < entries.Length
      ensures grantee == Grantee(Now(), l)
      ensures TicketsFit(Now()) && entries[l].owner == INVALID_NODE_ID ==>
                if grantee == INVALID_NODE_ID then forall n :: 0 <= n < tickets.Length ==> !tickets[n].active
                else grantee < tickets.Length && tickets[grantee].active &&
                     forall n :: 0 <= n < tickets.Length && tickets[n].active ==>
                         tickets[grantee].ticket <= tickets[n].ticket
      ensures entries[l].owner != INVALID_NODE_ID ==> grantee == INVALID_NODE_ID
      ensures TicketsFit(Now()) && grantee != INVALID_NODE_ID ==>
                forall n :: 0 <= n < grantee && tickets[n].active ==> tickets[grantee].ticket < tickets[n].ticket
    {
      if entries[l].owner != INVALID_NODE_ID {
        return INVALID_NODE_ID;
      }
      var minTicket, minNode := TICKET_LIMIT, INVALID_NODE_ID;
      for n := 0 to tickets.Length
        invariant minNode == MinNode(tickets[..], n) && minTicket == MinTicket(tickets[..], n)
      {
        if tickets[n].active {
          var t := tickets[n].ticket;
          if t < minTicket {
            minTicket, minNode := t, n;
          }
        }
      }
      if TicketsFit(Now()) {
        MinNodeIsMin(tickets[..], tickets.Length);
      }
      return minNode;
    }

    /** `grant_lock`. */
    method GrantTo(n: NodeId, l: LockId) returns (r: LockResult)
      requires n != INVALID_NODE_ID ==> Shaped(Now()) && n < tickets.Length && l < entries.Length
      modifies entries
      ensures if n == INVALID_NODE_ID then r == InvalidParam && Now() == old(Now())
              else r == Success && Now() == GrantLock(old(Now()), n, l)
      ensures r == Success ==>
                entries[..] == old(entries[..])[l := Entry(old(entries[l].next), tickets[n].ticket, n)]
    {
      if n == INVALID_NODE_ID {
        return InvalidParam;
      }
      ghost var before := entries[..];
      var ticket := tickets[n].ticket;
      StoreEntry(l, entries[l].(owner := n));
      StoreEntry(l, entries[l].(serving := ticket));
      assert entries[..] == before[l := before[l].(owner := n, serving := ticket)];
      return Success;
    }

    /** One lock of the manager's scan. */
    method CheckAndGrant(l: LockId) returns (granted: bool)
      requires Shaped(Now()) && l < entries.Length
      modifies entries
      ensures Now() == ServeLock(old(Now()), l)
      ensures granted <==> Grantee(old(Now()), l) != INVALID_NODE_ID
      ensures old(LockInv(Now(), l)) && !Foreign(old(Now()), Serve(l), l) ==> LockInv(Now(), l)
      ensures old(entries[l].owner) != INVALID_NODE_ID ==> !granted
      ensures !granted ==> Now() == old(Now())
      ensures granted ==>
                var n := Grantee(old(Now()), l);
                n < tickets.Length
                  && entries[..] == old(entries[..])[l := Entry(old(entries[l].next), tickets[n].ticket, n)]
    {
      ghost var s := Now();
      var grantee := CheckGrant(l);
      if LockInv(s, l) && !Foreign(s, Serve(l), l) {
        StepInv(s, Serve(l), l);
      }
      if grantee == INVALID_NODE_ID {
        return false;
      }
      var r := GrantTo(grantee, l);
      granted := r == Success;
    }

    /**
     The test of the poll.  A node that passes it with a ticket for this lock is inside,
     and as long as nothing has let two nodes in it is the first of the queue.
     */
    method Granted(n: NodeId, l: LockId, ghost inside: set<NodeId>) returns (granted: bool)
      requires Shaped(Now()) && n < tickets.Length && l < entries.Length
      ensures granted <==> PollTest(Now(), n, l)
      ensures granted && at[n] == l && InsideInv(Now(), inside, l) ==> n in inside
      ensures granted && at[n] == l && InsideInv(Now(), inside, l) && AtMostOne(inside) ==>
                l < |queue| && Abstract(Now(), inside, l).holder == Some(n)
      ensures at[n] == l ==> (granted <==> n in Holders(Now(), l))
      ensures granted <==> tickets[n].active && tickets[n].ticket <= entries[l].serving
    {
      granted := entries[l].serving >= tickets[n].ticket && tickets[n].active;
      if InsideInv(Now(), inside, l) && AtMostOne(inside) {
        AbstractHolder(Now(), inside, l, n);
      }
      assert at[n] == l ==> (granted <==> n in Holders(Now(), l));
    }
  }
}
