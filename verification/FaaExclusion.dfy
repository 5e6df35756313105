/**
 Who is inside a lock of the ticket lock, over every run: with any number of locks in use,
 whatever node a scan grants a lock to.  There is one kind of step that lets a second node
 in, and without it every run is a run of the in-order service.
 */
module FaaExclusion {
  import opened LockTypes
  import opened LockService
  import opened FaaProtocol
  import opened FaaInvariant

  /** The nodes that drew for the lock and pass the poll at this moment. */
  function Holders(s: State, l: LockId): set<NodeId>
    requires Shaped(s) && l < |s.entries|
  {
    set n | 0 <= n < |s.tickets| && Holds(s, n, l)
  }

  /**
   The nodes that can be in their critical section after a step: who was inside stays there
   until it leaves, even if `now_serving` falls below its ticket, and who passes the poll
   comes in.
   */
  function Inside(s: State, inside: set<NodeId>, st: Step, l: LockId): set<NodeId>
    requires Shaped(s) && Enabled(s, st) && l < |s.entries|
  {
    ApplyShaped(s, st);
    (if st.Leave? then inside - {st.n} else inside) + Holders(Apply(s, st), l)
  }

  predicate AtMostOne(inside: set<NodeId>)
  {
    forall a, b :: a in inside && b in inside ==> a == b
  }

  /** The nodes inside are queued for the lock, before all others, and nobody else passes the poll. */
  ghost predicate InsideInv(s: State, inside: set<NodeId>, l: LockId)
  {
    && QueueInv(s, l)
    && (forall n :: n in inside ==> n in s.queue[l])
    && Holders(s, l) <= inside
    && (forall a, b :: a in inside && b in s.queue[l] && b !in inside ==> s.tickets[a].ticket < s.tickets[b].ticket)
  }

  /**
   A node draws a ticket for the lock that `now_serving` has already passed, while some node
   passes the poll.  Whoever is about to draw can read this off the records.
   */
  ghost predicate Breaks(s: State, st: Step, l: LockId)
    requires Shaped(s) && l < |s.entries|
  {
    st.Draw? && st.l == l && s.entries[l].next <= s.entries[l].serving && exists n :: 0 <= n < |s.tickets| && Holds(s, n, l)
  }

  // ------------------------------------------------------------------------------------
  // What each step does to the nodes inside
  // ------------------------------------------------------------------------------------

  lemma DrawInside(s: State, inside: set<NodeId>, n: NodeId, k: LockId, l: LockId)
    requires InsideInv(s, inside, l) && Enabled(s, Draw(n, k))
    ensures Inside(s, inside, Draw(n, k), l)
            == if k == l && s.entries[l].next <= s.entries[l].serving then inside + {n} else inside
  {
    var t := DrawTicket(s, n, k);
    forall m | m in Holders(t, l) && m != n ensures m in inside {
      assert Holds(s, m, l);
    }
    if k == l {
      assert Holds(t, n, l) <==> s.entries[l].next <= s.entries[l].serving;
    }
  }

  lemma LeaveInside(s: State, inside: set<NodeId>, n: NodeId, k: LockId, l: LockId)
    requires InsideInv(s, inside, l) && Enabled(s, Leave(n, k))
    ensures Inside(s, inside, Leave(n, k), l) == inside - {n}
  {
    var t := LeaveLock(s, n, k);
    forall m | m in Holders(t, l) ensures m in inside && m != n {
      assert Holds(s, m, l);
    }
  }

  /** A grant lets nobody in beside a node that is inside, and else at most the first of the queue. */
  lemma ServeInside(s: State, inside: set<NodeId>, k: LockId, l: LockId)
    requires InsideInv(s, inside, l) && k < |s.entries|
    ensures var after := Inside(s, inside, Serve(k), l);
            after == inside || (k == l && inside == {} && s.queue[l] != [] && after == {s.queue[l][0]})
  {
    var t := ServeLock(s, k);
    if k == l && Grantee(s, l) < |s.tickets| {
      forall m | m in Holders(t, l) && m !in inside ensures inside == {} && s.queue[l] != [] && m == s.queue[l][0] {
        ServedIsFirst(s, l, m);
        FirstIsOutside(s, inside, l);
      }
    } else {
      forall m | m in Holders(t, l) ensures m in inside {
        assert Holds(s, m, l);
      }
    }
  }

  /** If the first of the queue is not inside, nobody is. */
  lemma FirstIsOutside(s: State, inside: set<NodeId>, l: LockId)
    requires InsideInv(s, inside, l) && s.queue[l] != [] && s.queue[l][0] !in inside
    ensures inside == {}
  {
    var q := s.queue[l];
    assert q[0] in q;
    forall a | a in inside ensures false {
      HeadIsLeast(q, a, s.tickets);
    }
  }

  /** Whoever passes the poll after a grant is the first of the queue. */
  lemma ServedIsFirst(s: State, l: LockId, m: NodeId)
    requires QueueInv(s, l) && Grantee(s, l) < |s.tickets|
    requires m < |s.tickets| && Holds(ServeLock(s, l), m, l)
    ensures s.queue[l] != [] && s.queue[l][0] == m
  {
    MinNodeIsMin(s.tickets, |s.tickets|);
    assert m in s.queue[l] && s.queue[l][0] in s.queue[l];
    HeadIsLeast(s.queue[l], m, s.tickets);
  }

  lemma StepInside(s: State, inside: set<NodeId>, st: Step, l: LockId)
    requires InsideInv(s, inside, l) && Enabled(s, st)
    ensures InsideInv(Apply(s, st), Inside(s, inside, st, l), l)
  {
    StepQueue(s, st, l);
    match st {
      case Draw(n, k) => DrawInside(s, inside, n, k, l);
      case Leave(n, k) => LeaveInside(s, inside, n, k, l);
      case Serve(k) =>
        ServeInside(s, inside, k, l);
        assert forall n :: n in s.queue[l] ==> n == s.queue[l][0] || n in s.queue[l][1..];
    }
  }

  lemma InitInside(nodeCount: nat, lockCount: nat, l: LockId)
    requires nodeCount <= MAX_NODE_COUNT && l < lockCount
    ensures InsideInv(InitState(nodeCount, lockCount), {}, l)
  {
  }

  // ------------------------------------------------------------------------------------
  // The exact condition for mutual exclusion
  // ------------------------------------------------------------------------------------

  /** A node inside is passing the poll if `now_serving` has passed every ticket drawn. */
  lemma InsideHolds(s: State, inside: set<NodeId>, n: NodeId, l: LockId)
    requires InsideInv(s, inside, l) && n in inside && s.entries[l].next <= s.entries[l].serving
    ensures n < |s.tickets| && Holds(s, n, l)
  {
    assert n in s.queue[l];
  }

  /** A step lets a second node in if and only if it is such a draw. */
  lemma SecondNodeExactlyByADraw(s: State, inside: set<NodeId>, st: Step, l: LockId)
    requires InsideInv(s, inside, l) && AtMostOne(inside) && Enabled(s, st)
    ensures !AtMostOne(Inside(s, inside, st, l)) <==> Breaks(s, st, l)
  {
    match st {
      case Draw(n, k) =>
        DrawInside(s, inside, n, k, l);
        assert n !in inside;
        if k == l && s.entries[l].next <= s.entries[l].serving {
          forall a | a in inside ensures Holds(s, a, l) {
            InsideHolds(s, inside, a, l);
          }
          if m :| 0 <= m < |s.tickets| && Holds(s, m, l) {
            assert m in Holders(s, l);
          }
        }
      case Leave(n, k) => LeaveInside(s, inside, n, k, l);
      case Serve(k) => ServeInside(s, inside, k, l);
    }
  }

  /** The same about the poll alone: from at most one node that passes it to two. */
  lemma PollLetsTwoInExactlyByADraw(s: State, st: Step, l: LockId)
    requires QueueInv(s, l) && AtMostOne(Holders(s, l)) && Enabled(s, st)
    ensures Shaped(Apply(s, st)) && SameSize(s, Apply(s, st))
    ensures !AtMostOne(Holders(Apply(s, st), l)) <==> Breaks(s, st, l)
  {
    ApplyShaped(s, st);
    var t, now := Apply(s, st), Holders(s, l);
    SecondNodeExactlyByADraw(s, now, st, l);
    if Breaks(s, st, l) {
      var m :| 0 <= m < |s.tickets| && Holds(s, m, l);
      assert Holds(t, m, l) && Holds(t, st.n, l) && m != st.n;
      assert {m, st.n} <= Holders(t, l);
    }
  }

  /** At every moment of the run at most one node is inside. */
  ghost predicate Excludes(s: State, inside: set<NodeId>, run: seq<Step>, t: State, l: LockId)
    requires Shaped(s) && l < |s.entries| && IsRun(s, run, t)
    decreases run
  {
    && AtMostOne(inside)
    && (run != [] ==> (ApplyShaped(s, run[0]); Excludes(Apply(s, run[0]), Inside(s, inside, run[0], l), run[1..], t, l)))
  }

  /** The run has no such draw. */
  ghost predicate Guarded(s: State, run: seq<Step>, t: State, l: LockId)
    requires Shaped(s) && l < |s.entries| && IsRun(s, run, t)
    decreases run
  {
    run != [] ==> !Breaks(s, run[0], l) && (ApplyShaped(s, run[0]); Guarded(Apply(s, run[0]), run[1..], t, l))
  }

  lemma {:induction false} RunExcludes(s: State, inside: set<NodeId>, run: seq<Step>, t: State, l: LockId)
    requires InsideInv(s, inside, l) && AtMostOne(inside) && IsRun(s, run, t)
    ensures Excludes(s, inside, run, t, l) <==> Guarded(s, run, t, l)
    decreases run
  {
    if run != [] {
      ApplyShaped(s, run[0]);
      SecondNodeExactlyByADraw(s, inside, run[0], l);
      StepInside(s, inside, run[0], l);
      if !Breaks(s, run[0], l) {
        RunExcludes(Apply(s, run[0]), Inside(s, inside, run[0], l), run[1..], t, l);
      } else {
        var m := Inside(s, inside, run[0], l);
        assert !AtMostOne(m);
      }
    }
  }

  /** A run of the ticket lock is mutually exclusive if and only if no draw in it is of that kind. */
  lemma ExclusiveExactlyIfGuarded(nodeCount: nat, lockCount: nat, run: seq<Step>, t: State, l: LockId)
    requires nodeCount <= MAX_NODE_COUNT && l < lockCount && IsRun(InitState(nodeCount, lockCount), run, t)
    ensures Excludes(InitState(nodeCount, lockCount), {}, run, t, l) <==> Guarded(InitState(nodeCount, lockCount), run, t, l)
  {
    InitInside(nodeCount, lockCount, l);
    RunExcludes(InitState(nodeCount, lockCount), {}, run, t, l);
  }

  // ------------------------------------------------------------------------------------
  // Refinement of the in-order service
  // ------------------------------------------------------------------------------------

  function InsideAfter(s: State, inside: set<NodeId>, run: seq<Step>, t: State, l: LockId): set<NodeId>
    requires Shaped(s) && l < |s.entries| && IsRun(s, run, t)
    decreases run
  {
    if run == [] then inside
    else
      ApplyShaped(s, run[0]);
      InsideAfter(Apply(s, run[0]), Inside(s, inside, run[0], l), run[1..], t, l)
  }

  /** What lock `l` looks like to the nodes. */
  function Abstract(s: State, inside: set<NodeId>, l: LockId): FifoService
    requires Shaped(s) && l < |s.entries|
  {
    var q := s.queue[l];
    if inside != {} && q != [] then FifoService(Some(q[0]), q[1..]) else FifoService(None, q)
  }

  /** The holder of the service is the node inside. */
  lemma AbstractHolder(s: State, inside: set<NodeId>, l: LockId, n: NodeId)
    requires InsideInv(s, inside, l) && AtMostOne(inside)
    ensures Abstract(s, inside, l).holder == Some(n) <==> n in inside
    ensures Proper(Abstract(s, inside, l))
  {
    var q := s.queue[l];
    IncreasingIsDistinct(q, s.tickets);
    if a :| a in inside {
      assert a in q && q[0] in q;
      HeadIsLeast(q, a, s.tickets);
      assert a == q[0];
      assert forall i, j :: 0 <= i < j < |q[1..]| ==> q[1..][i] != q[1..][j];
    }
  }

  /** The operations of the service that a step performs on lock `l`. */
  function StepOps(s: State, inside: set<NodeId>, st: Step, l: LockId): seq<Op>
    requires Shaped(s) && Enabled(s, st) && l < |s.entries|
  {
    match st
    case Draw(n, k) =>
      if k != l then []
      else if s.entries[l].next <= s.entries[l].serving then [Request(n), Grant(n)]
      else [Request(n)]
    case Leave(n, k) =>
      if k != l || !s.tickets[n].active then []
      else if n in inside then [Release(n)]
      else [Cancel(n)]
    case Serve(_) =>
      if Inside(s, inside, st, l) == inside || s.queue[l] == [] then [] else [Grant(s.queue[l][0])]
  }

  lemma {:induction false} WithoutAbsent(q: seq<NodeId>, n: NodeId)
    requires n !in q
    ensures Without(q, n) == q
  {
    if q != [] {
      WithoutAbsent(q[1..], n);
    }
  }

  lemma DrawRefines(s: State, inside: set<NodeId>, n: NodeId, l: LockId)
    requires InsideInv(s, inside, l) && AtMostOne(inside) && Enabled(s, Draw(n, l)) && !Breaks(s, Draw(n, l), l)
    ensures Shaped(DrawTicket(s, n, l))
    ensures FifoPerforms(Abstract(s, inside, l), StepOps(s, inside, Draw(n, l), l),
                         Abstract(DrawTicket(s, n, l), Inside(s, inside, Draw(n, l), l), l))
  {
    var t, q, after := DrawTicket(s, n, l), s.queue[l], Inside(s, inside, Draw(n, l), l);
    DrawInside(s, inside, n, l, l);
    assert n !in q;
    if s.entries[l].next <= s.entries[l].serving {
      NobodyIsQueued(s, inside, n, l);
      FifoPerformsOne(FifoService(None, [n]), Grant(n), Abstract(t, after, l));
      assert [Request(n), Grant(n)][1..] == [Grant(n)] && [n][1..] == [];
    } else {
      if q != [] { assert (q + [n])[1..] == q[1..] + [n]; }
      FifoPerformsOne(Abstract(s, inside, l), Request(n), Abstract(t, after, l));
    }
  }

  lemma NobodyIsQueued(s: State, inside: set<NodeId>, n: NodeId, l: LockId)
    requires InsideInv(s, inside, l) && Enabled(s, Draw(n, l)) && !Breaks(s, Draw(n, l), l)
    requires s.entries[l].next <= s.entries[l].serving
    ensures s.queue[l] == [] && inside == {}
  {
    if s.queue[l] != [] {
      assert s.queue[l][0] in s.queue[l];
      assert Holds(s, s.queue[l][0], l);
    }
  }

  lemma LeaveRefines(s: State, inside: set<NodeId>, n: NodeId, l: LockId)
    requires InsideInv(s, inside, l) && AtMostOne(inside) && Enabled(s, Leave(n, l))
    ensures Shaped(LeaveLock(s, n, l))
    ensures FifoPerforms(Abstract(s, inside, l), StepOps(s, inside, Leave(n, l), l),
                         Abstract(LeaveLock(s, n, l), Inside(s, inside, Leave(n, l), l), l))
  {
    var t, q, after := LeaveLock(s, n, l), s.queue[l], Inside(s, inside, Leave(n, l), l);
    LeaveInside(s, inside, n, l, l);
    AbstractHolder(s, inside, l, n);
    if !s.tickets[n].active {
      WithoutAbsent(q, n);
      assert n !in inside && after == inside;
    } else if n in inside {
      IncreasingIsDistinct(q, s.tickets);
      assert n in q && n == q[0] && inside == {n} && after == {};
      WithoutAbsent(q[1..], n);
      FifoPerformsOne(Abstract(s, inside, l), Release(n), Abstract(t, after, l));
    } else {
      assert n in q && after == inside;
      CancelKeepsHolder(s, inside, n, l);
      FifoPerformsOne(Abstract(s, inside, l), Cancel(n), Abstract(t, after, l));
    }
  }

  /** A waiter that withdraws leaves the line; the holder stays, although the owner is cleared. */
  lemma CancelKeepsHolder(s: State, inside: set<NodeId>, n: NodeId, l: LockId)
    requires InsideInv(s, inside, l) && AtMostOne(inside) && Enabled(s, Leave(n, l)) && n in s.queue[l] && n !in inside
    ensures var t := LeaveLock(s, n, l);
            && Shaped(t) && FifoAllowed(Abstract(s, inside, l), Cancel(n))
            && FifoDo(Abstract(s, inside, l), Cancel(n)) == Abstract(t, inside, l)
  {
    var q := s.queue[l];
    if a :| a in inside {
      AbstractHolder(s, inside, l, a);
      assert a == q[0] != n;
      assert Without(q, n) == [q[0]] + Without(q[1..], n);
    }
  }

  lemma ServeRefines(s: State, inside: set<NodeId>, k: LockId, l: LockId)
    requires InsideInv(s, inside, l) && k < |s.entries|
    ensures Shaped(ServeLock(s, k))
    ensures FifoPerforms(Abstract(s, inside, l), StepOps(s, inside, Serve(k), l),
                         Abstract(ServeLock(s, k), Inside(s, inside, Serve(k), l), l))
  {
    var t, after := ServeLock(s, k), Inside(s, inside, Serve(k), l);
    ServeInside(s, inside, k, l);
    if after != inside {
      FifoPerformsOne(Abstract(s, inside, l), Grant(s.queue[l][0]), Abstract(t, after, l));
    }
  }

  lemma OtherRefines(s: State, inside: set<NodeId>, st: Step, l: LockId)
    requires InsideInv(s, inside, l) && Enabled(s, st) && st.l != l && !st.Serve?
    ensures Shaped(Apply(s, st)) && StepOps(s, inside, st, l) == []
    ensures Abstract(Apply(s, st), Inside(s, inside, st, l), l) == Abstract(s, inside, l)
  {
    match st {
      case Draw(n, k) => DrawInside(s, inside, n, k, l);
      case Leave(n, k) =>
        LeaveInside(s, inside, n, k, l);
        assert n !in inside;
    }
  }

  /** Every step but such a draw performs its operations on the in-order service. */
  lemma StepRefines(s: State, inside: set<NodeId>, st: Step, l: LockId)
    requires InsideInv(s, inside, l) && AtMostOne(inside) && Enabled(s, st) && !Breaks(s, st, l)
    ensures Shaped(Apply(s, st)) && SameSize(s, Apply(s, st))
    ensures FifoPerforms(Abstract(s, inside, l), StepOps(s, inside, st, l), Abstract(Apply(s, st), Inside(s, inside, st, l), l))
  {
    ApplyShaped(s, st);
    if st.Serve? {
      ServeRefines(s, inside, st.l, l);
    } else if st.l != l {
      OtherRefines(s, inside, st, l);
    } else if st.Draw? {
      DrawRefines(s, inside, st.n, l);
    } else {
      LeaveRefines(s, inside, st.n, l);
    }
  }

  function History(s: State, inside: set<NodeId>, run: seq<Step>, t: State, l: LockId): seq<Op>
    requires Shaped(s) && l < |s.entries| && IsRun(s, run, t)
    decreases run
  {
    if run == [] then []
    else
      ApplyShaped(s, run[0]);
      StepOps(s, inside, run[0], l) + History(Apply(s, run[0]), Inside(s, inside, run[0], l), run[1..], t, l)
  }

  /** Every run without such a draw performs a history of the in-order service, withdrawals included. */
  lemma {:induction false} RunRefines(s: State, inside: set<NodeId>, run: seq<Step>, t: State, l: LockId)
    requires InsideInv(s, inside, l) && AtMostOne(inside) && IsRun(s, run, t) && Guarded(s, run, t, l)
    ensures FifoPerforms(Abstract(s, inside, l), History(s, inside, run, t, l), Abstract(t, InsideAfter(s, inside, run, t, l), l))
    decreases run
  {
    if run != [] {
      var m, after := Apply(s, run[0]), Inside(s, inside, run[0], l);
      StepRefines(s, inside, run[0], l);
      SecondNodeExactlyByADraw(s, inside, run[0], l);
      StepInside(s, inside, run[0], l);
      RunRefines(m, after, run[1..], t, l);
      FifoPerformsConcat(Abstract(s, inside, l), StepOps(s, inside, run[0], l), Abstract(m, after, l),
                         History(m, after, run[1..], t, l), Abstract(t, InsideAfter(m, after, run[1..], t, l), l));
    }
  }
}
