/** What holds in all runs of the ticket lock, and in those whose scans grant a lock to its own nodes. */
module FaaTheorems {
  import opened LockTypes
  import opened LockService
  import opened FaaProtocol
  import opened FaaInvariant
  import opened FaaExclusion

  // ------------------------------------------------------------------------------------
  // Every run
  // ------------------------------------------------------------------------------------

  lemma {:induction false} RunQueue(s: State, run: seq<Step>, t: State, l: LockId)
    requires QueueInv(s, l) && IsRun(s, run, t)
    ensures QueueInv(t, l)
    decreases run
  {
    if run != [] {
      StepQueue(s, run[0], l);
      RunQueue(Apply(s, run[0]), run[1..], t, l);
    }
  }

  ghost predicate ReachedBy(nodeCount: nat, lockCount: nat, run: seq<Step>, s: State, l: LockId)
  {
    nodeCount <= MAX_NODE_COUNT && l < lockCount && IsRun(InitState(nodeCount, lockCount), run, s)
  }

  ghost predicate Reachable(s: State, l: LockId)
  {
    Shaped(s) && l < |s.entries| &&
    exists nodeCount: nat, lockCount: nat, run: seq<Step> :: ReachedBy(nodeCount, lockCount, run, s, l)
  }

  lemma ReachableQueue(s: State, l: LockId)
    requires Reachable(s, l)
    ensures QueueInv(s, l)
  {
    var nodeCount: nat, lockCount: nat, run: seq<Step> :| ReachedBy(nodeCount, lockCount, run, s, l);
    InitInv(nodeCount, lockCount, l);
    RunQueue(InitState(nodeCount, lockCount), run, s, l);
  }

  /** The tickets in use for a lock differ, and all of them have been drawn. */
  lemma TicketsAreDistinct(s: State, l: LockId, a: NodeId, b: NodeId)
    requires Reachable(s, l) && a < |s.tickets| && b < |s.tickets| && Waiting(s, a, l) && Waiting(s, b, l)
    ensures s.tickets[a].ticket == s.tickets[b].ticket ==> a == b
    ensures s.tickets[a].ticket < s.entries[l].next
  {
    ReachableQueue(s, l);
    IncreasingIsDistinct(s.queue[l], s.tickets);
  }

  /** Its ticket is the smallest of all nodes, for whatever lock they drew. */
  predicate Smallest(s: State, n: NodeId)
    requires Shaped(s) && n < |s.tickets|
  {
    forall m :: 0 <= m < |s.tickets| && s.tickets[m].active ==> s.tickets[n].ticket <= s.tickets[m].ticket
  }

  /**
   What a scan does to a lock in any reachable state: it does nothing while an owner is
   recorded, and else exactly those nodes of the lock pass the poll whose ticket is the
   smallest of all locks.
   */
  lemma ScanServesTheSmallest(s: State, l: LockId)
    requires Reachable(s, l)
    ensures s.entries[l].owner != INVALID_NODE_ID ==> Apply(s, Serve(l)) == s
    ensures s.entries[l].owner == INVALID_NODE_ID ==>
              var t := Apply(s, Serve(l));
              SameSize(s, t) && forall n :: 0 <= n < |s.tickets| ==> (Holds(t, n, l) <==> Waiting(s, n, l) && Smallest(s, n))
  {
    ReachableQueue(s, l);
    MinNodeIsMin(s.tickets, |s.tickets|);
  }

  // ------------------------------------------------------------------------------------
  // Runs whose scans of the lock grant it to its own nodes
  // ------------------------------------------------------------------------------------

  lemma {:induction false} RunInv(s: State, run: seq<Step>, t: State, l: LockId)
    requires LockInv(s, l) && NativeRun(s, run, t, l)
    ensures LockInv(t, l) && IsRun(s, run, t)
    decreases run
  {
    if run != [] {
      StepInv(s, run[0], l);
      RunInv(Apply(s, run[0]), run[1..], t, l);
    }
  }

  ghost predicate NativelyReachedBy(nodeCount: nat, lockCount: nat, run: seq<Step>, s: State, l: LockId)
  {
    && nodeCount <= MAX_NODE_COUNT && l < lockCount
    && NativeRun(InitState(nodeCount, lockCount), run, s, l)
  }

  /** Reached without a grant of `l` to a node of another lock. */
  ghost predicate NativelyReachable(s: State, l: LockId)
  {
    Shaped(s) && l < |s.entries| &&
    exists nodeCount: nat, lockCount: nat, run: seq<Step> :: NativelyReachedBy(nodeCount, lockCount, run, s, l)
  }

  lemma NativelyReachableInv(s: State, l: LockId)
    requires NativelyReachable(s, l)
    ensures LockInv(s, l) && Reachable(s, l)
  {
    var nodeCount: nat, lockCount: nat, run: seq<Step> :| NativelyReachedBy(nodeCount, lockCount, run, s, l);
    InitInv(nodeCount, lockCount, l);
    RunInv(InitState(nodeCount, lockCount), run, s, l);
    assert ReachedBy(nodeCount, lockCount, run, s, l);
  }

  /** Such a run has none of the draws that let a second node in. */
  lemma {:induction false} NativeIsGuarded(s: State, run: seq<Step>, t: State, l: LockId)
    requires LockInv(s, l) && NativeRun(s, run, t, l)
    ensures IsRun(s, run, t) && Guarded(s, run, t, l)
    decreases run
  {
    if run != [] {
      if n :| 0 <= n < |s.tickets| && Holds(s, n, l) {
        assert n in s.queue[l];
      }
      StepInv(s, run[0], l);
      NativeIsGuarded(Apply(s, run[0]), run[1..], t, l);
    }
  }

  lemma StepServesOn(s: State, st: Step, l: LockId)
    requires LockInv(s, l) && Enabled(s, st) && !Foreign(s, st, l)
    ensures Shaped(Apply(s, st)) && SameSize(s, Apply(s, st))
    ensures Apply(s, st).entries[l].serving >= s.entries[l].serving
  {
    ApplyShaped(s, st);
    if st == Serve(l) && Grantee(s, l) < |s.tickets| {
      GranteeIsFirst(s, l);
    }
  }

  /** `now_serving` never decreases. */
  lemma {:induction false} ServingNeverDecreases(s: State, run: seq<Step>, t: State, l: LockId)
    requires LockInv(s, l) && NativeRun(s, run, t, l)
    ensures t.entries[l].serving >= s.entries[l].serving
    decreases run
  {
    if run != [] {
      StepServesOn(s, run[0], l);
      StepInv(s, run[0], l);
      ServingNeverDecreases(Apply(s, run[0]), run[1..], t, l);
    }
  }

  /** Whoever was inside still passes the poll, so the nodes inside are those that pass it. */
  lemma StepInsideIsThePoll(s: State, st: Step, l: LockId)
    requires LockInv(s, l) && Enabled(s, st) && !Foreign(s, st, l)
    ensures Shaped(Apply(s, st)) && SameSize(s, Apply(s, st))
    ensures Inside(s, Holders(s, l), st, l) == Holders(Apply(s, st), l)
  {
    StepServesOn(s, st, l);
    var t, inside := Apply(s, st), Holders(s, l);
    forall n | n in inside && !(st.Leave? && st.n == n) ensures Holds(t, n, l) {
      assert s.tickets[n] == t.tickets[n];
    }
  }

  lemma {:induction false} InsideIsThePoll(s: State, run: seq<Step>, t: State, l: LockId)
    requires LockInv(s, l) && NativeRun(s, run, t, l)
    ensures IsRun(s, run, t) && InsideAfter(s, Holders(s, l), run, t, l) == Holders(t, l)
    decreases run
  {
    RunInv(s, run, t, l);
    if run != [] {
      StepInsideIsThePoll(s, run[0], l);
      StepInv(s, run[0], l);
      InsideIsThePoll(Apply(s, run[0]), run[1..], t, l);
    }
  }

  /** At every moment of such a run at most one node is inside, namely the one that passes the poll. */
  lemma NativeRunExcludes(nodeCount: nat, lockCount: nat, run: seq<Step>, t: State, l: LockId)
    requires nodeCount <= MAX_NODE_COUNT && l < lockCount && NativeRun(InitState(nodeCount, lockCount), run, t, l)
    ensures var s := InitState(nodeCount, lockCount);
            IsRun(s, run, t) && Excludes(s, {}, run, t, l) && InsideAfter(s, {}, run, t, l) == Holders(t, l)
  {
    var s := InitState(nodeCount, lockCount);
    InitInv(nodeCount, lockCount, l);
    NativeIsGuarded(s, run, t, l);
    ExclusiveExactlyIfGuarded(nodeCount, lockCount, run, t, l);
    assert Holders(s, l) == {};
    InsideIsThePoll(s, run, t, l);
  }

  /** At most one node holds a lock, although the poll accepts every ticket up to `now_serving`. */
  lemma MutualExclusion(s: State, l: LockId, a: NodeId, b: NodeId)
    requires NativelyReachable(s, l) && a < |s.tickets| && b < |s.tickets| && Holds(s, a, l) && Holds(s, b, l)
    ensures a == b && s.tickets[a].ticket == s.entries[l].serving
    ensures s.entries[l].owner in {a, INVALID_NODE_ID}
  {
    NativelyReachableInv(s, l);
    TicketsAreDistinct(s, l, a, b);
    assert a in s.queue[l] && b in s.queue[l];
    var h := s.entries[l].owner;
    if h != INVALID_NODE_ID { TicketsAreDistinct(s, l, a, h); }
  }

  /** No ticket in use is below `now_serving`. */
  lemma NoTicketIsPassed(s: State, l: LockId, n: NodeId)
    requires NativelyReachable(s, l) && n < |s.tickets| && Waiting(s, n, l)
    ensures s.entries[l].serving <= s.tickets[n].ticket < s.entries[l].next
  {
    NativelyReachableInv(s, l);
    assert n in s.queue[l];
  }

  // ------------------------------------------------------------------------------------
  // One lock in use
  // ------------------------------------------------------------------------------------

  predicate DrawsOnly(run: seq<Step>, l: LockId)
  {
    forall i :: 0 <= i < |run| && run[i].Draw? ==> run[i].l == l
  }

  /** As long as tickets are drawn for one lock only, no scan of it grants to a node of another. */
  lemma {:induction false} OneLockIsNative(s: State, run: seq<Step>, t: State, l: LockId)
    requires Shaped(s) && l < |s.entries| && IsRun(s, run, t) && DrawsOnly(run, l) && TicketsFit(s)
    requires forall n :: 0 <= n < |s.tickets| && s.tickets[n].active ==> s.at[n] == l
    ensures NativeRun(s, run, t, l) && !Foreign(t, Serve(l), l)
    decreases run
  {
    MinNodeIsMin(s.tickets, |s.tickets|);
    if run != [] {
      ApplyShaped(s, run[0]);
      StepFits(s, run[0]);
      assert run[0].Draw? ==> run[0].l == l;
      assert forall i :: 0 <= i < |run[1..]| ==> run[1..][i] == run[i + 1];
      OneLockIsNative(Apply(s, run[0]), run[1..], t, l);
    }
  }

  /** With one lock in use every run meets the theorems about that lock, and so does the next scan. */
  lemma OneLockInUse(nodeCount: nat, lockCount: nat, run: seq<Step>, s: State, l: LockId)
    requires nodeCount <= MAX_NODE_COUNT && l < lockCount && DrawsOnly(run, l)
    requires IsRun(InitState(nodeCount, lockCount), run, s)
    ensures NativelyReachable(s, l) && !Foreign(s, Serve(l), l)
  {
    OneLockIsNative(InitState(nodeCount, lockCount), run, s, l);
    assert NativelyReachedBy(nodeCount, lockCount, run, s, l);
  }

  /** Node 0 has drawn the second ticket of lock 0, and nobody wants lock 1. */
  function SecondTicketDrawn(): State
  {
    State([Entry(2, 0, INVALID_NODE_ID), FREE_ENTRY], [Ticket(1, true), NO_TICKET, NO_TICKET], [0, 0, 0], [[0], []])
  }

  lemma SecondTicketIsDrawn(run: seq<Step>, t: State)
    requires IsRun(SecondTicketDrawn(), run, t)
    ensures IsRun(InitState(3, 2), [Draw(0, 0), Leave(0, 0), Draw(0, 0)] + run, t)
  {
    var no := NO_TICKET;
    var s0 := State([FREE_ENTRY, FREE_ENTRY], [no, no, no], [0, 0, 0], [[], []]);
    var s1 := State([Entry(1, 0, INVALID_NODE_ID), FREE_ENTRY], [Ticket(0, true), no, no], [0, 0, 0], [[0], []]);
    var s2 := State([Entry(1, 0, INVALID_NODE_ID), FREE_ENTRY], [no, no, no], [0, 0, 0], [[], []]);
    assert s0 == InitState(3, 2);
    assert [] + [0] == [0];
    var all := [Draw(0, 0), Leave(0, 0), Draw(0, 0)] + run;
    assert all[3..] == run;
    FirstStep(s2, all[2..], SecondTicketDrawn(), t);
    FirstStep(s1, all[1..], s2, t);
    FirstStep(s0, all, s1, t);
  }

  /** Lock 1 was granted to node 0, and then nodes 1 and 2 have drawn for it. */
  function BothInside(): State
  {
    State([Entry(2, 0, INVALID_NODE_ID), Entry(2, 1, 0)], [Ticket(1, true), Ticket(0, true), Ticket(1, true)],
          [0, 1, 1], [[0], [1, 2]])
  }

  /** With two locks in use one can be held twice: a grant to a node of lock 0 lets lock 1 run ahead of its tickets. */
  lemma TwoLocksBreakExclusion() returns (run: seq<Step>, s: State)
    ensures IsRun(InitState(3, 2), run, s) && |s.tickets| == 3 && |s.entries| == 2
    ensures Holds(s, 1, 1) && Holds(s, 2, 1) && s.tickets[1].ticket < s.entries[1].serving
    ensures s == BothInside()
  {
    var s3 := SecondTicketDrawn();
    var s4 := s3.(entries := [Entry(2, 0, INVALID_NODE_ID), Entry(0, 1, 0)]);
    var s5 := State([Entry(2, 0, INVALID_NODE_ID), Entry(1, 1, 0)], [Ticket(1, true), Ticket(0, true), NO_TICKET],
                    [0, 1, 0], [[0], [1]]);
    s := BothInside();
    MinNodeIsMin(s3.tickets, 3);
    assert [] + [1] == [1] && [1] + [2] == [1, 2];
    run := [Serve(1), Draw(1, 1), Draw(2, 1)];
    FirstStep(s5, run[2..], s, s);
    FirstStep(s4, run[1..], s5, s);
    FirstStep(s3, run, s4, s);
    SecondTicketIsDrawn(run, s);
    run := [Draw(0, 0), Leave(0, 0), Draw(0, 0)] + run;
  }

  lemma FirstStep(s: State, run: seq<Step>, m: State, t: State)
    requires Shaped(s) && run != [] && Enabled(s, run[0]) && Shaped(m) && IsRun(m, run[1..], t)
    requires var a := Apply(s, run[0]);
             a.entries == m.entries && a.tickets == m.tickets && a.at == m.at && a.queue == m.queue
    ensures IsRun(s, run, t)
  {
    assert Apply(s, run[0]) == m;
  }

  /** After that, node 2 leaves, and the next scan of lock 1 serves a smaller ticket than before. */
  lemma ServingCanFall() returns (run: seq<Step>, s: State)
    ensures IsRun(InitState(3, 2), run, s) && |s.entries| == 2
    ensures Apply(s, Serve(1)).entries[1].serving < s.entries[1].serving
  {
    var s0;
    run, s0 := TwoLocksBreakExclusion();
    s := State([Entry(2, 0, INVALID_NODE_ID), Entry(2, 1, INVALID_NODE_ID)],
               [Ticket(1, true), Ticket(0, true), NO_TICKET], [0, 1, 1], [[0], [1]]);
    assert Without([1, 2], 2) == [1] by {
      assert [1, 2][1..] == [2] && [2][1..] == [];
    }
    assert Apply(s0, Leave(2, 1)) == s;
    LastStep(InitState(3, 2), run, s0, Leave(2, 1));
    run := run + [Leave(2, 1)];
    MinNodeIsMin(s.tickets, 3);
  }

  lemma {:induction false} LastStep(s: State, run: seq<Step>, t: State, st: Step)
    requires Shaped(s) && IsRun(s, run, t) && Enabled(t, st)
    ensures Shaped(Apply(t, st)) && IsRun(s, run + [st], Apply(t, st))
    decreases run
  {
    ApplyShaped(t, st);
    if run == [] {
      assert [] + [st] == [st] && [st][1..] == [];
    } else {
      ApplyShaped(s, run[0]);
      LastStep(Apply(s, run[0]), run[1..], t, st);
      assert (run + [st])[0] == run[0] && (run + [st])[1..] == run[1..] + [st];
    }
  }

  /** `now_serving` falls exactly by a scan that finds no owner recorded and a smaller ticket in use. */
  lemma ServingFallsExactly(s: State, st: Step, l: LockId)
    requires Reachable(s, l) && Enabled(s, st)
    ensures SameSize(s, Apply(s, st))
    ensures Apply(s, st).entries[l].serving < s.entries[l].serving <==>
              && st == Serve(l) && s.entries[l].owner == INVALID_NODE_ID
              && exists n :: 0 <= n < |s.tickets| && s.tickets[n].active && s.tickets[n].ticket < s.entries[l].serving
  {
    ReachableQueue(s, l);
    ApplyShaped(s, st);
    if st == Serve(l) {
      MinNodeIsMin(s.tickets, |s.tickets|);
    }
  }

  /** No node that waits for the lock has a ticket below `now_serving`. */
  ghost predicate NonePassed(s: State, l: LockId)
    requires Shaped(s) && l < |s.entries|
  {
    forall n :: 0 <= n < |s.tickets| && Waiting(s, n, l) ==> s.entries[l].serving <= s.tickets[n].ticket
  }

  /** A ticket is passed exactly by being drawn below `now_serving`; no scan passes one. */
  lemma PassedExactlyWhenDrawn(s: State, st: Step, l: LockId)
    requires Reachable(s, l) && Enabled(s, st) && NonePassed(s, l)
    ensures Shaped(Apply(s, st)) && SameSize(s, Apply(s, st))
    ensures !NonePassed(Apply(s, st), l) <==> st.Draw? && st.l == l && s.entries[l].next < s.entries[l].serving
  {
    ReachableQueue(s, l);
    ApplyShaped(s, st);
    var t := Apply(s, st);
    if st == Serve(l) {
      MinNodeIsMin(s.tickets, |s.tickets|);
    } else if st.Draw? && st.l == l && s.entries[l].next < s.entries[l].serving {
      assert Waiting(t, st.n, l) && t.tickets[st.n].ticket < t.entries[l].serving;
    }
  }

  // ------------------------------------------------------------------------------------
  // Progress and order
  // ------------------------------------------------------------------------------------

  /** The nodes with a smaller ticket for the same lock. */
  function Ahead(s: State, n: NodeId, l: LockId): set<NodeId>
    requires Shaped(s) && n < |s.tickets|
  {
    set m | 0 <= m < |s.tickets| && s.tickets[m].active && s.at[m] == l && s.tickets[m].ticket < s.tickets[n].ticket
  }

  /**
   If somebody wants the lock and nobody holds it, the owner is clear, and a scan that
   finds a node of this lock gives the lock to the node that nobody is ahead of.
   */
  lemma ScanGrantsTheFirst(s: State, l: LockId, w: NodeId)
    requires NativelyReachable(s, l) && w < |s.tickets| && Waiting(s, w, l)
    requires forall n :: 0 <= n < |s.tickets| ==> !Holds(s, n, l)
    ensures s.entries[l].owner == INVALID_NODE_ID && Grantee(s, l) < |s.tickets|
    ensures !Foreign(s, Serve(l), l) ==>
              var g, t := Grantee(s, l), Apply(s, Serve(l));
              && SameSize(s, t) && Waiting(s, g, l) && Ahead(s, g, l) == {}
              && (forall n :: 0 <= n < |s.tickets| ==> (Holds(t, n, l) <==> n == g))
  {
    NativelyReachableInv(s, l);
    var h := s.entries[l].owner;
    assert h != INVALID_NODE_ID ==> Holds(s, h, l);
    MinNodeIsMin(s.tickets, |s.tickets|);
    if !Foreign(s, Serve(l), l) {
      StepInv(s, Serve(l), l);
      var g, t := Grantee(s, l), Apply(s, Serve(l));
      IncreasingIsDistinct(t.queue[l], t.tickets);
      assert g in s.queue[l];
      forall n | 0 <= n < |s.tickets| ensures Holds(t, n, l) <==> n == g {
        assert n in t.queue[l] <==> Waiting(t, n, l);
      }
    }
  }

  /** A node leaves the set of nodes ahead exactly by leaving the lock, and none joins it. */
  lemma StepAhead(s: State, st: Step, n: NodeId, l: LockId)
    requires QueueInv(s, l) && Enabled(s, st)
    requires n < |s.tickets| && Waiting(s, n, l) && !(st.Leave? && st.n == n)
    ensures Shaped(Apply(s, st)) && SameSize(s, Apply(s, st)) && Waiting(Apply(s, st), n, l)
    ensures Ahead(Apply(s, st), n, l) == if st.Leave? then Ahead(s, n, l) - {st.n} else Ahead(s, n, l)
  {
    ApplyShaped(s, st);
    assert n in s.queue[l];
  }

  /** How often one of the nodes ahead of `n` leaves in the run. */
  function LeavesAhead(s: State, run: seq<Step>, t: State, n: NodeId, l: LockId): nat
    requires Shaped(s) && l < |s.entries| && IsRun(s, run, t) && n < |s.tickets|
    decreases run
  {
    if run == [] then 0
    else
      ApplyShaped(s, run[0]);
      (if run[0].Leave? && run[0].n in Ahead(s, n, l) then 1 else 0)
      + LeavesAhead(Apply(s, run[0]), run[1..], t, n, l)
  }

  predicate Stays(run: seq<Step>, n: NodeId)
  {
    forall i :: 0 <= i < |run| && run[i].Leave? ==> run[i].n != n
  }

  lemma StaysBehind(run: seq<Step>, n: NodeId)
    requires run != [] && Stays(run, n)
    ensures Stays(run[1..], n) && !(run[0].Leave? && run[0].n == n)
  {
    assert forall i :: 0 <= i < |run[1..]| ==> run[1..][i] == run[i + 1];
  }

  lemma SizeWithout(a: set<NodeId>, x: NodeId)
    ensures |a - {x}| == |a| - (if x in a then 1 else 0)
  {
    if x !in a {
      assert a - {x} == a;
    }
  }

  /**
   The queue position over any run: the number of nodes ahead falls by one with each release
   or cancel of one of them and never changes otherwise.
   */
  lemma {:induction false} AheadOnlyFalls(s: State, run: seq<Step>, t: State, n: NodeId, l: LockId)
    requires QueueInv(s, l) && IsRun(s, run, t)
    requires n < |s.tickets| && Waiting(s, n, l) && Stays(run, n)
    ensures Waiting(t, n, l) && |Ahead(t, n, l)| + LeavesAhead(s, run, t, n, l) == |Ahead(s, n, l)|
    decreases run
  {
    if run != [] {
      var m := Apply(s, run[0]);
      StaysBehind(run, n);
      StepAhead(s, run[0], n, l);
      StepQueue(s, run[0], l);
      AheadOnlyFalls(m, run[1..], t, n, l);
      if run[0].Leave? {
        SizeWithout(Ahead(s, n, l), run[0].n);
      }
    }
  }

  /** A node that nobody is ahead of holds the lock, or the lock is free and the next scan grants it to that node. */
  lemma FirstIsServed(s: State, n: NodeId, l: LockId)
    requires NativelyReachable(s, l) && n < |s.tickets| && Waiting(s, n, l) && Ahead(s, n, l) == {}
    ensures Holds(s, n, l) || (forall m :: 0 <= m < |s.tickets| ==> !Holds(s, m, l))
    ensures !Foreign(s, Serve(l), l) ==> SameSize(s, Apply(s, Serve(l))) && Holds(Apply(s, Serve(l)), n, l)
  {
    NativelyReachableInv(s, l);
    IncreasingIsDistinct(s.queue[l], s.tickets);
    assert n in s.queue[l];
    forall m | 0 <= m < |s.tickets| && Holds(s, m, l) ensures m == n {
      assert m in s.queue[l];
      assert m !in Ahead(s, n, l);
    }
    MinNodeIsMin(s.tickets, |s.tickets|);
    var g := Grantee(s, l);
    if !Foreign(s, Serve(l), l) {
      if s.entries[l].owner != INVALID_NODE_ID {
        assert Holds(s, s.entries[l].owner, l);
      } else {
        assert g in s.queue[l];
        assert g !in Ahead(s, n, l);
      }
    }
  }
}
