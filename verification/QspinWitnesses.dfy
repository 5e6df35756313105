/** Runs of the queued spinlock that lose a waiter: after a hand-off, and after a rescue by the manager. */
module QspinWitnesses {
  import opened LockTypes
  import opened QspinWord
  import opened QspinProtocol
  import opened QspinInvariant
  import opened QspinTheorems

  /** What an undisturbed acquisition of a lock with a tail leaves. */
  function Joined(s: State, n: NodeId, l: LockId): State
    requires Shaped(s) && n < |s.pc| && l < |s.entries|
  {
    var t := Goto(SetNode(s, n, Node(INVALID_NODE_ID, 1, l)), n, Inside(l));
    SetNext(SetEntry(t, l, s.entries[l].(word := SetTail(s.entries[l].word, NodeToTail(n)))), Tail(s, l), n)
  }

  lemma JoinRun(s: State, run: seq<Step>, t: State, n: NodeId, l: LockId)
    requires Shaped(s) && IsRun(s, run, t) && n < |t.pc| && l < |t.entries| && t.pc[n] == Outside
    requires TailIdx(t.entries[l].word) != 0
    ensures IsRun(s, run + [Prepare(n, l)] + [Proceed(n)] + [Proceed(n)] + [Proceed(n)], Joined(t, n, l))
  {
    Take(s, run, t, Prepare(n, l));
    var t1 := Apply(t, Prepare(n, l));
    Take(s, run + [Prepare(n, l)], t1, Proceed(n));
    var t2 := Apply(t1, Proceed(n));
    assert t2 == t1.(pc := t1.pc[n := AtLoad(l)]);
    Take(s, run + [Prepare(n, l)] + [Proceed(n)], t2, Proceed(n));
    var t3 := Apply(t2, Proceed(n));
    assert t3 == t1.(pc := t1.pc[n := AtExchange(l, t.entries[l].word)]);
    Take(s, run + [Prepare(n, l)] + [Proceed(n)] + [Proceed(n)], t3, Proceed(n));
    assert Apply(t3, Proceed(n)) == Joined(t, n, l);
  }

  function HeldByZero(): State
  {
    State([Entry(5, 0, 0, false)], [Node(INVALID_NODE_ID, 2, 0), FREE_NODE, FREE_NODE, FREE_NODE], [Inside(0), Outside, Outside, Outside])
  }

  /** Node 0 holds, and nodes 1 and 2 queue behind it. */
  function QueueOfThree(): State
  {
    State([Entry(13, 0, 0, false)], [Node(1, 2, 0), Node(2, 1, 0), Node(INVALID_NODE_ID, 1, 0), FREE_NODE],
          [Inside(0), Inside(0), Inside(0), Outside])
  }

  lemma NodeZeroHolds() returns (run: seq<Step>)
    ensures IsRun(InitState(4, 1), run, HeldByZero()) && forall i :: 0 <= i < |run| ==> !run[i].Leave?
  {
    var s0 := InitState(4, 1);
    Take(s0, [], s0, Prepare(0, 0));
    var s1 := Apply(s0, Prepare(0, 0));
    Take(s0, [] + [Prepare(0, 0)], s1, Proceed(0));
    run := [] + [Prepare(0, 0)] + [Proceed(0)];
    assert Apply(s1, Proceed(0)) == HeldByZero();
  }

  lemma QueueOfThreeIsReached() returns (run: seq<Step>)
    ensures IsRun(InitState(4, 1), run, QueueOfThree())
  {
    var s0, s2 := InitState(4, 1), HeldByZero();
    var held := Node(INVALID_NODE_ID, 2, 0);
    run := NodeZeroHolds();
    JoinRun(s0, run, s2, 1, 0);
    run := run + [Prepare(1, 0)] + [Proceed(1)] + [Proceed(1)] + [Proceed(1)];
    var s3 := Joined(s2, 1, 0);
    assert s3 == State([Entry(9, 0, 0, false)], [held.(next := 1), Node(INVALID_NODE_ID, 1, 0), FREE_NODE, FREE_NODE],
                       [Inside(0), Inside(0), Outside, Outside]);
    JoinRun(s0, run, s3, 2, 0);
    run := run + [Prepare(2, 0)] + [Proceed(2)] + [Proceed(2)] + [Proceed(2)];
    assert Joined(s3, 2, 0) == QueueOfThree();
  }

  /** Node 0 then hands over to node 1, and node 3 links itself over the link from 1 to 2. */
  lemma SomeRunLosesAWaiter() returns (run: seq<Step>, s: State)
    ensures ReachedBy(4, 1, run, s) && 2 < |s.nodes| && 0 < |s.entries| && Lost(s, 2, 0)
  {
    run := QueueOfThreeIsReached();
    var s0, s4 := InitState(4, 1), QueueOfThree();
    Take(s0, run, s4, Leave(0, 0));
    run := run + [Leave(0, 0)];
    var s5 := Apply(s4, Leave(0, 0));
    assert s5 == State([Entry(9, 1, 1, false)], [FREE_NODE, Node(2, 2, 0), Node(INVALID_NODE_ID, 1, 0), FREE_NODE],
                       [Outside, Inside(0), Inside(0), Outside]);
    JoinRun(s0, run, s5, 3, 0);
    run := run + [Prepare(3, 0)] + [Proceed(3)] + [Proceed(3)] + [Proceed(3)];
    s := Joined(s5, 3, 0);
    assert s == State([Entry(17, 1, 1, false)],
                      [FREE_NODE, Node(3, 2, 0), Node(INVALID_NODE_ID, 1, 0), Node(INVALID_NODE_ID, 1, 0)],
                      [Outside, Inside(0), Inside(0), Inside(0)]);
  }

  // ------------------------------------------------------------------------------------
  // Without a hand-off
  // ------------------------------------------------------------------------------------

  /** No release of the run hands a lock on. */
  predicate HandOffFree(s: State, run: seq<Step>, t: State)
    requires Shaped(s) && IsRun(s, run, t)
    decreases run
  {
    run != [] ==>
      && (run[0].Leave? ==> !ExitOf(s, run[0].n, run[0].l).HandedOff?)
      && (ApplyShaped(s, run[0]); HandOffFree(Apply(s, run[0]), run[1..], t))
  }

  lemma {:induction false} HandOffFreeConcat(s: State, run: seq<Step>, t: State, more: seq<Step>, u: State)
    requires Shaped(s) && IsRun(s, run, t) && IsRun(t, more, u) && HandOffFree(s, run, t) && HandOffFree(t, more, u)
    ensures IsRun(s, run + more, u) && HandOffFree(s, run + more, u)
    decreases run
  {
    RunConcat(s, run, t, more, u);
    if run == [] {
      assert run + more == more;
    } else {
      ApplyShaped(s, run[0]);
      HandOffFreeConcat(Apply(s, run[0]), run[1..], t, more, u);
      assert (run + more)[1..] == run[1..] + more;
    }
  }

  lemma {:induction false} NoLeaveNoHandOff(s: State, run: seq<Step>, t: State)
    requires Shaped(s) && IsRun(s, run, t) && forall i :: 0 <= i < |run| ==> !run[i].Leave?
    ensures HandOffFree(s, run, t)
    decreases run
  {
    if run != [] {
      ApplyShaped(s, run[0]);
      NoLeaveNoHandOff(Apply(s, run[0]), run[1..], t);
    }
  }

  /** Steps without a release after a run without a hand-off. */
  lemma GoOn(s: State, run: seq<Step>, t: State, more: seq<Step>, u: State)
    requires Shaped(s) && IsRun(s, run, t) && HandOffFree(s, run, t) && IsRun(t, more, u)
    requires forall i :: 0 <= i < |more| ==> !more[i].Leave?
    ensures IsRun(s, run + more, u) && HandOffFree(s, run + more, u)
  {
    NoLeaveNoHandOff(t, more, u);
    HandOffFreeConcat(s, run, t, more, u);
  }

  lemma JoinOn(s: State, run: seq<Step>, t: State, n: NodeId, l: LockId) returns (run': seq<Step>)
    requires Shaped(s) && IsRun(s, run, t) && HandOffFree(s, run, t)
    requires n < |t.pc| && l < |t.entries| && t.pc[n] == Outside && TailIdx(t.entries[l].word) != 0
    ensures IsRun(s, run', Joined(t, n, l)) && HandOffFree(s, run', Joined(t, n, l))
  {
    JoinRun(t, [], t, n, l);
    var more := [] + [Prepare(n, l)] + [Proceed(n)] + [Proceed(n)] + [Proceed(n)];
    run' := run + more;
    GoOn(s, run, t, more, Joined(t, n, l));
  }

  /** Node 0 holds, and node 1 has failed to take the word at once. */
  function OneTooLate(): State
  {
    State([Entry(5, 0, 0, false)], [Node(INVALID_NODE_ID, 2, 0), Node(INVALID_NODE_ID, 1, 0), FREE_NODE, FREE_NODE],
          [Inside(0), AtLoad(0), Outside, Outside])
  }

  /** Node 0 has left; node 1 has loaded the free word and made itself the tail, but does not hold. */
  function OneUnlocked(): State
  {
    State([Entry(8, INVALID_NODE_ID, 1, false)], [FREE_NODE, Node(INVALID_NODE_ID, 1, 0), FREE_NODE, FREE_NODE],
          [Outside, Inside(0), Outside, Outside])
  }

  lemma OneIsTooLate() returns (run: seq<Step>)
    ensures IsRun(InitState(4, 1), run, OneTooLate()) && HandOffFree(InitState(4, 1), run, OneTooLate())
  {
    var s0, s1 := InitState(4, 1), HeldByZero();
    run := NodeZeroHolds();
    Take(s0, run, s1, Prepare(1, 0));
    run := run + [Prepare(1, 0)];
    var s2 := Apply(s1, Prepare(1, 0));
    Take(s0, run, s2, Proceed(1));
    run := run + [Proceed(1)];
    assert Apply(s2, Proceed(1)) == OneTooLate();
    NoLeaveNoHandOff(s0, run, OneTooLate());
  }

  lemma OneIsUnlocked() returns (run: seq<Step>)
    ensures IsRun(InitState(4, 1), run, OneUnlocked()) && HandOffFree(InitState(4, 1), run, OneUnlocked())
  {
    var s0, s1 := InitState(4, 1), OneTooLate();
    run := OneIsTooLate();
    Take(s1, [], s1, Leave(0, 0));
    var s2 := Apply(s1, Leave(0, 0));
    assert s2 == s1.(entries := [FREE_ENTRY], nodes := s1.nodes[0 := FREE_NODE], pc := s1.pc[0 := Outside]);
    HandOffFreeConcat(s0, run, s1, [] + [Leave(0, 0)], s2);
    run := run + ([] + [Leave(0, 0)]);
    Take(s2, [], s2, Proceed(1));
    var s3 := Apply(s2, Proceed(1));
    Take(s2, [] + [Proceed(1)], s3, Proceed(1));
    assert Apply(s3, Proceed(1)) == OneUnlocked();
    GoOn(s0, run, s2, [] + [Proceed(1)] + [Proceed(1)], OneUnlocked());
    run := run + ([] + [Proceed(1)] + [Proceed(1)]);
  }

  /** Node 2 queues behind node 1. */
  function TwoUnlocked(): State
  {
    State([Entry(12, INVALID_NODE_ID, 1, false)], [FREE_NODE, Node(2, 1, 0), Node(INVALID_NODE_ID, 1, 0), FREE_NODE],
          [Outside, Inside(0), Inside(0), Outside])
  }

  lemma TwoAreUnlocked() returns (run: seq<Step>)
    ensures IsRun(InitState(4, 1), run, TwoUnlocked()) && HandOffFree(InitState(4, 1), run, TwoUnlocked())
  {
    run := OneIsUnlocked();
    run := JoinOn(InitState(4, 1), run, OneUnlocked(), 2, 0);
    assert Joined(OneUnlocked(), 2, 0) == TwoUnlocked();
  }

  /** The manager has granted node 1 and made it the tail, although node 2 waits behind it. */
  function OneRescued(): State
  {
    State([Entry(9, 1, 2, false)], [FREE_NODE, Node(2, 2, 0), Node(INVALID_NODE_ID, 1, 0), FREE_NODE],
          [Outside, Inside(0), Inside(0), Outside])
  }

  lemma OneIsRescued() returns (run: seq<Step>)
    ensures IsRun(InitState(4, 1), run, OneRescued()) && HandOffFree(InitState(4, 1), run, OneRescued())
  {
    var s := TwoUnlocked();
    run := TwoAreUnlocked();
    Take(s, [], s, Serve(0));
    assert Apply(s, Serve(0)) == OneRescued();
    GoOn(InitState(4, 1), run, s, [] + [Serve(0)], OneRescued());
    run := run + ([] + [Serve(0)]);
  }

  /**
   A rescue loses a waiter, too: node 2 queues behind node 1, the manager grants node 1 and
   makes it the tail, and node 3 links itself over the link from 1 to 2.  No release of the
   run hands the lock on.
   */
  lemma SomeRescueLosesAWaiter() returns (run: seq<Step>, s: State)
    ensures ReachedBy(4, 1, run, s) && HandOffFree(InitState(4, 1), run, s)
    ensures 2 < |s.nodes| && 0 < |s.entries| && Lost(s, 2, 0)
  {
    run := OneIsRescued();
    run := JoinOn(InitState(4, 1), run, OneRescued(), 3, 0);
    s := Joined(OneRescued(), 3, 0);
    assert s == State([Entry(17, 1, 2, false)],
                      [FREE_NODE, Node(3, 2, 0), Node(INVALID_NODE_ID, 1, 0), Node(INVALID_NODE_ID, 1, 0)],
                      [Outside, Inside(0), Inside(0), Inside(0)]);
  }
}
