/** What a node of the ticket lock changes by leaving, be it the holder or a waiter that gives up. */
module FaaCancels {
  import opened LockTypes
  import opened FaaProtocol
  import opened FaaInvariant
  import opened FaaTheorems

  /** Of the nodes other than `n`, for whatever lock they drew, none has a smaller ticket than `k`. */
  predicate SmallestWithout(s: State, n: NodeId, k: NodeId)
    requires Shaped(s) && k < |s.tickets|
  {
    forall j :: 0 <= j < |s.tickets| && j != n && s.tickets[j].active ==> s.tickets[k].ticket <= s.tickets[j].ticket
  }

  lemma SmallestAfterLeaving(s: State, n: NodeId, l: LockId, k: NodeId)
    requires Shaped(s) && Enabled(s, Leave(n, l)) && k < |s.tickets| && k != n
    ensures Shaped(LeaveLock(s, n, l)) && |LeaveLock(s, n, l).tickets| == |s.tickets|
    ensures Smallest(LeaveLock(s, n, l), k) <==> SmallestWithout(s, n, k)
  {
    var m := LeaveLock(s, n, l);
    assert m.tickets[k] == s.tickets[k] && !m.tickets[n].active;
    if Smallest(m, k) {
      forall j | 0 <= j < |s.tickets| && j != n && s.tickets[j].active ensures s.tickets[k].ticket <= s.tickets[j].ticket {
        assert m.tickets[j] == s.tickets[j];
      }
    }
  }

  /** Without a recorded owner a scan lets exactly the nodes of the lock with the smallest ticket pass. */
  lemma ScanOfUnowned(s: State, l: LockId)
    requires QueueInv(s, l) && s.entries[l].owner == INVALID_NODE_ID
    ensures SameSize(s, ServeLock(s, l)) && Shaped(ServeLock(s, l))
    ensures forall k :: 0 <= k < |s.tickets| ==> (Holds(ServeLock(s, l), k, l) <==> Waiting(s, k, l) && Smallest(s, k))
  {
    MinNodeIsMin(s.tickets, |s.tickets|);
  }

  /**
   Whoever leaves, the owner is clear afterwards and no other record has changed, and the
   next scan lets exactly those of the remaining nodes of the lock pass whose ticket is the
   smallest of all locks.
   */
  lemma ScanAfterLeaving(s: State, n: NodeId, l: LockId)
    requires Reachable(s, l) && Enabled(s, Leave(n, l))
    ensures var m := Apply(s, Leave(n, l));
            && SameSize(s, m) && Shaped(m)
            && m.entries[l] == s.entries[l].(owner := INVALID_NODE_ID) && !m.tickets[n].active
            && (forall k :: 0 <= k < |s.entries| && k != l ==> m.entries[k] == s.entries[k])
            && (forall k :: 0 <= k < |s.tickets| && k != n ==> m.tickets[k] == s.tickets[k])
            && var t := Apply(m, Serve(l));
            && SameSize(s, t)
            && forall k :: 0 <= k < |s.tickets| ==>
                (Holds(t, k, l) <==> k != n && Waiting(s, k, l) && SmallestWithout(s, n, k))
  {
    ReachableQueue(s, l);
    StepQueue(s, Leave(n, l), l);
    ApplyShaped(s, Leave(n, l));
    var m := Apply(s, Leave(n, l));
    ScanOfUnowned(m, l);
    forall k | 0 <= k < |s.tickets|
      ensures Holds(Apply(m, Serve(l)), k, l) <==> k != n && Waiting(s, k, l) && SmallestWithout(s, n, k)
    {
      assert Waiting(m, k, l) <==> k != n && Waiting(s, k, l);
      if k != n {
        SmallestAfterLeaving(s, n, l, k);
      }
    }
  }

  /** The node that passes the poll is the first of the queue. */
  lemma HolderIsFirst(s: State, h: NodeId, l: LockId)
    requires LockInv(s, l) && h < |s.tickets| && Holds(s, h, l)
    ensures s.queue[l] != [] && s.queue[l][0] == h && s.tickets[h].ticket == s.entries[l].serving
  {
    assert h in s.queue[l] && s.queue[l][0] in s.queue[l];
    HeadIsLeast(s.queue[l], h, s.tickets);
  }

  /**
   A waiter that gives up clears the owner although another node is inside.  That node stays
   inside, and the next scan of the lock records the same node again and changes no poll,
   unless it grants to a node of another lock.
   */
  lemma CancelUnrecordsTheHolder(s: State, n: NodeId, h: NodeId, l: LockId)
    requires NativelyReachable(s, l) && n < |s.tickets| && h < |s.tickets|
    requires Waiting(s, n, l) && !Holds(s, n, l) && Holds(s, h, l)
    ensures var m := Apply(s, Leave(n, l));
            && SameSize(s, m) && Shaped(m) && NativelyReachable(m, l)
            && m.entries[l].owner == INVALID_NODE_ID && Holds(m, h, l)
            && var t := Apply(m, Serve(l));
            && SameSize(s, t) && (t.entries[l].owner == h <==> !Foreign(m, Serve(l), l))
            && (!Foreign(m, Serve(l), l) ==>
                  && t.entries[l] == m.entries[l].(owner := h)
                  && forall k :: 0 <= k < |s.tickets| ==> (PollTest(t, k, l) <==> PollTest(m, k, l)))
  {
    NativelyReachableInv(s, l);
    var m := Apply(s, Leave(n, l));
    StepInv(s, Leave(n, l), l);
    NativelyLeft(s, n, l);
    HolderIsFirst(m, h, l);
    MinNodeIsMin(m.tickets, |m.tickets|);
    if !Foreign(m, Serve(l), l) {
      GranteeIsFirst(m, l);
    }
  }

  lemma {:induction false} NativeLastStep(s: State, run: seq<Step>, t: State, st: Step, l: LockId)
    requires Shaped(s) && l < |s.entries| && NativeRun(s, run, t, l) && Enabled(t, st) && !Foreign(t, st, l)
    ensures Shaped(Apply(t, st)) && NativeRun(s, run + [st], Apply(t, st), l)
    decreases run
  {
    ApplyShaped(t, st);
    if run == [] {
      assert [] + [st] == [st] && [st][1..] == [];
    } else {
      ApplyShaped(s, run[0]);
      NativeLastStep(Apply(s, run[0]), run[1..], t, st, l);
      assert (run + [st])[0] == run[0] && (run + [st])[1..] == run[1..] + [st];
    }
  }

  lemma NativelyLeft(s: State, n: NodeId, l: LockId)
    requires NativelyReachable(s, l) && Enabled(s, Leave(n, l))
    ensures NativelyReachable(Apply(s, Leave(n, l)), l)
  {
    var nodeCount: nat, lockCount: nat, run: seq<Step> :| NativelyReachedBy(nodeCount, lockCount, run, s, l);
    NativeLastStep(InitState(nodeCount, lockCount), run, s, Leave(n, l), l);
    assert NativelyReachedBy(nodeCount, lockCount, run + [Leave(n, l)], Apply(s, Leave(n, l)), l);
  }
}
