/**
 The executions in which the two stores of a grant are one step, the exchange of the tail
 of a last holder is one step with the clearing of the head and of the owner, and the store
 of the next owner is one step with its wake-up.  They never race, so that everything
 proved of race-free runs holds of them.
 */
module McsGroups {
  import opened LockTypes
  import opened McsProtocol
  import opened McsInvariant
  import opened McsPreservation
  import opened McsTheorems

  /** The last holder is about to empty the queue of its lock. */
  predicate Empties(s: State, st: Step)
    requires Shaped(s) && Enabled(s, st)
  {
    st.Access? && s.pc[st.n].DropTail? && s.entries[s.pc[st.n].l].tail == st.n
  }

  /** The manager is about to grant. */
  predicate Grants(s: State, st: Step)
    requires Shaped(s) && Enabled(s, st)
  {
    st.Manage? && s.mgr.StoreLocked?
  }

  /** A holder is about to store its successor as owner. */
  predicate HandsOver(s: State, st: Step)
    requires Shaped(s) && Enabled(s, st)
  {
    st.Access? && s.pc[st.n].PassOwner?
  }

  /** The accesses that form one step together with `st`. */
  function Group(s: State, st: Step): seq<Step>
    requires Shaped(s) && Enabled(s, st)
  {
    if Empties(s, st) then [st, st, st] else if Grants(s, st) || HandsOver(s, st) then [st, st] else [st]
  }

  lemma EmptiesThenClears(s: State, st: Step)
    requires Shaped(s) && Enabled(s, st) && Empties(s, st)
    ensures var t := Apply(s, st);
            && Shaped(t) && Enabled(t, st) && t.pc == s.pc[st.n := ClearHead(s.pc[st.n].l)] && t.mgr == s.mgr
            && var u := Apply(t, st);
            && Shaped(u) && Enabled(u, st) && u.pc == s.pc[st.n := ClearOwner(s.pc[st.n].l)] && u.mgr == s.mgr
            && Shaped(Apply(u, st)) && Apply(u, st).pc == s.pc[st.n := ResetNext] && Apply(u, st).mgr == s.mgr
  {
    ApplyShaped(s, st);
    var t := Apply(s, st);
    ApplyShaped(t, st);
    ApplyShaped(Apply(t, st), st);
  }

  lemma HandsOverThenWakes(s: State, st: Step)
    requires Shaped(s) && Enabled(s, st) && HandsOver(s, st)
    ensures var t, l, succ := Apply(s, st), s.pc[st.n].l, s.pc[st.n].succ;
            && Shaped(t) && Enabled(t, st) && t.pc == s.pc[st.n := Wake(l, succ)] && t.mgr == s.mgr
            && Shaped(Apply(t, st)) && Apply(t, st).pc == s.pc[st.n := ResetNext] && Apply(t, st).mgr == s.mgr
  {
    ApplyShaped(s, st);
    ApplyShaped(Apply(s, st), st);
  }

  /** The state after the group. */
  function GroupApply(s: State, st: Step): State
    requires Shaped(s) && Enabled(s, st)
  {
    ApplyShaped(s, st);
    if Empties(s, st) then
      EmptiesThenClears(s, st);
      Apply(Apply(Apply(s, st), st), st)
    else if Grants(s, st) then
      ApplyShaped(Apply(s, st), st);
      Apply(Apply(s, st), st)
    else if HandsOver(s, st) then
      HandsOverThenWakes(s, st);
      Apply(Apply(s, st), st)
    else Apply(s, st)
  }

  lemma GroupIsShaped(s: State, st: Step)
    requires Shaped(s) && Enabled(s, st)
    ensures Shaped(GroupApply(s, st))
  {
    ApplyShaped(s, st);
    if Empties(s, st) {
      EmptiesThenClears(s, st);
    } else if HandsOver(s, st) {
      HandsOverThenWakes(s, st);
    } else if Grants(s, st) {
      ApplyShaped(Apply(s, st), st);
    }
  }

  /** Nobody is inside a group. */
  predicate Quiet(s: State)
  {
    !s.mgr.StoreOwner? && forall n :: 0 <= n < |s.pc| ==> !s.pc[n].ClearHead? && !s.pc[n].ClearOwner? && !s.pc[n].Wake?
  }

  /** A run of groups. */
  predicate GroupedRun(s: State, run: seq<Step>, t: State)
    requires Shaped(s)
    decreases run
  {
    if run == [] then s == t
    else Enabled(s, run[0]) && Shaped(GroupApply(s, run[0])) && GroupedRun(GroupApply(s, run[0]), run[1..], t)
  }

  lemma QuietDoesNotRace(s: State, st: Step)
    requires Reachable(s) && Quiet(s) && Enabled(s, st)
    ensures !Races(s, st)
  {
    if Races(s, st) && s.pc[st.n].CheckCancel? {
      var r := OwnerIsWoken(s, s.pc[st.n].l, st.n);
    }
  }

  lemma Single(s: State, st: Step)
    requires Shaped(s) && Enabled(s, st) && !Races(s, st)
    ensures RaceFreeRun(s, [st], Apply(s, st))
  {
    assert RaceFreeRun(s, [], s);
    Extend(s, [], s, st);
    assert [] + [st] == [st];
  }

  lemma EmptyingGroup(s: State, st: Step)
    requires Reachable(s) && Quiet(s) && Enabled(s, st) && Empties(s, st)
    ensures RaceFreeRun(s, [st, st, st], GroupApply(s, st)) && Quiet(GroupApply(s, st))
  {
    QuietDoesNotRace(s, st);
    EmptiesThenClears(s, st);
    var t := Apply(s, st);
    var u := Apply(t, st);
    Single(s, st);
    Extend(s, [st], t, st);
    Extend(s, [st] + [st], u, st);
    assert [st] + [st] + [st] == [st, st, st];
  }

  lemma GrantGroup(s: State, st: Step)
    requires Shaped(s) && Quiet(s) && Enabled(s, st) && Grants(s, st)
    ensures RaceFreeRun(s, [st, st], GroupApply(s, st)) && Quiet(GroupApply(s, st))
  {
    Single(s, st);
    ApplyShaped(s, st);
    Extend(s, [st], Apply(s, st), st);
    assert [st] + [st] == [st, st];
  }

  lemma HandOverGroup(s: State, st: Step)
    requires Shaped(s) && Quiet(s) && Enabled(s, st) && HandsOver(s, st)
    ensures RaceFreeRun(s, [st, st], GroupApply(s, st)) && Quiet(GroupApply(s, st))
  {
    HandsOverThenWakes(s, st);
    Single(s, st);
    Extend(s, [st], Apply(s, st), st);
    assert [st] + [st] == [st, st];
  }

  lemma PlainAccess(s: State, n: NodeId)
    requires Shaped(s) && Quiet(s) && Enabled(s, Access(n)) && !Empties(s, Access(n)) && !HandsOver(s, Access(n))
    ensures Shaped(NodeAccess(s, n)) && Quiet(NodeAccess(s, n))
  {
    AccessShaped(s, n);
    var t := NodeAccess(s, n);
    assert t.pc == s.pc[n := t.pc[n]];
  }

  lemma PlainStep(s: State, st: Step)
    requires Shaped(s) && Quiet(s) && Enabled(s, st) && !Empties(s, st) && !Grants(s, st) && !HandsOver(s, st)
    ensures Shaped(Apply(s, st)) && Quiet(Apply(s, st))
  {
    if st.Access? {
      PlainAccess(s, st.n);
    } else {
      ApplyShaped(s, st);
    }
  }

  /** A group is a race-free run between states in which nobody is inside a group. */
  lemma GroupExpands(s: State, st: Step)
    requires Reachable(s) && Quiet(s) && Enabled(s, st)
    ensures RaceFreeRun(s, Group(s, st), GroupApply(s, st)) && Quiet(GroupApply(s, st))
  {
    if Empties(s, st) {
      EmptyingGroup(s, st);
    } else if Grants(s, st) {
      GrantGroup(s, st);
    } else if HandsOver(s, st) {
      HandOverGroup(s, st);
    } else {
      QuietDoesNotRace(s, st);
      Single(s, st);
      PlainStep(s, st);
    }
  }

  /** The accesses of a run of groups. */
  function Accesses(s: State, run: seq<Step>, t: State): seq<Step>
    requires Shaped(s) && GroupedRun(s, run, t)
    decreases run
  {
    if run == [] then [] else Group(s, run[0]) + Accesses(GroupApply(s, run[0]), run[1..], t)
  }

  lemma {:induction false} GroupedRunExpands(s: State, run: seq<Step>, t: State)
    requires Reachable(s) && Quiet(s) && GroupedRun(s, run, t)
    ensures RaceFreeRun(s, Accesses(s, run, t), t) && Quiet(t)
    decreases run
  {
    if run != [] {
      var m := GroupApply(s, run[0]);
      GroupExpands(s, run[0]);
      ReachFurther(s, Group(s, run[0]), m);
      GroupedRunExpands(m, run[1..], t);
      RunConcat(s, Group(s, run[0]), m, Accesses(m, run[1..], t), t);
    }
  }

  /** Every run of groups from the initial state ends in a state reached without a race. */
  lemma GroupedRunsNeverRace(nodeCount: nat, lockCount: nat, run: seq<Step>, t: State)
    requires nodeCount <= INVALID_NODE_ID && 0 < lockCount <= INVALID_LOCK_ID
    requires GroupedRun(InitState(nodeCount, lockCount), run, t)
    ensures Reachable(t) && Quiet(t)
    ensures ReachedBy(nodeCount, lockCount, Accesses(InitState(nodeCount, lockCount), run, t), t)
  {
    var s := InitState(nodeCount, lockCount);
    assert ReachedBy(nodeCount, lockCount, [], s);
    GroupedRunExpands(s, run, t);
    assert ReachedBy(nodeCount, lockCount, Accesses(s, run, t), t);
  }

  /** Between groups a node passes the poll exactly if it is the recorded owner. */
  lemma PollIsOwnerBetweenGroups(s: State, n: NodeId, l: LockId)
    requires Reachable(s) && Quiet(s) && n < |s.pc| && l < |s.entries| && s.pc[n] == Waiting(l)
    ensures PollTest(s.nodes[n].locked, s.nodes[n].waiting, l) <==> s.entries[l].owner == n
  {
    ReachableInv(s);
    var i := Place(s, n, l);
    if PollTest(s.nodes[n].locked, s.nodes[n].waiting, l) {
      PollIsSound(s, n, l);
    } else if s.entries[l].owner == n {
      var r := OwnerIsWoken(s, l, n);
    }
  }

  /** Between groups the entry of a lock is free exactly if its queue is empty. */
  lemma FreeExactlyIfEmptyBetweenGroups(s: State, l: LockId)
    requires Reachable(s) && Quiet(s) && l < |s.entries|
    ensures l < |s.queue| && (s.queue[l] == [] <==> s.entries[l] == FREE)
  {
    ReachableInv(s);
    assert LockInv(s, l);
    var q, o := s.queue[l], s.entries[l].owner;
    assert !Departing(s, l);
    if q != [] {
      assert q[|q| - 1] < |s.pc|;
    } else {
      assert o == INVALID_NODE_ID || !(o < |s.pc|);
    }
  }
}
