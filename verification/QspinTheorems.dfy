/** What holds in every run of the queued spinlock. */
module QspinTheorems {
  import opened LockTypes
  import opened LockService
  import opened QspinWord
  import opened QspinProtocol
  import opened QspinInvariant

  lemma {:induction false} RunInv(s: State, run: seq<Step>, t: State)
    requires Inv(s) && IsRun(s, run, t)
    ensures Inv(t)
    decreases run
  {
    if run != [] {
      StepInv(s, run[0]);
      RunInv(Apply(s, run[0]), run[1..], t);
    }
  }

  ghost predicate ReachedBy(nodeCount: nat, lockCount: nat, run: seq<Step>, s: State)
  {
    && nodeCount <= MAX_NODE_COUNT && lockCount <= MAX_LOCK_COUNT
    && IsRun(InitState(nodeCount, lockCount), run, s)
  }

  ghost predicate Reachable(s: State)
  {
    Shaped(s) && exists nodeCount: nat, lockCount: nat, run: seq<Step> :: ReachedBy(nodeCount, lockCount, run, s)
  }

  lemma ReachableInv(s: State)
    requires Reachable(s)
    ensures Inv(s)
  {
    var nodeCount: nat, lockCount: nat, run: seq<Step> :| ReachedBy(nodeCount, lockCount, run, s);
    InitInv(nodeCount, lockCount);
    RunInv(InitState(nodeCount, lockCount), run, s);
  }

  // ------------------------------------------------------------------------------------
  // Mutual exclusion
  // ------------------------------------------------------------------------------------

  lemma PollingNodeOwns(s: State, l: LockId, n: NodeId)
    requires Inv(s) && l < |s.entries| && n < |s.nodes| && PollTest(s.nodes[n], l)
    ensures s.entries[l].owner == n && IsHeld(s, l)
  {
    assert NodeInv(s, n) && EntryInv(s, l);
  }

  /** At most one node passes the poll for a lock, and it is the recorded owner. */
  lemma MutualExclusion(s: State, l: LockId, a: NodeId, b: NodeId)
    requires Reachable(s) && l < |s.entries| && a < |s.nodes| && b < |s.nodes|
    requires PollTest(s.nodes[a], l) && PollTest(s.nodes[b], l)
    ensures a == b == s.entries[l].owner
  {
    ReachableInv(s);
    PollingNodeOwns(s, l, a);
    PollingNodeOwns(s, l, b);
  }

  /** The locked bit is set exactly while some node passes the poll. */
  lemma LockedBitMeansHolder(s: State, l: LockId)
    requires Reachable(s) && l < |s.entries|
    ensures Locked(s.entries[l].word) == 1 <==> exists n :: 0 <= n < |s.nodes| && PollTest(s.nodes[n], l)
    ensures Locked(s.entries[l].word) == 1 <==> s.entries[l].owner != INVALID_NODE_ID
  {
    ReachableInv(s);
    assert EntryInv(s, l);
    var h := s.entries[l].owner;
    if IsHeld(s, l) {
      assert NodeInv(s, h);
      assert PollTest(s.nodes[h], l);
    } else if exists n :: 0 <= n < |s.nodes| && PollTest(s.nodes[n], l) {
      var n :| 0 <= n < |s.nodes| && PollTest(s.nodes[n], l);
      PollingNodeOwns(s, l, n);
      assert false;
    }
  }

  // ------------------------------------------------------------------------------------
  // Hand-off and rescue
  // ------------------------------------------------------------------------------------

  /** A successor waits on the same lock, and no node is the successor of two. */
  lemma SuccessorsWait(s: State, p: NodeId, q: NodeId)
    requires Reachable(s) && p < |s.nodes| && q < |s.nodes| && s.nodes[p].next != INVALID_NODE_ID
    ensures var m := s.nodes[p].next;
            s.pc[p].Inside? && m < |s.nodes| && m != p && s.nodes[m].locked == 1 && s.nodes[m].waiting == s.pc[p].l
    ensures s.nodes[q].next == s.nodes[p].next ==> q == p
  {
    ReachableInv(s);
    var m := s.nodes[p].next;
    assert NodeInv(s, p) && NodeInv(s, m) && OnePred(s, m);
    assert Points(s, p, m) && Points(s, q, s.nodes[q].next);
  }

  /**
   A release by the holder never reaches the loop nor the forced branch: without a
   successor the word becomes free, and with one exactly the successor holds.
   */
  lemma ReleaseEmptiesOrHandsOff(s: State, n: NodeId, l: LockId)
    requires Reachable(s) && l < |s.entries| && n < |s.nodes| && s.entries[l].owner == n
    ensures Enabled(s, Leave(n, l)) && PollTest(s.nodes[n], l)
    ensures var t, succ := Apply(s, Leave(n, l)), s.nodes[n].next;
            && SameSize(s, t) && t.pc[n] == Outside && t.nodes[n] == FREE_NODE
            && (succ == INVALID_NODE_ID ==> Tail(s, l) == n && t.entries[l] == FREE_ENTRY)
            && (succ != INVALID_NODE_ID ==>
                  succ < |s.nodes| && PollTest(t.nodes[succ], l) && t.entries[l].owner == succ
                    && Locked(t.entries[l].word) == 1
                  && Tail(t, l) == succ && t.entries[l].pending == succ)
            && (forall m :: 0 <= m < |s.nodes| && m != n && m != succ ==> t.nodes[m] == s.nodes[m])
            && (forall k :: 0 <= k < |s.entries| && k != l ==> t.entries[k] == s.entries[k])
  {
    ReachableInv(s);
    assert EntryInv(s, l) && NodeInv(s, n);
    ReleaseBranch(s, n, l);
    if ExitOf(s, n, l).HandedOff? {
      var succ := s.nodes[n].next;
      assert NodeInv(s, succ);
      NewHeld(succ);
    }
  }

  /** Whoever does not hold the lock changes nothing by a release. */
  lemma ReleaseByOtherChangesNothing(s: State, n: NodeId, l: LockId)
    requires Reachable(s) && Enabled(s, Leave(n, l))
    ensures Apply(s, Leave(n, l)) == s <==> !PollTest(s.nodes[n], l)
  {
    ReachableInv(s);
    assert EntryInv(s, l) && NodeInv(s, n);
    ReleaseBranch(s, n, l);
    if PollTest(s.nodes[n], l) {
      PollingNodeOwns(s, l, n);
      assert s.pc[n] != Apply(s, Leave(n, l)).pc[n];
    }
  }

  /**
   Where the word has a tail but is not locked, the manager finds a node that waits on the
   lock, and after its scan exactly that node holds.  Elsewhere it does nothing.
   */
  lemma ManagerRescues(s: State, l: LockId)
    requires Reachable(s) && l < |s.entries|
    ensures var n, t := Grantee(s, l), Apply(s, Serve(l));
            && SameSize(s, t)
            && (n != INVALID_NODE_ID <==> Locked(s.entries[l].word) == 0 && TailIdx(s.entries[l].word) != 0)
            && (n == INVALID_NODE_ID ==> t == s)
            && (n != INVALID_NODE_ID ==>
                  && n == s.entries[l].pending < |s.nodes| && s.nodes[n].locked == 1 && s.nodes[n].waiting == l
                  && t.entries[l].owner == n && Locked(t.entries[l].word) == 1 && !t.entries[l].granting
                  && Tail(t, l) == n && t.entries[l].pending == s.nodes[n].next
                    && t.nodes[n] == s.nodes[n].(locked := 2)
                  && (forall m :: 0 <= m < |s.nodes| && m != n ==> t.nodes[m] == s.nodes[m])
                  && (forall k :: 0 <= k < |s.entries| && k != l ==> t.entries[k] == s.entries[k])
                  && (forall m :: 0 <= m < |s.nodes| ==> (PollTest(t.nodes[m], l) <==> m == n)))
  {
    ReachableInv(s);
    GranteeIsFirst(s, l);
    StepInv(s, Serve(l));
    assert EntryInv(s, l);
    var n, t := Grantee(s, l), Apply(s, Serve(l));
    if n != INVALID_NODE_ID {
      assert NodeInv(s, n);
      NewHeld(n);
      forall m | 0 <= m < |s.nodes| ensures PollTest(t.nodes[m], l) <==> m == n {
        if PollTest(t.nodes[m], l) { PollingNodeOwns(t, l, m); }
      }
    }
  }

  /**
   A step that makes a node the owner of a lock, be it an exchange, a hand-off or a grant of
   the manager, makes it the tail, however many nodes wait behind it.
   */
  lemma NewOwnerIsTail(s: State, st: Step, l: LockId)
    requires Reachable(s) && Enabled(s, st) && l < |s.entries|
    ensures var t := Apply(s, st);
            && SameSize(s, t)
            && (t.entries[l].owner != s.entries[l].owner && t.entries[l].owner != INVALID_NODE_ID ==>
                  Tail(t, l) == t.entries[l].owner && Locked(t.entries[l].word) == 1)
  {
    ReachableInv(s);
    ApplyShaped(s, st);
    match st {
      case Prepare(_, _) =>
      case Proceed(n) => NewHeld(n);
      case Leave(n, k) =>
        ReleaseBranch(s, n, k);
        if ExitOf(s, n, k).HandedOff? { NewHeld(s.nodes[n].next); }
      case Serve(k) =>
        GranteeIsFirst(s, k);
        if Grantee(s, k) != INVALID_NODE_ID { NewHeld(Grantee(s, k)); }
    }
  }

  // ------------------------------------------------------------------------------------
  // Lost waiters
  // ------------------------------------------------------------------------------------

  /** The node waits, but nobody will hand the lock to it and the manager does not see it. */
  predicate Lost(s: State, x: NodeId, l: LockId)
    requires Shaped(s) && l < |s.entries|
  {
    Waits(s, x, l) && !HasPred(s, x) && (IsHeld(s, l) || s.entries[l].pending != x)
  }

  /**
   The link that loses a waiter: the recorded tail already has a successor, because a
   hand-off or a grant made the holder the tail although nodes wait behind it.
   */
  predicate Overwrites(s: State, st: Step, x: NodeId, l: LockId)
    requires Shaped(s) && Enabled(s, st) && l < |s.entries|
  {
    && st.Proceed? && s.pc[st.n] == AtExchange(l, s.entries[l].word)
    && Tail(s, l) < |s.nodes| && s.nodes[Tail(s, l)].next == x
  }

  lemma LinkPoints(s: State, n: NodeId, x: NodeId)
    requires Inv(s) && n < |s.pc| && s.pc[n].AtExchange? && s.entries[s.pc[n].l].word == s.pc[n].seen && x < |s.pc|
    ensures Shaped(SlowExchange(s, n)) && SameSize(s, SlowExchange(s, n))
    ensures var t, last := SlowExchange(s, n), Tail(s, s.pc[n].l);
            && (forall p :: 0 <= p < |s.pc| && p != last ==> Points(t, p, x) == Points(s, p, x))
            && (last < |s.pc| ==> Points(t, last, x) == (x == n))
  {
    ApplyShaped(s, Proceed(n));
    assert EntryInv(s, s.pc[n].l);
  }

  /** A pointer to a waiting node changes only by the release that follows it and by a link. */
  lemma ChangedPointer(s: State, st: Step, p: NodeId, x: NodeId)
    requires Inv(s) && Enabled(s, st) && p < |s.pc| && x < |s.pc| && Points(s, p, x)
    requires Shaped(Apply(s, st)) && SameSize(s, Apply(s, st)) && !Points(Apply(s, st), p, x)
    ensures s.pc[p].Inside?
    ensures || (st == Leave(p, s.pc[p].l) && Apply(s, st).nodes[x].locked == 2)
            || Overwrites(s, st, x, s.pc[p].l)
  {
    PointsToWaiter(s, p, x);
    assert NodeInv(s, p);
    match st {
      case Leave(n, l) =>
        ReleaseBranch(s, n, l);
      case Serve(l) =>
        GranteeIsFirst(s, l);
      case Prepare(n, l) =>
      case Proceed(n) =>
        if s.pc[n].AtExchange? && s.entries[s.pc[n].l].word == s.pc[n].seen {
          LinkPoints(s, n, x);
          assert EntryInv(s, s.pc[n].l);
        }
    }
  }

  lemma OnlyOwnExchangeJoins(s: State, st: Step, x: NodeId, l: LockId)
    requires Inv(s) && Enabled(s, st) && l < |s.entries| && x < |s.pc| && !Waits(s, x, l)
    requires Shaped(Apply(s, st)) && SameSize(s, Apply(s, st)) && Waits(Apply(s, st), x, l)
    ensures st == Proceed(x) && s.pc[x] == AtExchange(l, s.entries[l].word)
  {
    assert NodeInv(s, x);
    if st.Leave? {
      ReleaseBranch(s, st.n, st.l);
    }
  }

  /** A node that joins is linked behind the tail, or is the one the manager sees. */
  lemma JoiningIsSafe(s: State, st: Step, x: NodeId, l: LockId)
    requires Inv(s) && Enabled(s, st) && l < |s.entries| && x < |s.pc| && !Waits(s, x, l)
    ensures Shaped(Apply(s, st)) && SameSize(s, Apply(s, st)) && !Lost(Apply(s, st), x, l)
  {
    ApplyShaped(s, st);
    if Waits(Apply(s, st), x, l) {
      OnlyOwnExchangeJoins(s, st, x, l);
      assert EntryInv(s, l);
      NewTail(s.entries[l].word, x);
      if Tail(s, l) < |s.pc| {
        assert Points(Apply(s, st), Tail(s, l), x);
      }
    }
  }

  /** The node that the manager sees stays visible until it is granted. */
  lemma FirstWaiterIsSafe(s: State, st: Step, x: NodeId, l: LockId)
    requires Inv(s) && Enabled(s, st) && l < |s.entries| && Waits(s, x, l)
    requires !IsHeld(s, l) && s.entries[l].pending == x
    ensures Shaped(Apply(s, st)) && SameSize(s, Apply(s, st)) && !Lost(Apply(s, st), x, l)
  {
    ApplyShaped(s, st);
    assert NodeInv(s, x) && EntryInv(s, l);
    GranteeIsFirst(s, l);
    if st.Proceed? && s.pc[st.n] == AtExchange(l, s.entries[l].word) {
      NewTail(s.entries[l].word, st.n);
    }
  }

  /** Steps other than such a link lose nobody. */
  lemma OnlyOverwritingLoses(s: State, st: Step, x: NodeId, l: LockId)
    requires Inv(s) && Enabled(s, st) && l < |s.entries| && x < |s.pc|
    requires !Lost(s, x, l) && !Overwrites(s, st, x, l)
    ensures Shaped(Apply(s, st)) && SameSize(s, Apply(s, st)) && !Lost(Apply(s, st), x, l)
  {
    ApplyShaped(s, st);
    var t := Apply(s, st);
    if !Waits(s, x, l) {
      JoiningIsSafe(s, st, x, l);
    } else if HasPred(s, x) {
      var p :| 0 <= p < |s.pc| && Points(s, p, x);
      PointsToWaiter(s, p, x);
      if !Points(t, p, x) { ChangedPointer(s, st, p, x); }
    } else {
      FirstWaiterIsSafe(s, st, x, l);
    }
  }

  /** Such a link does lose the successor it overwrites. */
  lemma OverwritingLoses(s: State, st: Step, x: NodeId, l: LockId)
    requires Inv(s) && Enabled(s, st) && l < |s.entries| && x < |s.pc| && Overwrites(s, st, x, l)
    ensures Shaped(Apply(s, st)) && SameSize(s, Apply(s, st)) && Lost(Apply(s, st), x, l)
    ensures s.entries[l].owner == Tail(s, l)
  {
    ApplyShaped(s, st);
    var t, last := Apply(s, st), Tail(s, l);
    assert EntryInv(s, l) && NodeInv(s, last) && NodeInv(s, st.n) && OnePred(s, x);
    assert Points(s, last, x);
    NewTail(s.entries[l].word, st.n);
    LinkPoints(s, st.n, x);
    forall p | 0 <= p < |t.pc| ensures !Points(t, p, x) {
      assert Points(s, p, x) <==> p == last;
    }
  }

  /**
   Exactly when a waiter is lost: a node links itself behind a tail that already has that
   waiter as its successor.  The tail is then the holder.
   */
  lemma LostExactlyByOverwriting(s: State, st: Step, x: NodeId, l: LockId)
    requires Reachable(s) && Enabled(s, st) && l < |s.entries| && x < |s.nodes| && !Lost(s, x, l)
    ensures Shaped(Apply(s, st)) && SameSize(s, Apply(s, st))
    ensures Lost(Apply(s, st), x, l) <==> Overwrites(s, st, x, l)
    ensures Overwrites(s, st, x, l) ==> s.entries[l].owner == Tail(s, l)
  {
    ReachableInv(s);
    if Overwrites(s, st, x, l) {
      OverwritingLoses(s, st, x, l);
    } else {
      OnlyOverwritingLoses(s, st, x, l);
    }
  }

  /** Only a node that links itself becomes somebody's successor. */
  lemma NewPointer(s: State, st: Step, p: NodeId, x: NodeId)
    requires Inv(s) && Enabled(s, st) && p < |s.pc| && x < |s.pc| && !Points(s, p, x)
    requires Shaped(Apply(s, st)) && SameSize(s, Apply(s, st)) && Points(Apply(s, st), p, x)
    ensures !s.pc[x].Inside?
  {
  }

  lemma LostGainsNoPred(s: State, st: Step, x: NodeId, l: LockId)
    requires Inv(s) && Enabled(s, st) && l < |s.entries| && x < |s.pc| && Lost(s, x, l)
    requires Shaped(Apply(s, st)) && SameSize(s, Apply(s, st))
    ensures !HasPred(Apply(s, st), x)
  {
    var t := Apply(s, st);
    if HasPred(t, x) {
      var p :| 0 <= p < |t.pc| && Points(t, p, x);
      assert !Points(s, p, x);
      NewPointer(s, st, p, x);
      assert false;
    }
  }

  lemma LostIsNotGranted(s: State, st: Step, x: NodeId, l: LockId)
    requires Inv(s) && Enabled(s, st) && l < |s.entries| && x < |s.pc| && Lost(s, x, l)
    requires Shaped(Apply(s, st)) && SameSize(s, Apply(s, st))
    ensures Waits(Apply(s, st), x, l)
  {
    assert EntryInv(s, l) && NodeInv(s, x);
    match st {
      case Leave(n, k) =>
        ReleaseBranch(s, n, k);
        assert !Points(s, n, x);
      case Serve(k) => GranteeIsFirst(s, k);
      case _ =>
    }
  }

  lemma LostStaysUnseen(s: State, st: Step, x: NodeId, l: LockId)
    requires Inv(s) && Enabled(s, st) && l < |s.entries| && x < |s.pc| && Lost(s, x, l)
    requires Shaped(Apply(s, st)) && SameSize(s, Apply(s, st))
    ensures IsHeld(Apply(s, st), l) || Apply(s, st).entries[l].pending != x
  {
    assert EntryInv(s, l) && NodeInv(s, x);
    match st {
      case Leave(n, k) => ReleaseBranch(s, n, k);
      case Serve(k) => ServeHolds(s, k);
      case Prepare(n, k) =>
      case Proceed(n) =>
        if s.pc[n].AtExchange? && s.entries[s.pc[n].l].word == s.pc[n].seen && s.pc[n].l == l {
          NewTail(s.entries[l].word, n);
        }
    }
  }

  /** After a grant the lock is held. */
  lemma ServeHolds(s: State, l: LockId)
    requires Inv(s) && l < |s.entries|
    ensures Shaped(ServeLock(s, l)) && SameSize(s, ServeLock(s, l))
    ensures ServeLock(s, l) == s || IsHeld(ServeLock(s, l), l)
  {
    GranteeIsFirst(s, l);
    if Grantee(s, l) != INVALID_NODE_ID { NewHeld(Grantee(s, l)); }
  }

  lemma StepKeepsLost(s: State, st: Step, x: NodeId, l: LockId)
    requires Inv(s) && Enabled(s, st) && l < |s.entries| && x < |s.pc| && Lost(s, x, l)
    ensures Shaped(Apply(s, st)) && SameSize(s, Apply(s, st)) && Lost(Apply(s, st), x, l)
  {
    ApplyShaped(s, st);
    LostGainsNoPred(s, st, x, l);
    LostIsNotGranted(s, st, x, l);
    LostStaysUnseen(s, st, x, l);
  }

  /** No step of the run is such a link, at any lock. */
  ghost predicate OverwriteFree(s: State, run: seq<Step>, t: State)
    requires Shaped(s) && IsRun(s, run, t)
    decreases run
  {
    run != [] ==>
      && (forall x, l :: 0 <= x < |s.nodes| && 0 <= l < |s.entries| ==> !Overwrites(s, run[0], x, l))
      && (ApplyShaped(s, run[0]); OverwriteFree(Apply(s, run[0]), run[1..], t))
  }

  /** In a run without such links every waiter is somebody's successor or is seen by the manager. */
  lemma {:induction false} NobodyIsLost(s: State, run: seq<Step>, t: State, x: NodeId, l: LockId)
    requires Inv(s) && IsRun(s, run, t) && OverwriteFree(s, run, t)
    requires l < |s.entries| && x < |s.nodes| && !Lost(s, x, l)
    ensures Waits(t, x, l) ==> HasPred(t, x) || (Locked(t.entries[l].word) == 0 && t.entries[l].pending == x)
    decreases run
  {
    if run != [] {
      StepInv(s, run[0]);
      OnlyOverwritingLoses(s, run[0], x, l);
      NobodyIsLost(Apply(s, run[0]), run[1..], t, x, l);
    } else {
      assert EntryInv(s, l);
    }
  }

  /** A lost waiter waits for ever: no run grants it the lock. */
  lemma {:induction false} LostForEver(s: State, run: seq<Step>, t: State, x: NodeId, l: LockId)
    requires Inv(s) && IsRun(s, run, t) && l < |s.entries| && x < |s.pc| && Lost(s, x, l)
    ensures Lost(t, x, l) && !PollTest(t.nodes[x], l)
    decreases run
  {
    if run != [] {
      StepInv(s, run[0]);
      StepKeepsLost(s, run[0], x, l);
      LostForEver(Apply(s, run[0]), run[1..], t, x, l);
    }
  }

  // ------------------------------------------------------------------------------------
  // Runs that are put together
  // ------------------------------------------------------------------------------------

  lemma {:induction false} RunConcat(s: State, run: seq<Step>, t: State, more: seq<Step>, u: State)
    requires Shaped(s) && IsRun(s, run, t) && IsRun(t, more, u)
    ensures IsRun(s, run + more, u)
    decreases run
  {
    if run == [] {
      assert run + more == more;
    } else {
      ApplyShaped(s, run[0]);
      RunConcat(Apply(s, run[0]), run[1..], t, more, u);
      assert (run + more)[1..] == run[1..] + more;
    }
  }

  /** One more step at the end of a run. */
  lemma Take(s: State, run: seq<Step>, t: State, st: Step)
    requires Shaped(s) && IsRun(s, run, t) && Enabled(t, st)
    ensures IsRun(s, run + [st], Apply(t, st))
  {
    ApplyShaped(t, st);
    assert IsRun(Apply(t, st), [], Apply(t, st));
    assert [st][1..] == [];
    assert IsRun(t, [st], Apply(t, st));
    RunConcat(s, run, t, [st], Apply(t, st));
  }

  // ------------------------------------------------------------------------------------
  // Refinement of the lock service
  // ------------------------------------------------------------------------------------

  /** What lock `l` looks like to the nodes. */
  function Abstract(s: State, l: LockId): Service
    requires Shaped(s) && l < |s.entries|
  {
    Service(if IsHeld(s, l) then Some(s.entries[l].owner) else None, Waiters(s, l))
  }

  function Waiters(s: State, l: LockId): set<NodeId>
    requires Shaped(s)
  {
    set n | 0 <= n < |s.pc| && Waits(s, n, l)
  }

  /** The operations of the service that a step performs on lock `l`. */
  function StepOps(s: State, st: Step, l: LockId): seq<Op>
    requires Shaped(s) && Enabled(s, st) && l < |s.entries|
  {
    match st
    case Prepare(_, _) => []
    case Proceed(n) =>
      var w := s.entries[l].word;
      if s.pc[n] == AtFast(l) && w == 0 then [Request(n), Grant(n)]
      else if s.pc[n] == AtExchange(l, w) then [Request(n)]
      else []
    case Leave(n, k) =>
      if k != l then []
      else (
        match ExitOf(s, n, l)
        case NotHolder => []
        case Emptied => [Release(n)]
        case HandedOff(succ) => [Release(n), Grant(succ)]
        case Forced => [Release(n)])
    case Serve(k) =>
      if k != l || Grantee(s, l) == INVALID_NODE_ID then [] else [Grant(Grantee(s, l))]
  }

  lemma PerformsTwo(a: Service, op: Op, next: Op, b: Service)
    requires Allowed(a, op) && Allowed(Do(a, op), next) && Do(Do(a, op), next) == b
    ensures Performs(a, [op, next], b)
  {
    assert [op, next][1..] == [next];
    PerformsOne(Do(a, op), next, b);
  }

  /** At most node `n` changes between waiting and not waiting. */
  lemma WaitersAfter(s: State, t: State, l: LockId, n: NodeId)
    requires Shaped(s) && Shaped(t) && SameSize(s, t) && n < |s.pc|
    requires forall m :: 0 <= m < |s.pc| && m != n ==> Waits(t, m, l) == Waits(s, m, l)
    ensures Waiters(t, l) == if Waits(t, n, l) then Waiters(s, l) + {n} else Waiters(s, l) - {n}
  {
  }

  lemma FastRefines(s: State, n: NodeId)
    requires Inv(s) && n < |s.pc| && s.pc[n].AtFast? && s.entries[s.pc[n].l].word == 0
    ensures var t, l := FastExchange(s, n), s.pc[n].l;
            Shaped(t) && SameSize(s, t) && Performs(Abstract(s, l), [Request(n), Grant(n)], Abstract(t, l))
  {
    ApplyShaped(s, Proceed(n));
    var t, l := FastExchange(s, n), s.pc[n].l;
    assert NodeInv(s, n) && EntryInv(s, l);
    NewHeld(n);
    WaitersAfter(s, t, l, n);
    PerformsTwo(Abstract(s, l), Request(n), Grant(n), Abstract(t, l));
  }

  lemma SlowRefines(s: State, n: NodeId)
    requires Inv(s) && n < |s.pc| && s.pc[n].AtExchange? && s.entries[s.pc[n].l].word == s.pc[n].seen
    ensures var t, l := SlowExchange(s, n), s.pc[n].l;
            Shaped(t) && SameSize(s, t) && Performs(Abstract(s, l), [Request(n)], Abstract(t, l))
  {
    ApplyShaped(s, Proceed(n));
    var t, l := SlowExchange(s, n), s.pc[n].l;
    assert NodeInv(s, n) && EntryInv(s, l);
    NewTail(s.entries[l].word, n);
    WaitersAfter(s, t, l, n);
    PerformsOne(Abstract(s, l), Request(n), Abstract(t, l));
  }

  lemma LeaveRefines(s: State, n: NodeId, l: LockId)
    requires Inv(s) && Enabled(s, Leave(n, l)) && !ExitOf(s, n, l).NotHolder?
    ensures var t := ReleaseLock(s, n, l);
            Shaped(t) && SameSize(s, t) && Performs(Abstract(s, l), StepOps(s, Leave(n, l), l), Abstract(t, l))
  {
    ApplyShaped(s, Leave(n, l));
    ReleaseBranch(s, n, l);
    var t := ReleaseLock(s, n, l);
    assert NodeInv(s, n) && EntryInv(s, l);
    match ExitOf(s, n, l) {
      case Emptied =>
        WaitersAfter(s, t, l, n);
        PerformsOne(Abstract(s, l), Release(n), Abstract(t, l));
      case HandedOff(succ) =>
        assert NodeInv(s, succ);
        NewHeld(succ);
        WaitersAfter(s, t, l, succ);
        PerformsTwo(Abstract(s, l), Release(n), Grant(succ), Abstract(t, l));
    }
  }

  lemma ServeRefines(s: State, l: LockId)
    requires Inv(s) && l < |s.entries| && Grantee(s, l) != INVALID_NODE_ID
    ensures var t := ServeLock(s, l);
            Shaped(t) && SameSize(s, t) && Performs(Abstract(s, l), [Grant(Grantee(s, l))], Abstract(t, l))
  {
    ApplyShaped(s, Serve(l));
    GranteeIsFirst(s, l);
    var t, n := ServeLock(s, l), Grantee(s, l);
    NewHeld(n);
    WaitersAfter(s, t, l, n);
    PerformsOne(Abstract(s, l), Grant(n), Abstract(t, l));
  }

  lemma Stutters(s: State, st: Step, l: LockId)
    requires Inv(s) && Enabled(s, st) && l < |s.entries| && StepOps(s, st, l) == []
    ensures Shaped(Apply(s, st)) && SameSize(s, Apply(s, st)) && Abstract(Apply(s, st), l) == Abstract(s, l)
  {
    ApplyShaped(s, st);
    var t := Apply(s, st);
    match st {
      case Leave(n, k) =>
        ReleaseBranch(s, n, k);
        assert NodeInv(s, n);
      case Serve(k) => GranteeIsFirst(s, k);
      case Prepare(n, k) => assert NodeInv(s, n);
      case Proceed(n) => assert NodeInv(s, n);
    }
    assert forall m :: 0 <= m < |s.pc| ==> Waits(t, m, l) == Waits(s, m, l);
    assert Waiters(t, l) == Waiters(s, l);
  }

  /** Every step performs its operations on the service. */
  lemma StepRefines(s: State, st: Step, l: LockId)
    requires Inv(s) && Enabled(s, st) && l < |s.entries|
    ensures Inv(Apply(s, st)) && SameSize(s, Apply(s, st))
    ensures Performs(Abstract(s, l), StepOps(s, st, l), Abstract(Apply(s, st), l))
  {
    StepInv(s, st);
    ApplyShaped(s, st);
    if StepOps(s, st, l) == [] {
      Stutters(s, st, l);
    } else {
      match st {
        case Proceed(n) => if s.pc[n].AtFast? { FastRefines(s, n); } else { SlowRefines(s, n); }
        case Leave(n, _) => LeaveRefines(s, n, l);
        case Serve(_) => ServeRefines(s, l);
      }
    }
  }

  function History(s: State, run: seq<Step>, t: State, l: LockId): seq<Op>
    requires Shaped(s) && IsRun(s, run, t) && l < |s.entries|
    decreases run
  {
    if run == [] then []
    else
      ApplyShaped(s, run[0]);
      StepOps(s, run[0], l) + History(Apply(s, run[0]), run[1..], t, l)
  }

  /** Every run performs a history of the lock service on each lock. */
  lemma {:induction false} RunRefines(s: State, run: seq<Step>, t: State, l: LockId)
    requires Inv(s) && IsRun(s, run, t) && l < |s.entries|
    ensures Performs(Abstract(s, l), History(s, run, t, l), Abstract(t, l))
    decreases run
  {
    if run != [] {
      var m := Apply(s, run[0]);
      StepRefines(s, run[0], l);
      RunRefines(m, run[1..], t, l);
      PerformsConcat(Abstract(s, l), StepOps(s, run[0], l), Abstract(m, l), History(m, run[1..], t, l), Abstract(t, l));
    }
  }

  /** In every run from the initial state each grant is released before the next, by the same node. */
  lemma GrantsAlternate(nodeCount: nat, lockCount: nat, run: seq<Step>, t: State, l: LockId)
    requires ReachedBy(nodeCount, lockCount, run, t) && l < lockCount
    ensures var h := History(InitState(nodeCount, lockCount), run, t, l);
            Grants(h) == Releases(h) + (if IsHeld(t, l) then [t.entries[l].owner] else [])
  {
    var s := InitState(nodeCount, lockCount);
    InitInv(nodeCount, lockCount);
    RunRefines(s, run, t, l);
    var h := History(s, run, t, l);
    GrantsAreReleasedInTurn(Abstract(s, l), h, Abstract(t, l));
    assert Held(Abstract(s, l)) + Grants(h) == Grants(h);
  }
}
