/**
 What holds in every calm run of the MCS queue lock, one step per access, races included.
 The theorems about race-free runs carry over through the mirror image.
 */
module McsCalm {
  import opened LockTypes
  import opened LockService
  import opened McsProtocol
  import opened McsInvariant
  import opened McsPreservation
  import opened McsTheorems
  import opened McsMirror

  /** `run` leads from `s` to `t` by calm steps. */
  predicate CalmRun(s: State, run: seq<Step>, t: State)
    requires Shaped(s)
    ensures CalmRun(s, run, t) ==> Shaped(t) && |t.nodes| == |s.nodes| && |t.entries| == |s.entries|
    decreases run
  {
    if run == [] then s == t
    else
      && Enabled(s, run[0]) && Calm(s, run[0])
      && (ApplyShaped(s, run[0]); CalmRun(Apply(s, run[0]), run[1..], t))
  }

  ghost predicate CalmlyReachedBy(nodeCount: nat, lockCount: nat, run: seq<Step>, s: State)
  {
    && nodeCount <= INVALID_NODE_ID && 0 < lockCount <= INVALID_LOCK_ID
    && CalmRun(InitState(nodeCount, lockCount), run, s)
  }

  ghost predicate CalmlyReachable(s: State)
  {
    Shaped(s) && exists nodeCount: nat, lockCount: nat, run: seq<Step> :: CalmlyReachedBy(nodeCount, lockCount, run, s)
  }

  /** The history of lock `l` in a calm run. */
  function CalmHistory(s: State, run: seq<Step>, t: State, l: LockId): seq<Op>
    requires Shaped(s) && CalmRun(s, run, t)
    decreases run
  {
    if run == [] then []
    else
      ApplyShaped(s, run[0]);
      StepOps(s, run[0], l) + CalmHistory(Apply(s, run[0]), run[1..], t, l)
  }

  // ------------------------------------------------------------------------------------
  // The image of a run
  // ------------------------------------------------------------------------------------

  lemma {:induction false} ManagerStepsConcat(a: seq<Step>, b: seq<Step>)
    ensures ManagerSteps(a + b) == ManagerSteps(a) + ManagerSteps(b)
  {
    if a == [] {
      assert a + b == b;
    } else {
      ManagerStepsConcat(a[1..], b);
      assert (a + b)[1..] == a[1..] + b;
    }
  }

  /** The image `v` of the end is reached from `u` without a race, by as many accesses of the manager. */
  ghost predicate ImagesRun(s: State, u: State, run: seq<Step>, t: State, more: seq<Step>, v: State)
    requires Shaped(s) && CalmRun(s, run, t)
  {
    && Shaped(u) && RaceFreeRun(u, more, v) && Mirrors(t, v) && Reachable(v) && ManagerSteps(more) == ManagerSteps(run)
  }

  lemma {:induction false} RunImaged(s: State, u: State, run: seq<Step>, t: State) returns (more: seq<Step>, v: State)
    requires Reachable(u) && Mirrors(s, u) && CalmRun(s, run, t)
    ensures ImagesRun(s, u, run, t, more, v)
    decreases run
  {
    if run == [] {
      return [], u;
    }
    var m := Apply(s, run[0]);
    var first, w := StepImaged(s, u, run[0]);
    var rest;
    rest, v := RunImaged(m, w, run[1..], t);
    more := first + rest;
    RunConcat(u, first, w, rest, v);
    ManagerStepsConcat(first, rest);
  }

  lemma InitIsReachable(nodeCount: nat, lockCount: nat)
    requires nodeCount <= INVALID_NODE_ID && 0 < lockCount <= INVALID_LOCK_ID
    ensures Reachable(InitState(nodeCount, lockCount))
    ensures Mirrors(InitState(nodeCount, lockCount), InitState(nodeCount, lockCount))
  {
    assert ReachedBy(nodeCount, lockCount, [], InitState(nodeCount, lockCount));
  }

  /** Every calmly reached state has an image that is reached without a race. */
  lemma HasImage(s: State) returns (u: State)
    requires CalmlyReachable(s)
    ensures Reachable(u) && Inv(u) && Mirrors(s, u)
  {
    var nodeCount: nat, lockCount: nat, run: seq<Step> :| CalmlyReachedBy(nodeCount, lockCount, run, s);
    InitIsReachable(nodeCount, lockCount);
    var i := InitState(nodeCount, lockCount);
    var more;
    more, u := RunImaged(i, i, run, s);
    ReachableInv(u);
  }

  /** What the clients see is the same in the image. */
  lemma SameService(s: State, u: State, l: LockId)
    requires Mirrors(s, u) && l < |s.entries|
    ensures Holder(s, l) == Holder(u, l) && Abstract(s, l) == Abstract(u, l)
    ensures forall n :: Granted(s, l, n) <==> Granted(u, l, n)
  {
    assert EntryMirrors(s, u, l);
  }

  lemma RaceFreeStepIsCalm(s: State, st: Step)
    requires Inv(s) && Enabled(s, st)
    ensures Calm(s, st)
  {
    if st.Acquire? || (st.Access? && s.pc[st.n].Wake?) {
      assert NodeInv(s, st.n);
    }
  }

  /** A race-free run is calm. */
  lemma {:induction false} RaceFreeIsCalm(s: State, run: seq<Step>, t: State)
    requires Inv(s) && RaceFreeRun(s, run, t)
    ensures CalmRun(s, run, t)
    decreases run
  {
    if run != [] {
      RaceFreeStepIsCalm(s, run[0]);
      StepInv(s, run[0]);
      RaceFreeIsCalm(Apply(s, run[0]), run[1..], t);
    }
  }

  // ------------------------------------------------------------------------------------
  // Safety
  // ------------------------------------------------------------------------------------

  /** The node has seen the grant and has not given the lock up; a refused release does not give it up. */
  predicate Has(p: Pc, l: LockId)
  {
    Owning(p, l) || p == Refused(l)
  }

  lemma HasIsOwning(s: State, u: State, l: LockId, n: NodeId)
    requires Inv(u) && Mirrors(s, u) && l < |s.entries| && n < |s.pc| && Has(s.pc[n], l)
    ensures Owning(u.pc[n], l) && Holder(s, l) == Some(n)
  {
    assert NodeMirrors(s, u, n) && NodeInv(u, n);
    SameService(s, u, l);
    var i := Place(u, n, l);
  }

  /** At most one node in the cluster has a lock. */
  lemma MutualExclusion(s: State, l: LockId, a: NodeId, b: NodeId)
    requires CalmlyReachable(s) && l < |s.entries| && a < |s.pc| && b < |s.pc| && Has(s.pc[a], l) && Has(s.pc[b], l)
    ensures a == b && Holder(s, l) == Some(a)
  {
    var u := HasImage(s);
    HasIsOwning(s, u, l, a);
    HasIsOwning(s, u, l, b);
  }

  /** A record says "waiting" until the request has been granted. */
  ghost predicate Sound(s: State)
    requires Shaped(s)
  {
    forall n :: 0 <= n < |s.pc| && Requesting(s.pc[n]) && !Granted(s, s.pc[n].l, n) ==> s.nodes[n].locked == 1
  }

  lemma UngrantedWaits(u: State, n: NodeId)
    requires Inv(u) && n < |u.pc| && Requesting(u.pc[n]) && !Granted(u, u.pc[n].l, n)
    ensures u.nodes[n].locked == 1
  {
    var l := u.pc[n].l;
    assert NodeInv(u, n);
    if InQueue(u.pc[n], l) {
      var i := Place(u, n, l);
    }
  }

  lemma ImageIsSound(s: State, u: State)
    requires Inv(u) && Mirrors(s, u)
    ensures Sound(s)
  {
    forall n | 0 <= n < |s.pc| && Requesting(s.pc[n]) && !Granted(s, s.pc[n].l, n) ensures s.nodes[n].locked == 1 {
      assert NodeMirrors(s, u, n);
      SameService(s, u, s.pc[n].l);
      UngrantedWaits(u, n);
    }
  }

  /** A late wake-up makes the record of a request say "granted" that nobody has granted. */
  lemma LateWakeIsUnsound(s: State, st: Step)
    requires Shaped(s) && Enabled(s, st) && WakesTooLate(s, st)
    ensures Shaped(Apply(s, st)) && !Sound(Apply(s, st))
  {
    ApplyShaped(s, st);
    var t, m := Apply(s, st), s.pc[st.n].succ;
    AccessKeepsOthers(s, st.n);
    assert t.pc[m] == s.pc[m] && t.nodes[m].locked == 0 && t.entries == s.entries;
  }

  /** A run of clients that, when a release is refused, do nothing but ask again. */
  predicate PatientRun(s: State, run: seq<Step>, t: State)
    requires Shaped(s)
    decreases run
  {
    if run == [] then s == t
    else
      && Enabled(s, run[0]) && (run[0].Acquire? ==> s.pc[run[0].n] == Idle)
      && (ApplyShaped(s, run[0]); PatientRun(Apply(s, run[0]), run[1..], t))
  }

  ghost predicate SoundAlong(s: State, run: seq<Step>, t: State)
    requires Shaped(s) && PatientRun(s, run, t)
    decreases run
  {
    Sound(s) && (run != [] ==> (ApplyShaped(s, run[0]); SoundAlong(Apply(s, run[0]), run[1..], t)))
  }

  lemma {:induction false} SoundRun(s: State, u: State, run: seq<Step>, t: State)
    requires Reachable(u) && Mirrors(s, u) && PatientRun(s, run, t)
    ensures SoundAlong(s, run, t) <==> CalmRun(s, run, t)
    decreases run
  {
    ReachableInv(u);
    ImageIsSound(s, u);
    if run != [] {
      ApplyShaped(s, run[0]);
      if Calm(s, run[0]) {
        var more, v := StepImaged(s, u, run[0]);
        SoundRun(Apply(s, run[0]), v, run[1..], t);
      } else {
        LateWakeIsUnsound(s, run[0]);
        assert !SoundAlong(Apply(s, run[0]), run[1..], t);
      }
    }
  }

  /**
   In a run of patient clients every record says "waiting" until its request is granted, if
   and only if no wake-up of the run lands in the record of a request that is not granted.
   */
  lemma SoundExactlyIfCalm(nodeCount: nat, lockCount: nat, run: seq<Step>, t: State)
    requires nodeCount <= INVALID_NODE_ID && 0 < lockCount <= INVALID_LOCK_ID
    requires PatientRun(InitState(nodeCount, lockCount), run, t)
    ensures SoundAlong(InitState(nodeCount, lockCount), run, t) <==> CalmRun(InitState(nodeCount, lockCount), run, t)
  {
    InitIsReachable(nodeCount, lockCount);
    SoundRun(InitState(nodeCount, lockCount), InitState(nodeCount, lockCount), run, t);
  }

  /** One turn of the poll, with nobody else in between. */
  function PollOnce(s: State, m: NodeId): State
    requires Shaped(s) && m < |s.pc| && s.pc[m].Waiting?
  {
    AccessShaped(s, m);
    NodeAccess(NodeAccess(s, m), m)
  }

  lemma PollLetsIn(s: State, m: NodeId, k: LockId)
    requires Shaped(s) && m < |s.pc| && k < |s.entries| && s.pc[m] == Waiting(k)
    requires PollTest(s.nodes[m].locked, s.nodes[m].waiting, k)
    ensures var t := PollOnce(s, m);
            && t.pc == s.pc[m := Holding(k)] && t.entries == s.entries && t.queue == s.queue
            && t.mgr == s.mgr && t.nodes == s.nodes
  {
    AccessShaped(s, m);
    assert NodeAccess(s, m).pc == s.pc[m := PollLock(k, s.nodes[m].locked)];
  }

  lemma RequestsFor(s: State, m: NodeId, k: LockId)
    requires CalmlyReachable(s) && m < |s.pc| && s.pc[m] == Waiting(k)
    ensures k < |s.entries| && s.nodes[m].waiting == k
  {
    var u := HasImage(s);
    assert NodeMirrors(s, u, m);
    var i := Place(u, m, k);
  }

  lemma LateWakeStores(s: State, r: NodeId, m: NodeId, k: LockId)
    requires Shaped(s) && r < |s.pc| && s.pc[r].Wake? && s.pc[r].succ == m < |s.pc| && s.pc[m] == Waiting(k)
    ensures var a := NodeAccess(s, r);
            && Shaped(a) && a.entries == s.entries && a.queue == s.queue && a.mgr == s.mgr && |a.pc| == |s.pc|
            && a.pc[m] == Waiting(k) && a.nodes[m] == s.nodes[m].(locked := 0)
  {
    AccessShaped(s, r);
    AccessKeepsOthers(s, r);
  }

  /**
   What a late wake-up does to the next poll: a waiter whose record it lands in enters its
   critical section although it is not the holder.
   */
  lemma LateWakeLetsIn(s: State, r: NodeId, m: NodeId, k: LockId)
    requires CalmlyReachable(s) && r < |s.pc| && WakesTooLate(s, Access(r)) && s.pc[r].succ == m
    requires s.pc[m] == Waiting(k)
    ensures Shaped(NodeAccess(s, r)) && |NodeAccess(s, r).pc| == |s.pc| && NodeAccess(s, r).pc[m] == Waiting(k)
    ensures var t := PollOnce(NodeAccess(s, r), m);
            Shaped(t) && |t.entries| == |s.entries| && t.pc[m] == Holding(k) && Holder(t, k) == Holder(s, k) != Some(m)
  {
    RequestsFor(s, m, k);
    LateWakeStores(s, r, m, k);
    PollLetsIn(NodeAccess(s, r), m, k);
  }

  /** A waiter whose record passes the test of the poll, or that has seen it pass, holds the lock. */
  lemma PollIsSound(s: State, n: NodeId, l: LockId)
    requires CalmlyReachable(s) && n < |s.pc| && l < |s.entries| && Polling(s.pc[n], l)
    requires var v := if s.pc[n].PollLock? then s.pc[n].v else s.nodes[n].locked;
             PollTest(v, s.nodes[n].waiting, l)
    ensures s.entries[l].owner == n || s.mgr == StoreOwner(l, n)
    ensures Holder(s, l) == Some(n)
  {
    var u := HasImage(s);
    assert NodeMirrors(s, u, n) && EntryMirrors(s, u, l);
    SameService(s, u, l);
    if u.pc[n].SetHead? {
      var i := Place(u, n, l);
    } else {
      McsTheorems.PollIsSound(u, n, l);
    }
  }

  // ------------------------------------------------------------------------------------
  // The queue
  // ------------------------------------------------------------------------------------

  lemma SameLink(s: State, u: State, l: LockId, a: NodeId, m: NodeId)
    requires Mirrors(s, u)
    ensures PendingLink(s, l, a, m) <==> PendingLink(u, l, a, m)
  {
    if m < |s.pc| { assert NodeMirrors(s, u, m); }
  }

  lemma SameNeighbours(s: State, u: State, l: LockId, a: NodeId, b: NodeId)
    requires Mirrors(s, u) && a < |s.nodes| && Neighbours(u, l, a, b)
    ensures Neighbours(s, l, a, b)
  {
    assert NodeMirrors(s, u, a);
    forall m: NodeId ensures PendingLink(s, l, a, m) <==> PendingLink(u, l, a, m) {
      SameLink(s, u, l, a, m);
    }
  }

  /**
   The head is the first of the queue, unless the first has yet to store it, the holder has
   already stored its successor, or it is lost to a holder that cleared it or is about to.
   */
  predicate HeadPlace(s: State, l: LockId)
    requires Shaped(s) && l < |s.entries|
  {
    var q, e := s.queue[l], s.entries[l];
    q == [] ||
    (q[0] < |s.pc| &&
     (|| e.head == q[0]
      || s.pc[q[0]] == SetHead(l)
      || (|q| >= 2 && s.pc[q[0]] == PassOwner(l, q[1]) && e.head == q[1])
      || (Polling(s.pc[q[0]], l) && Holder(s, l) == None && (e.head == INVALID_NODE_ID || Departing(s, l)))))
  }

  /**
   The shape of the queue: no node twice, the tail is the last node, the head is where it
   has to be, and neighbours are linked or have exactly one node that is about to link them.
   */
  lemma QueueShape(s: State, l: LockId)
    requires CalmlyReachable(s) && l < |s.entries|
    ensures l < |s.queue| && Distinct(s.queue[l]) && |s.pc| == |s.nodes|
    ensures forall i :: 0 <= i < |s.queue[l]| ==> s.queue[l][i] < |s.nodes|
    ensures s.entries[l].tail == (if s.queue[l] == [] then INVALID_NODE_ID else s.queue[l][|s.queue[l]| - 1])
    ensures forall i :: 1 <= i < |s.queue[l]| ==> Neighbours(s, l, s.queue[l][i - 1], s.queue[l][i])
    ensures HeadPlace(s, l)
  {
    var u := HasImage(s);
    var q := s.queue[l];
    McsTheorems.QueueShape(u, l);
    assert EntryMirrors(s, u, l);
    forall i | 1 <= i < |q| ensures Neighbours(s, l, q[i - 1], q[i]) {
      SameNeighbours(s, u, l, q[i - 1], q[i]);
    }
    if q != [] {
      HeadOfImage(s, u, l);
    }
  }

  lemma HeadOfImage(s: State, u: State, l: LockId)
    requires Inv(u) && Mirrors(s, u) && l < |s.entries| && s.queue[l] != []
    ensures HeadPlace(s, l)
  {
    var h := s.queue[l][0];
    assert LockInv(u, l) && EntryMirrors(s, u, l);
    assert NodeMirrors(s, u, h) && NodeInv(u, h);
    SameService(s, u, l);
    SameDeparture(s, u, l);
  }

  lemma SameDeparture(s: State, u: State, l: LockId)
    requires Mirrors(s, u) && l < |s.entries|
    ensures Departing(s, l) <==> Departing(u, l)
  {
    assert EntryMirrors(s, u, l);
    if s.entries[l].owner < |s.pc| { assert NodeMirrors(s, u, s.entries[l].owner); }
  }

  /** Queues of different locks have no node in common. */
  lemma QueuesAreDisjoint(s: State, k: LockId, l: LockId, n: NodeId)
    requires CalmlyReachable(s) && k < |s.entries| && l < |s.entries| && n in s.queue[k] && n in s.queue[l]
    ensures k == l
  {
    var u := HasImage(s);
    McsTheorems.QueuesAreDisjoint(u, k, l, n);
  }

  /** A retrying acquirer never finds itself in the tail, so the loop is only left by a swap. */
  lemma TailIsNeverSelf(s: State, n: NodeId)
    requires CalmlyReachable(s) && n < |s.pc| && s.pc[n].Reload?
    ensures s.entries[s.pc[n].l].tail != n && Apply(s, Access(n)).pc[n].Swap?
  {
    var u := HasImage(s);
    assert NodeMirrors(s, u, n) && EntryMirrors(s, u, s.pc[n].l);
    McsTheorems.TailIsNeverSelf(u, n);
  }

  /**
   A releasing node that spins has exactly one node behind it whose link ends the spin:
   either the link is stored, or that node's next access stores it.
   */
  lemma SpinEnds(s: State, n: NodeId) returns (b: NodeId)
    requires CalmlyReachable(s) && n < |s.pc| && s.pc[n].Spin?
    ensures b < |s.pc| && b != n && b in s.queue[s.pc[n].l]
    ensures forall m :: PendingLink(s, s.pc[n].l, n, m) ==> m == b
    ensures s.nodes[n].next == b || (PendingLink(s, s.pc[n].l, n, b) && Apply(s, Access(b)).nodes[n].next == b)
    ensures s.nodes[n].next == b ==> Apply(s, Access(n)).pc[n] == PassHead(s.pc[n].l, b)
  {
    var u := HasImage(s);
    assert NodeMirrors(s, u, n);
    b := McsTheorems.SpinEnds(u, n);
    SameLink(s, u, s.pc[n].l, n, b);
    SpinSees(s, n, b);
    forall m: NodeId | PendingLink(s, s.pc[n].l, n, m) ensures m == b {
      SameLink(s, u, s.pc[n].l, n, m);
    }
  }

  lemma SpinSees(s: State, n: NodeId, b: NodeId)
    requires Shaped(s) && n < |s.pc| && s.pc[n].Spin? && b < |s.pc|
    ensures PendingLink(s, s.pc[n].l, n, b) ==> Apply(s, Access(b)).nodes[n].next == b
    ensures s.nodes[n].next == b ==> Apply(s, Access(n)).pc[n] == PassHead(s.pc[n].l, b)
  {
  }

  /** No wake-up is lost: a node that owns a lock while it polls reads "granted", or somebody is about to store that. */
  lemma OwnerIsWoken(s: State, l: LockId, n: NodeId) returns (r: NodeId)
    requires CalmlyReachable(s) && l < |s.entries| && n < |s.pc|
    requires Polling(s.pc[n], l) && s.entries[l].owner == n && s.nodes[n].locked !in {0, 2}
    ensures s.nodes[n].locked == 1 && r < |s.pc| && r != n && s.pc[r] == Wake(l, n)
  {
    var u := HasImage(s);
    assert NodeMirrors(s, u, n) && EntryMirrors(s, u, l);
    if u.pc[n].SetHead? {
      var i := Place(u, n, l);
      assert false;
    } else {
      r := McsTheorems.OwnerIsWoken(u, l, n);
      assert NodeMirrors(s, u, r);
    }
  }

  // ------------------------------------------------------------------------------------
  // The service
  // ------------------------------------------------------------------------------------

  lemma ImagedStepRefines(s: State, u: State, st: Step, l: LockId) returns (v: State)
    requires Reachable(u) && Mirrors(s, u) && Enabled(s, st) && Calm(s, st) && l < |s.entries|
    ensures Shaped(Apply(s, st)) && |Apply(s, st).entries| == |s.entries| && Reachable(v) && Mirrors(Apply(s, st), v)
    ensures FifoPerforms(Abstract(s, l), StepOps(s, st, l), Abstract(Apply(s, st), l))
  {
    ApplyShaped(s, st);
    var more;
    more, v := StepImaged(s, u, st);
    ReachableInv(u);
    McsTheorems.RunRefines(u, more, v, l);
    SameService(s, u, l);
    SameService(Apply(s, st), v, l);
  }

  /** Every calm step performs its operations on the in-order service. */
  lemma StepRefines(s: State, st: Step, l: LockId)
    requires CalmlyReachable(s) && Enabled(s, st) && Calm(s, st) && l < |s.entries|
    ensures Shaped(Apply(s, st)) && |Apply(s, st).entries| == |s.entries|
    ensures FifoPerforms(Abstract(s, l), StepOps(s, st, l), Abstract(Apply(s, st), l))
  {
    var u := HasImage(s);
    var v := ImagedStepRefines(s, u, st, l);
  }

  lemma {:induction false} ImagedRunRefines(s: State, u: State, run: seq<Step>, t: State, l: LockId)
    requires Reachable(u) && Mirrors(s, u) && CalmRun(s, run, t) && l < |s.entries|
    ensures |t.entries| == |s.entries| && FifoPerforms(Abstract(s, l), CalmHistory(s, run, t, l), Abstract(t, l))
    decreases run
  {
    if run != [] {
      var m := Apply(s, run[0]);
      var v := ImagedStepRefines(s, u, run[0], l);
      ImagedRunRefines(m, v, run[1..], t, l);
      FifoPerformsConcat(Abstract(s, l), StepOps(s, run[0], l), Abstract(m, l),
                         CalmHistory(m, run[1..], t, l), Abstract(t, l));
    }
  }

  /** Every calm run performs a history of the in-order service on each lock. */
  lemma RunRefines(s: State, run: seq<Step>, t: State, l: LockId)
    requires CalmlyReachable(s) && CalmRun(s, run, t) && l < |s.entries|
    ensures |t.entries| == |s.entries| && FifoPerforms(Abstract(s, l), CalmHistory(s, run, t, l), Abstract(t, l))
  {
    var u := HasImage(s);
    ImagedRunRefines(s, u, run, t, l);
  }

  lemma {:induction false} NoCancels(s: State, run: seq<Step>, t: State, l: LockId)
    requires Shaped(s) && CalmRun(s, run, t)
    ensures forall i :: 0 <= i < |CalmHistory(s, run, t, l)| ==> !CalmHistory(s, run, t, l)[i].Cancel?
    decreases run
  {
    if run != [] {
      ApplyShaped(s, run[0]);
      NoCancels(Apply(s, run[0]), run[1..], t, l);
    }
  }

  /**
   The nodes granted so far, followed by the nodes that wait, are the nodes that asked, in
   the order in which they asked; and every grant is released before the next.
   */
  lemma FifoOverRuns(nodeCount: nat, lockCount: nat, run: seq<Step>, t: State, l: LockId)
    requires CalmlyReachedBy(nodeCount, lockCount, run, t) && l < lockCount
    ensures Shaped(t) && |t.entries| == lockCount
    ensures var h := CalmHistory(InitState(nodeCount, lockCount), run, t, l);
            && Grants(h) + Abstract(t, l).line == Requests(h)
            && Grants(h) == Releases(h) + Held(Forget(Abstract(t, l)))
  {
    var s := InitState(nodeCount, lockCount);
    InitIsReachable(nodeCount, lockCount);
    ImagedRunRefines(s, s, run, t, l);
    NoCancels(s, run, t, l);
    InitInv(nodeCount, lockCount);
    AbstractIsProper(s, l);
    var h := CalmHistory(s, run, t, l);
    GrantsFollowRequests(Abstract(s, l), h, Abstract(t, l));
    FifoRefines(Abstract(s, l), h, Abstract(t, l));
    GrantsAreReleasedInTurn(Forget(Abstract(s, l)), h, Forget(Abstract(t, l)));
  }

  /** The log of owners followed by the waiting nodes is the log of tail swaps. */
  lemma OwnersFollowSwaps(s: State, l: LockId)
    requires CalmlyReachable(s) && l < |s.entries|
    ensures s.owners[l] + Abstract(s, l).line == s.swaps[l]
  {
    var u := HasImage(s);
    McsTheorems.OwnersFollowSwaps(u, l);
    SameService(s, u, l);
  }

  /**
   A node with `k` nodes ahead of it (the holder included) moves up by one with each
   release and is never overtaken: after `d <= k` releases exactly the `k - d` nodes that
   were closest before it are still ahead.  With somebody ahead of it, it is the holder
   exactly after `k` releases.
   */
  lemma TurnComesInOrder(s: State, run: seq<Step>, t: State, l: LockId, k: nat)
    requires CalmlyReachable(s) && CalmRun(s, run, t) && l < |s.entries| && k < |s.queue[l]|
    requires t.releases[l] - s.releases[l] <= k
    ensures s.releases[l] <= t.releases[l]
    ensures var d := t.releases[l] - s.releases[l];
            && k - d < |t.queue[l]|
            && (forall i :: d <= i <= k ==> t.queue[l][i - d] == s.queue[l][i])
            && (Holder(t, l) == Some(s.queue[l][k]) ==> d == k)
            && (k > 0 ==> (Holder(t, l) == Some(s.queue[l][k]) <==> d == k))
  {
    var u := HasImage(s);
    var more, v := RunImaged(s, u, run, t);
    TurnOfImage(s, u, more, t, v, l, k);
  }

  lemma TurnOfImage(s: State, u: State, more: seq<Step>, t: State, v: State, l: LockId, k: nat)
    requires Reachable(u) && Mirrors(s, u) && Mirrors(t, v) && RaceFreeRun(u, more, v) && l < |s.entries| == |t.entries|
    requires k < |s.queue[l]| && t.releases[l] - s.releases[l] <= k
    ensures s.releases[l] <= t.releases[l]
    ensures var d := t.releases[l] - s.releases[l];
            && k - d < |t.queue[l]|
            && (forall i :: d <= i <= k ==> t.queue[l][i - d] == s.queue[l][i])
            && (Holder(t, l) == Some(s.queue[l][k]) ==> d == k)
            && (k > 0 ==> (Holder(t, l) == Some(s.queue[l][k]) <==> d == k))
  {
    assert Holder(t, l) == Holder(v, l) by {
      SameService(t, v, l);
    }
    McsTheorems.TurnComesInOrder(u, more, v, l, k);
  }

  // ------------------------------------------------------------------------------------
  // The manager
  // ------------------------------------------------------------------------------------

  /**
   The manager acts on what it loaded: when it stores into the record of `h`, `h` is still
   the head, first in the queue, polling with "waiting" in its record, and the lock is
   unowned, whatever the nodes did since the loads.
   */
  lemma GrantIsStable(s: State)
    requires CalmlyReachable(s) && s.mgr.StoreLocked?
    ensures var l, h := s.mgr.l, s.mgr.h;
            && l < |s.entries| == |s.queue| && h < |s.nodes| == |s.pc| && s.queue[l] != [] && s.queue[l][0] == h
            && s.entries[l].head == h && s.entries[l].owner == INVALID_NODE_ID
            && Polling(s.pc[h], l) && s.nodes[h].locked == 1 && s.nodes[h].waiting == l && Holder(s, l) == None
  {
    var u := HasImage(s);
    McsTheorems.GrantIsStable(u);
    assert EntryMirrors(s, u, s.mgr.l) && NodeMirrors(s, u, s.mgr.h);
    SameService(s, u, s.mgr.l);
  }

  /**
   A check of an unowned lock with a recorded head gives the lock to that head, whatever
   the nodes do meanwhile: after four more accesses of the manager it is the next owner
   logged.
   */
  lemma CheckIsGranted(s: State, l: LockId, run: seq<Step>, t: State)
    requires CalmlyReachable(s) && l < |s.entries| && s.mgr == Between
    requires s.entries[l].owner == INVALID_NODE_ID && s.entries[l].head != INVALID_NODE_ID
    requires Shaped(Apply(s, Check(l))) && CalmRun(Apply(s, Check(l)), run, t) && ManagerSteps(run) >= 4
    ensures s.queue[l] != [] && s.queue[l][0] == s.entries[l].head
    ensures |t.entries| == |s.entries| && |t.owners[l]| > |s.owners[l]|
    ensures t.owners[l][|s.owners[l]|] == s.entries[l].head
  {
    var u := HasImage(s);
    assert EntryMirrors(s, u, l) && LockInv(u, l);
    CheckLockBoth(s, u, l);
    var v0 := Apply(u, Check(l));
    StepInv(u, Check(l));
    ReachByCheck(u, l);
    var more, v := RunImaged(Apply(s, Check(l)), v0, run, t);
    if u.queue[l] != [] { assert InQueue(u.pc[u.queue[l][0]], l); assert NodeInv(u, u.queue[l][0]); }
    McsTheorems.CheckIsGranted(u, l, more, v);
  }

  lemma ReachByCheck(u: State, l: LockId)
    requires Reachable(u) && Enabled(u, Check(l))
    ensures Reachable(Apply(u, Check(l)))
  {
    ApplyShaped(u, Check(l));
    var v := Apply(u, Check(l));
    assert RaceFreeRun(u, [Check(l)], v) by {
      assert [Check(l)][1..] == [];
    }
    ReachFurther(u, [Check(l)], v);
  }

  // ------------------------------------------------------------------------------------
  // What a refusal costs
  // ------------------------------------------------------------------------------------

  predicate StepOf(st: Step, n: NodeId)
  {
    !st.Check? && !st.Manage? && st.n == n
  }

  lemma StepKeepsRefused(s: State, u: State, st: Step, n: NodeId, l: LockId)
    requires Inv(u) && Mirrors(s, u) && Enabled(s, st) && n < |s.pc| && s.pc[n] == Refused(l) && !StepOf(st, n)
    ensures var t := Apply(s, st);
            && Shaped(t) && |t.pc| == |s.pc| && |t.entries| == |s.entries|
            && t.pc[n] == Refused(l) && t.owners[l] == s.owners[l]
  {
    ApplyShaped(s, st);
    HasIsOwning(s, u, l, n);
    if st.Access? {
      AccessKeepsOthers(s, st.n);
      assert NodeMirrors(s, u, st.n);
      if s.pc[st.n].PassOwner? && s.pc[st.n].l == l {
        HasIsOwning(s, u, l, st.n);
      }
    } else if st.Manage? && s.mgr.StoreLocked? {
      assert LockInv(u, s.mgr.l);
      SameService(s, u, s.mgr.l);
    }
  }

  lemma {:induction false} RunKeepsRefused(s: State, u: State, run: seq<Step>, t: State, n: NodeId, l: LockId)
    requires Reachable(u) && Mirrors(s, u) && CalmRun(s, run, t) && n < |s.pc| && s.pc[n] == Refused(l)
    requires forall i :: 0 <= i < |run| ==> !StepOf(run[i], n)
    ensures t.pc[n] == Refused(l) && t.owners[l] == s.owners[l] && Holder(t, l) == Some(n)
    decreases run
  {
    ReachableInv(u);
    if run == [] {
      HasIsOwning(s, u, l, n);
    } else {
      StepKeepsRefused(s, u, run[0], n, l);
      var more, v := StepImaged(s, u, run[0]);
      assert forall i :: 0 <= i < |run[1..]| ==> run[1..][i] == run[i + 1];
      RunKeepsRefused(Apply(s, run[0]), v, run[1..], t, n, l);
    }
  }

  /**
   A holder whose release was refused keeps the lock: as long as it makes no further step,
   no other node becomes the owner, whatever the others and the manager do.
   */
  lemma RefusedHolderBlocks(s: State, run: seq<Step>, t: State, n: NodeId, l: LockId)
    requires CalmlyReachable(s) && CalmRun(s, run, t) && n < |s.pc| && s.pc[n] == Refused(l)
    requires forall i :: 0 <= i < |run| ==> !StepOf(run[i], n)
    ensures t.pc[n] == Refused(l) && t.owners[l] == s.owners[l] && Holder(t, l) == Some(n)
    ensures t.entries[l].owner == n || t.mgr == StoreOwner(l, n)
  {
    var u := HasImage(s);
    RunKeepsRefused(s, u, run, t, n, l);
  }
}
