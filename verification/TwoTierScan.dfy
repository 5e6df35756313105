/** What a scan of the manager covers, whatever the threads do meanwhile. */
module TwoTierScan {
  import opened LockTypes
  import opened TwoTierProtocol

  /** How many scans begin in a run. */
  ghost function Begun(run: seq<Step>): nat
  {
    multiset(run)[BeginScan]
  }

  /** By this step the manager begins to look at lock `l`. */
  predicate Visits(s: State, st: Step, l: LockId)
    requires Shaped(s) && Enabled(s, st)
  {
    (st.BeginScan? || st.Manage?) && Apply(s, st).mgr == FirstPass(l, 0)
  }

  /** How often the manager begins to look at lock `l` in a run. */
  function VisitCount(s: State, run: seq<Step>, u: State, l: LockId): nat
    requires Shaped(s) && IsRun(s, run, u)
    decreases run
  {
    if run == [] then 0
    else
      ApplyShaped(s, run[0]);
      (if Visits(s, run[0], l) then 1 else 0) + VisitCount(Apply(s, run[0]), run[1..], u, l)
  }

  /** The running scan has not come to lock `l` yet. */
  predicate Ahead(m: ManagerPc, l: LockId)
  {
    !m.Between? && !m.EndScan? && m.l < l
  }

  function One(b: bool): nat
  {
    if b then 1 else 0
  }

  lemma StepVisits(s: State, st: Step, l: LockId)
    requires Shaped(s) && Enabled(s, st) && l < Locks(s)
    ensures One(Visits(s, st, l)) + One(Ahead(Apply(s, st).mgr, l)) == One(st.BeginScan?) + One(Ahead(s.mgr, l))
  {
    if st.Run? {
      ApplyShaped(s, st);
    }
  }

  lemma {:induction false} RunVisits(s: State, run: seq<Step>, u: State, l: LockId)
    requires Shaped(s) && IsRun(s, run, u) && l < Locks(s)
    ensures VisitCount(s, run, u, l) + One(Ahead(u.mgr, l)) == Begun(run) + One(Ahead(s.mgr, l))
    decreases run
  {
    if run != [] {
      ApplyShaped(s, run[0]);
      StepVisits(s, run[0], l);
      RunVisits(Apply(s, run[0]), run[1..], u, l);
      assert run == [run[0]] + run[1..];
    }
  }

  /** Every scan looks at every lock, and at each of them once. */
  lemma ScansVisitEveryLock(s: State, run: seq<Step>, u: State, l: LockId)
    requires Shaped(s) && IsRun(s, run, u) && l < Locks(s) && s.mgr == Between && u.mgr == Between
    ensures VisitCount(s, run, u, l) == Begun(run)
  {
    RunVisits(s, run, u, l);
  }

  lemma ScansVisitAll(s: State, run: seq<Step>, u: State)
    requires Shaped(s) && IsRun(s, run, u) && s.mgr == Between && u.mgr == Between
    ensures forall l :: 0 <= l < Locks(u) ==> VisitCount(s, run, u, l) == Begun(run)
  {
    forall l | 0 <= l < Locks(u) ensures VisitCount(s, run, u, l) == Begun(run) {
      ScansVisitEveryLock(s, run, u, l);
    }
  }

  // ------------------------------------------------------------------------------------
  // What a scan grants
  // ------------------------------------------------------------------------------------

  /** Node `n` is the first that waits for `l`, and nobody holds it. */
  predicate NextInLine(s: State, l: LockId, n: NodeId)
    requires Shaped(s) && l < Locks(s) && n < Nodes(s)
  {
    && s.slots[l][n] == SlotWaiting
    && (forall m :: 0 <= m < n ==> s.slots[l][m] != SlotWaiting)
    && (forall m :: 0 <= m < Nodes(s) ==> s.slots[l][m] != SlotLocked)
  }

  /** The running scan has yet to look at slot `n` of lock `l`, or has just found it waiting. */
  predicate OnTheWay(m: ManagerPc, l: LockId, n: NodeId)
  {
    || Ahead(m, l)
    || (m.FirstPass? && m.l == l)
    || (m.SecondPass? && m.l == l && m.i <= n)
    || m == Exchange(l, n)
  }

  /** Along the run node `n` is the first that waits for `l`, and nobody holds it, until `l` is granted. */
  predicate StaysNext(s: State, run: seq<Step>, u: State, l: LockId, n: NodeId)
    requires Shaped(s) && IsRun(s, run, u) && l < Locks(s) && n < Nodes(s)
    decreases run
  {
    && NextInLine(s, l, n)
    && (run != [] ==>
          (ApplyShaped(s, run[0]);
           Apply(s, run[0]).grants[l] == s.grants[l] ==> StaysNext(Apply(s, run[0]), run[1..], u, l, n)))
  }

  lemma ThreadsGrantNothing(s: State, st: Step)
    requires Shaped(s) && Enabled(s, st) && !st.Manage? && !st.BeginScan?
    ensures Apply(s, st).grants == s.grants && Apply(s, st).mgr == s.mgr
  {
  }

  lemma ManagerGoesOn(s: State, l: LockId, n: NodeId)
    requires Shaped(s) && s.mgr != Between && l < Locks(s) && n < Nodes(s)
    requires NextInLine(s, l, n) && OnTheWay(s.mgr, l, n) && s.mgr != Exchange(l, n)
    ensures Shaped(ManagerAccess(s)) && SameSize(s, ManagerAccess(s))
    ensures OnTheWay(ManagerAccess(s).mgr, l, n) && ManagerAccess(s).grants[l] == s.grants[l]
  {
    ManagerAccessShaped(s);
  }

  /** A scan has begun and is on its way, or is yet to begin in the run. */
  predicate WillLook(s: State, run: seq<Step>, l: LockId, n: NodeId)
  {
    OnTheWay(s.mgr, l, n) || (s.mgr == Between && BeginScan in run)
  }

  /** Every step but the exchange of slot `n` leaves the manager on its way. */
  lemma StillLooks(s: State, run: seq<Step>, u: State, l: LockId, n: NodeId)
    requires Shaped(s) && run != [] && IsRun(s, run, u) && l < Locks(s) && n < Nodes(s)
    requires NextInLine(s, l, n) && WillLook(s, run, l, n) && !(run[0] == Manage && s.mgr == Exchange(l, n))
    ensures Shaped(Apply(s, run[0])) && SameSize(s, Apply(s, run[0]))
    ensures Apply(s, run[0]).grants[l] == s.grants[l] && WillLook(Apply(s, run[0]), run[1..], l, n)
  {
    ApplyShaped(s, run[0]);
    if run[0].Manage? {
      ManagerGoesOn(s, l, n);
    } else if !run[0].BeginScan? {
      ThreadsGrantNothing(s, run[0]);
    }
  }

  /** The manager locks slot `n` of lock `l` by step `k` of the run. */
  ghost predicate LocksAt(s: State, run: seq<Step>, k: nat, before: State, l: LockId, n: NodeId)
    requires Shaped(s)
  {
    && k < |run| && IsRun(s, run[..k], before) && run[k] == Manage && before.mgr == Exchange(l, n)
    && l < Locks(before) && n < Nodes(before) && before.slots[l][n] == SlotWaiting
  }

  /**
   A node that waits throughout a scan is granted the lock in that scan if nobody holds the
   lock and no node with a smaller id waits, whatever the threads do otherwise.
   */
  lemma {:induction false} FirstWaiterIsLocked(s: State, run: seq<Step>, u: State, l: LockId, n: NodeId)
    returns (k: nat, before: State)
    requires Shaped(s) && IsRun(s, run, u) && l < Locks(s) && n < Nodes(s)
    requires WillLook(s, run, l, n) && u.mgr == Between && StaysNext(s, run, u, l, n)
    ensures LocksAt(s, run, k, before, l, n)
    ensures l < |before.grants| && ManagerAccess(before).grants[l] == before.grants[l] + 1 == s.grants[l] + 1
    decreases run
  {
    if run[0] == Manage && s.mgr == Exchange(l, n) {
      return 0, s;
    }
    StillLooks(s, run, u, l, n);
    k, before := FirstWaiterIsLocked(Apply(s, run[0]), run[1..], u, l, n);
    k := k + 1;
    assert run[..k][1..] == run[1..][..k - 1];
  }
}
