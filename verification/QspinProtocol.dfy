/**
 The queued spinlock as a transition system.  A node prepares its record, tries the fast
 exchange of a free lock word, and otherwise loads the word and exchanges it to become the
 tail.  A successful exchange stores its records in the same step; a release, and a check
 of the manager together with the grant that follows it, are one step each.
 */
module QspinProtocol {
  import opened LockTypes
  import opened QspinWord

  /** The per-lock record; `pending` is the field `pending_tail`, `granting` is `grant_in_progress`. */
  datatype Entry = Entry(word: nat, owner: NodeId, pending: NodeId, granting: bool)

  /** The per-node record, one for all locks. */
  datatype Node = Node(next: NodeId, locked: nat, waiting: LockId)

  datatype Pc =
    | Outside                           // in no call and in no queue
    | AtFast(l: LockId)                 // exchange a free word
    | AtLoad(l: LockId)                 // load the word
    | AtExchange(l: LockId, seen: nat)  // exchange the word that was loaded
    | Inside(l: LockId)                 // acquire_lock has returned: poll, hold, release

  datatype State = State(entries: seq<Entry>, nodes: seq<Node>, pc: seq<Pc>)

  datatype Step =
    | Prepare(n: NodeId, l: LockId)
    | Proceed(n: NodeId)              // the node's next access in acquire_lock
    | Leave(n: NodeId, l: LockId)    // release_lock
    | Serve(l: LockId)                // the manager: check_grant, then grant_lock

  const FREE_ENTRY := Entry(0, INVALID_NODE_ID, INVALID_NODE_ID, false)
  const FREE_NODE := Node(INVALID_NODE_ID, 0, INVALID_LOCK_ID)

  function InitState(nodeCount: nat, lockCount: nat): State
  {
    State(seq(lockCount, _ => FREE_ENTRY), seq(nodeCount, _ => FREE_NODE), seq(nodeCount, _ => Outside))
  }

  predicate Shaped(s: State)
  {
    && |s.pc| == |s.nodes| <= MAX_NODE_COUNT
    && |s.entries| <= MAX_LOCK_COUNT
    && (forall n :: 0 <= n < |s.pc| ==> s.pc[n].Outside? || s.pc[n].l < |s.entries|)
  }

  // Stores.  A store through an invalid node id is dropped.

  function SetEntry(s: State, l: LockId, e: Entry): State
    requires l < |s.entries|
  { s.(entries := s.entries[l := e]) }

  function SetNext(s: State, n: NodeId, v: NodeId): State
  { if n < |s.nodes| then s.(nodes := s.nodes[n := s.nodes[n].(next := v)]) else s }

  function SetLocked(s: State, n: NodeId, v: nat): State
  { if n < |s.nodes| then s.(nodes := s.nodes[n := s.nodes[n].(locked := v)]) else s }

  function SetNode(s: State, n: NodeId, v: Node): State
    requires n < |s.nodes|
  { s.(nodes := s.nodes[n := v]) }

  function Goto(s: State, n: NodeId, p: Pc): State
    requires n < |s.pc|
  { s.(pc := s.pc[n := p]) }

  predicate Enabled(s: State, st: Step)
    requires Shaped(s)
  {
    match st
    case Prepare(n, l) => n < |s.pc| && l < |s.entries| && s.pc[n].Outside?
    case Proceed(n) => n < |s.pc| && (s.pc[n].AtFast? || s.pc[n].AtLoad? || s.pc[n].AtExchange?)
    case Leave(n, l) => n < |s.pc| && l < |s.entries| && (s.pc[n].Outside? || s.pc[n].Inside?)
    case Serve(l) => l < |s.entries|
  }

  /** The fast exchange, and on success the stores that follow it. */
  function FastExchange(s: State, n: NodeId): State
    requires Shaped(s) && n < |s.pc| && s.pc[n].AtFast?
  {
    var l := s.pc[n].l;
    if s.entries[l].word == 0 then
      Goto(SetLocked(SetEntry(s, l, s.entries[l].(word := HeldBy(n), owner := n, pending := n)), n, 2), n, Inside(l))
    else Goto(s, n, AtLoad(l))
  }

  /** The slow exchange, and on success the link behind the old tail. */
  function SlowExchange(s: State, n: NodeId): State
    requires Shaped(s) && n < |s.pc| && s.pc[n].AtExchange?
  {
    var l, seen := s.pc[n].l, s.pc[n].seen;
    var e := s.entries[l];
    if e.word != seen then Goto(s, n, AtLoad(l))
    else if TailIdx(seen) == 0 then
      Goto(SetEntry(s, l, e.(word := SetTail(seen, NodeToTail(n)), pending := n)), n, Inside(l))
    else
      Goto(SetNext(SetEntry(s, l, e.(word := SetTail(seen, NodeToTail(n)))), TailToNode(TailIdx(seen)), n), n, Inside(l))
  }

  function NodeAccess(s: State, n: NodeId): State
    requires Shaped(s) && Enabled(s, Proceed(n))
  {
    match s.pc[n]
    case AtFast(_) => FastExchange(s, n)
    case AtLoad(l) => Goto(s, n, AtExchange(l, s.entries[l].word))
    case AtExchange(_, _) => SlowExchange(s, n)
    case Outside => s
    case Inside(_) => s
  }

  /** How `release_lock` ends. */
  datatype Exit = NotHolder | Emptied | HandedOff(succ: NodeId) | Forced

  /** The branch that a release by `n` takes. */
  function ExitOf(s: State, n: NodeId, l: LockId): Exit
    requires Shaped(s) && n < |s.pc| && l < |s.entries|
  {
    if s.entries[l].owner != n then NotHolder
    else if s.nodes[n].next != INVALID_NODE_ID then HandedOff(s.nodes[n].next)
    else if TailIdx(s.entries[l].word) == NodeToTail(n) then Emptied
    else Forced
  }

  /**
   The whole release.  The last branch is where the loop over the own record has counted
   to its bound and the owner is cleared by force.
   */
  function ReleaseLock(s: State, n: NodeId, l: LockId): State
    requires Shaped(s) && n < |s.pc| && l < |s.entries|
  {
    var e := s.entries[l];
    match ExitOf(s, n, l)
    case NotHolder => s
    case Emptied =>
      Goto(SetNode(SetEntry(s, l, e.(word := 0, pending := INVALID_NODE_ID, owner := INVALID_NODE_ID)), n, FREE_NODE), n, Outside)
    case HandedOff(succ) =>
      var t := SetLocked(SetEntry(s, l, e.(word := HeldBy(succ), pending := succ, owner := succ)), succ, 2);
      Goto(SetNode(t, n, FREE_NODE), n, Outside)
    case Forced =>
      Goto(SetNode(SetEntry(s, l, e.(owner := INVALID_NODE_ID)), n, s.nodes[n].(locked := 0, waiting := INVALID_LOCK_ID)), n, Outside)
  }

  /** The node that `check_grant` returns. */
  function Grantee(s: State, l: LockId): NodeId
    requires Shaped(s) && l < |s.entries|
  {
    var e := s.entries[l];
    if Locked(e.word) == 1 || TailIdx(e.word) == 0 || e.granting then INVALID_NODE_ID
    else if e.pending == INVALID_NODE_ID || e.pending >= |s.nodes| then INVALID_NODE_ID
    else if s.nodes[e.pending].locked != 1 || s.nodes[e.pending].waiting != l then INVALID_NODE_ID
    else e.pending
  }

  /** `check_grant` marks the lock when it names a node. */
  function CheckGrant(s: State, l: LockId): State
    requires Shaped(s) && l < |s.entries|
  {
    if Grantee(s, l) == INVALID_NODE_ID then s else SetEntry(s, l, s.entries[l].(granting := true))
  }

  function GrantLock(s: State, n: NodeId, l: LockId): State
    requires Shaped(s) && n < |s.nodes| && l < |s.entries|
  {
    SetLocked(SetEntry(s, l, Entry(HeldBy(n), n, s.nodes[n].next, false)), n, 2)
  }

  function ServeLock(s: State, l: LockId): State
    requires Shaped(s) && l < |s.entries|
  {
    var n := Grantee(s, l);
    if n == INVALID_NODE_ID then s else GrantLock(CheckGrant(s, l), n, l)
  }

  function Apply(s: State, st: Step): State
    requires Shaped(s) && Enabled(s, st)
  {
    match st
    case Prepare(n, l) => Goto(SetNode(s, n, Node(INVALID_NODE_ID, 1, l)), n, AtFast(l))
    case Proceed(n) => NodeAccess(s, n)
    case Leave(n, l) => ReleaseLock(s, n, l)
    case Serve(l) => ServeLock(s, l)
  }

  predicate SameSize(s: State, t: State)
  {
    |t.entries| == |s.entries| && |t.nodes| == |s.nodes|
  }

  lemma ApplyShaped(s: State, st: Step)
    requires Shaped(s) && Enabled(s, st)
    ensures Shaped(Apply(s, st)) && SameSize(s, Apply(s, st))
  {
  }

  /** `run` leads from `s` to `t`. */
  predicate IsRun(s: State, run: seq<Step>, t: State)
    requires Shaped(s)
    ensures IsRun(s, run, t) ==> Shaped(t) && SameSize(s, t)
    decreases run
  {
    if run == [] then s == t
    else Enabled(s, run[0]) && (ApplyShaped(s, run[0]); IsRun(Apply(s, run[0]), run[1..], t))
  }

  /** The test of the poll on the node's own record. */
  predicate PollTest(nd: Node, l: LockId)
  {
    nd.locked == 2 && nd.waiting == l
  }
}
