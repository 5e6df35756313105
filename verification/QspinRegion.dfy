/**
 The queued spinlock as code over shared memory.  The records are arrays that the
 participants store into in place; `pc` holds what each node does next.  A method that
 stands for one step ends in the state that the step describes.
 */
module QspinRegion {
  import opened LockTypes
  import opened QspinWord
  import opened QspinProtocol
  import opened QspinInvariant
  import opened QspinTheorems
  import opened QspinTurns

  /** An entry after a successful slow exchange: the tail is `n`, the flags stay, and a first waiter is noted. */
  predicate TailIsNow(e: Entry, e': Entry, n: NodeId)
  {
    && TailIdx(e'.word) == NodeToTail(n) && e'.word % 4 == e.word % 4
    && e' == e.(word := e'.word, pending := if TailIdx(e.word) == 0 then n else e.pending)
  }

  /** The node is linked behind the tail with index `tail`, if there is one. */
  predicate LinkedBehind(ns: seq<Node>, ns': seq<Node>, tail: nat, n: NodeId)
  {
    if 0 < tail <= |ns| then ns' == ns[tail - 1 := ns[tail - 1].(next := n)] else ns' == ns
  }

  /** The records after an undisturbed exchange of the word by a node that queues. */
  predicate QueuedAlone(s: State, t: State, n: NodeId, l: LockId)
    requires l < |s.entries| && l < |t.entries|
  {
    && TailIsNow(s.entries[l], t.entries[l], n) && t.entries == s.entries[l := t.entries[l]]
    && LinkedBehind(s.nodes, t.nodes, TailIdx(s.entries[l].word), n)
  }

  /** The records after an undisturbed exchange of a free word. */
  predicate HeldAlone(s: State, t: State, n: NodeId, l: LockId)
    requires n < |s.nodes| && l < |s.entries|
  {
    && t.entries == s.entries[l := Entry(4 * (n + 1) + 1, n, n, s.entries[l].granting)]
    && t.nodes == s.nodes[n := s.nodes[n].(locked := 2)]
  }

  /** The records after an undisturbed `acquire_lock`. */
  predicate AcquiredAlone(s: State, t: State, n: NodeId, l: LockId)
    requires n < |s.nodes| && l < |s.entries| && l < |t.entries|
  {
    var s' := s.(nodes := s.nodes[n := Node(INVALID_NODE_ID, 1, l)]);
    if s.entries[l].word == 0 then HeldAlone(s', t, n, l) else QueuedAlone(s', t, n, l)
  }

  lemma HoldsOrWaits(s: State, n: NodeId, l: LockId)
    requires Inv(s) && n < |s.pc| && s.pc[n] == Inside(l)
    ensures n < |s.nodes| && (PollTest(s.nodes[n], l) || Waits(s, n, l))
  {
    assert NodeInv(s, n);
  }

  /** A node outside the queues is not the tail that a newcomer links behind. */
  lemma JoinsBehindOthers(s: State, n: NodeId, l: LockId)
    requires Inv(s) && n < |s.pc| && s.pc[n] == Outside && l < |s.entries|
    ensures TailIdx(s.entries[l].word) != NodeToTail(n)
  {
    assert EntryInv(s, l);
  }

  /** The records after a release by a holder without a successor that is the tail. */
  predicate LeftEmpty(s: State, t: State, n: NodeId, l: LockId)
    requires n < |s.nodes| && l < |s.entries|
  {
    && t.entries == s.entries[l := Entry(0, INVALID_NODE_ID, INVALID_NODE_ID, s.entries[l].granting)]
    && t.nodes == s.nodes[n := Node(INVALID_NODE_ID, 0, INVALID_LOCK_ID)]
  }

  /** The records after a release by a holder with the successor `succ`. */
  predicate LeftTo(s: State, t: State, n: NodeId, l: LockId, succ: NodeId)
    requires n < |s.nodes| && l < |s.entries| && succ < |s.nodes|
  {
    && t.entries == s.entries[l := Entry(4 * (succ + 1) + 1, succ, succ, s.entries[l].granting)]
    && t.nodes == s.nodes[succ := s.nodes[succ].(locked := 2)][n := Node(INVALID_NODE_ID, 0, INVALID_LOCK_ID)]
  }

  /** The records after a release by force. */
  predicate LeftByForce(s: State, t: State, n: NodeId, l: LockId)
    requires n < |s.nodes| && l < |s.entries|
  {
    && t.entries == s.entries[l := s.entries[l].(owner := INVALID_NODE_ID)]
    && t.nodes == s.nodes[n := Node(s.nodes[n].next, 0, INVALID_LOCK_ID)]
  }

  lemma TakeStep(s: State, run: seq<Step>, t: State, st: Step)
    requires Shaped(s) && IsRun(s, run, t) && Inv(t) && Enabled(t, st)
    ensures Inv(Apply(t, st)) && IsRun(s, run + [st], Apply(t, st))
  {
    StepInv(t, st);
    Take(s, run, t, st);
  }

  /** A step of somebody else leaves the program counter of a node in acquire_lock alone. */
  lemma OthersKeepMe(s: State, st: Step, me: NodeId)
    requires Inv(s) && Enabled(s, st) && !By(st, me) && me < |s.pc|
    ensures |Apply(s, st).pc| == |s.pc| && Apply(s, st).pc[me] == s.pc[me]
  {
  }

  class Region {
    const entries: array<Entry>
    const nodes: array<Node>
    var pc: seq<Pc>

    function Now(): State
      reads this, entries, nodes
    {
      State(entries[..], nodes[..], pc)
    }

    /** `initialize`: the region is cleared, then the entries and the nodes are set up. */
    constructor (nodeCount: nat, lockCount: nat)
      requires nodeCount <= MAX_NODE_COUNT && lockCount <= MAX_LOCK_COUNT
      ensures fresh(entries) && fresh(nodes)
      ensures Now() == InitState(nodeCount, lockCount) && Inv(Now())
    {
      var es := new Entry[lockCount](_ => Entry(0, 0, 0, false));
      var ns := new Node[nodeCount](_ => Node(0, 0, 0));
      entries, nodes := es, ns;
      pc := seq(nodeCount, _ => Outside);
      new;
      for l := 0 to lockCount
        invariant entries == es && nodes == ns && pc == seq(nodeCount, _ => Outside)
        invariant forall k :: 0 <= k < l ==> entries[k] == FREE_ENTRY
        modifies entries
      {
        entries[l] := FREE_ENTRY;
      }
      for n := 0 to nodeCount
        invariant entries == es && nodes == ns && pc == seq(nodeCount, _ => Outside)
        invariant forall k :: 0 <= k < n ==> nodes[k] == FREE_NODE
        modifies nodes
      {
        nodes[n] := FREE_NODE;
      }
      assert Now() == InitState(nodeCount, lockCount);
      InitInv(nodeCount, lockCount);
    }

    // -- stores of one field ----------------------------------------------------------------

    method StoreNext(n: NodeId, v: NodeId)
      modifies nodes
      ensures Now() == SetNext(old(Now()), n, v)
    {
      if n < nodes.Length {
        nodes[n] := nodes[n].(next := v);
        assert nodes[..] == old(nodes[..])[n := old(nodes[n]).(next := v)];
      }
    }

    method StoreLocked(n: NodeId, v: nat)
      modifies nodes
      ensures Now() == SetLocked(old(Now()), n, v)
    {
      if n < nodes.Length {
        nodes[n] := nodes[n].(locked := v);
        assert nodes[..] == old(nodes[..])[n := old(nodes[n]).(locked := v)];
      }
    }

    method StoreNode(n: NodeId, v: Node)
      requires n < nodes.Length
      modifies nodes
      ensures Now() == SetNode(old(Now()), n, v)
    {
      nodes[n] := v;
      assert nodes[..] == old(nodes[..])[n := v];
    }

    method StoreEntry(l: LockId, e: Entry)
      requires l < entries.Length
      modifies entries
      ensures Now() == SetEntry(old(Now()), l, e)
    {
      entries[l] := e;
      assert entries[..] == old(entries[..])[l := e];
    }

    /** `compare_exchange` of the lock word. */
    method CompareExchange(l: LockId, expected: nat, desired: nat) returns (ok: bool)
      requires l < entries.Length
      modifies entries
      ensures ok <==> old(entries[l].word) == expected
      ensures Now() == if ok then SetEntry(old(Now()), l, old(entries[l]).(word := desired)) else old(Now())
    {
      ok := entries[l].word == expected;
      if ok {
        StoreEntry(l, entries[l].(word := desired));
      }
    }

    // -- the steps of acquire_lock ----------------------------------------------------------

    method PrepareNode(n: NodeId, l: LockId)
      requires Shaped(Now()) && Enabled(Now(), Prepare(n, l))
      modifies this`pc, nodes
      ensures Now() == Apply(old(Now()), Prepare(n, l))
      ensures nodes[..] == old(nodes[..])[n := Node(INVALID_NODE_ID, 1, l)]
    {
      StoreNode(n, Node(INVALID_NODE_ID, 1, l));
      pc := pc[n := AtFast(l)];
    }

    method TryFast(n: NodeId, l: LockId) returns (ok: bool)
      requires Shaped(Now()) && n < |pc| && pc[n] == AtFast(l)
      modifies this`pc, entries, nodes
      ensures Now() == FastExchange(old(Now()), n)
      ensures ok <==> old(entries[l].word) == 0
      ensures entries[..] == if ok then old(entries[..])[l := Entry(4 * (n + 1) + 1, n, n, old(entries[l].granting))] else old(entries[..])
      ensures nodes[..] == if ok then old(nodes[..])[n := old(nodes[n]).(locked := 2)] else old(nodes[..])
    {
      ghost var s := Now();
      ok := CompareExchange(l, 0, HeldBy(n));
      if ok {
        StoreLocked(n, 2);
        StoreEntry(l, entries[l].(owner := n));
        StoreEntry(l, entries[l].(pending := n));
        assert entries[..] == s.entries[l := s.entries[l].(word := HeldBy(n), owner := n, pending := n)];
        pc := pc[n := Inside(l)];
      } else {
        pc := pc[n := AtLoad(l)];
      }
    }

    method LoadWord(n: NodeId, l: LockId) returns (word: nat)
      requires Shaped(Now()) && n < |pc| && pc[n] == AtLoad(l)
      modifies this`pc
      ensures Now() == NodeAccess(old(Now()), n)
      ensures word == entries[l].word
    {
      word := entries[l].word;
      pc := pc[n := AtExchange(l, word)];
    }

    method TrySlow(n: NodeId, l: LockId, oldWord: nat) returns (ok: bool)
      requires Shaped(Now()) && n < |pc| && pc[n] == AtExchange(l, oldWord)
      modifies this`pc, entries, nodes
      ensures Now() == SlowExchange(old(Now()), n)
      ensures ok <==> old(entries[l].word) == oldWord
      ensures !ok ==> entries[..] == old(entries[..]) && nodes[..] == old(nodes[..])
      ensures ok ==> TailIsNow(old(entries[l]), entries[l], n) && entries[..] == old(entries[..])[l := entries[l]]
      ensures ok ==> LinkedBehind(old(nodes[..]), nodes[..], TailIdx(oldWord), n)
    {
      ghost var s := Now();
      var oldTail := TailIdx(oldWord);
      var newWord := SetTail(oldWord, NodeToTail(n));
      ok := CompareExchange(l, oldWord, newWord);
      if ok {
        if oldTail == 0 {
          StoreEntry(l, entries[l].(pending := n));
          assert entries[..] == s.entries[l := s.entries[l].(word := newWord, pending := n)];
        } else {
          StoreNext(TailToNode(oldTail), n);
        }
        pc := pc[n := Inside(l)];
      } else {
        pc := pc[n := AtLoad(l)];
      }
    }

    // -- release_lock, in one step ----------------------------------------------------------

    /** `release_lock`, with the exchange of a word it has just loaded and the bounded loop. */
    method Release(n: NodeId, l: LockId) returns (r: LockResult)
      requires Shaped(Now()) && (n < |pc| ==> pc[n].Outside? || pc[n].Inside?)
      modifies this`pc, entries, nodes
      ensures r == InvalidParam <==> !(n < nodes.Length && l < entries.Length)
      ensures r == InvalidParam ==> Now() == old(Now())
      ensures r != InvalidParam ==> Now() == ReleaseLock(old(Now()), n, l)
      ensures r != InvalidParam ==> r == if ExitOf(old(Now()), n, l).NotHolder? then NotOwner else Success
      ensures r == NotOwner ==> old(entries[l].owner) != n && Now() == old(Now())
      ensures r == Success ==>
                var s := old(Now());
                if s.nodes[n].next == INVALID_NODE_ID then
                  if TailIdx(s.entries[l].word) == NodeToTail(n) then LeftEmpty(s, Now(), n, l)
                    else LeftByForce(s, Now(), n, l)
                else s.nodes[n].next < nodes.Length ==> LeftTo(s, Now(), n, l, s.nodes[n].next)
    {
      if n == INVALID_NODE_ID || n >= nodes.Length || l >= entries.Length {
        return InvalidParam;
      }
      if entries[l].owner != n {
        return NotOwner;
      }
      if nodes[n].next == INVALID_NODE_ID {
        var oldWord := entries[l].word;
        var isTail := TailIdx(oldWord) == NodeToTail(n);
        var exchanged := CompareExchange(l, oldWord, if isTail then 0 else oldWord);
        if exchanged && isTail {
          LeaveEmpty(n, l);
          return Success;
        }
        var _ := SpinForSuccessor(n);
        if nodes[n].next == INVALID_NODE_ID {
          ForceRelease(n, l);
          return Success;
        }
      }
      HandOff(n, l, nodes[n].next);
      return Success;
    }

    /** The loop over the own record: it counts to its bound if the record does not change. */
    method SpinForSuccessor(n: NodeId) returns (spinCount: nat)
      requires n < nodes.Length
      ensures spinCount == if nodes[n].next == INVALID_NODE_ID then 1_000_001 else 0
    {
      spinCount := 0;
      while nodes[n].next == INVALID_NODE_ID
        invariant spinCount <= 1_000_000 && (nodes[n].next != INVALID_NODE_ID ==> spinCount == 0)
        decreases 1_000_000 - spinCount
      {
        spinCount := spinCount + 1;
        if spinCount > 1_000_000 {
          return;
        }
      }
    }

    method LeaveEmpty(n: NodeId, l: LockId)
      requires Shaped(Now()) && n < |pc| && l < entries.Length
      modifies this`pc, entries, nodes
      ensures Now() == Goto(SetNode(SetEntry(old(Now()), l, old(entries[l]).(pending := INVALID_NODE_ID, owner := INVALID_NODE_ID)),
                                    n, FREE_NODE), n, Outside)
      ensures old(entries[l].word) == 0 ==> LeftEmpty(old(Now()), Now(), n, l)
    {
      ghost var s := Now();
      StoreEntry(l, entries[l].(pending := INVALID_NODE_ID));
      StoreEntry(l, entries[l].(owner := INVALID_NODE_ID));
      assert entries[..] == s.entries[l := s.entries[l].(pending := INVALID_NODE_ID, owner := INVALID_NODE_ID)];
      ResetNode(n);
    }

    method ForceRelease(n: NodeId, l: LockId)
      requires Shaped(Now()) && n < |pc| && l < entries.Length
      modifies this`pc, entries, nodes
      ensures Now() == Goto(SetNode(SetEntry(old(Now()), l, old(entries[l]).(owner := INVALID_NODE_ID)),
                                    n, old(nodes[n]).(locked := 0, waiting := INVALID_LOCK_ID)), n, Outside)
      ensures LeftByForce(old(Now()), Now(), n, l)
    {
      StoreEntry(l, entries[l].(owner := INVALID_NODE_ID));
      StoreNode(n, nodes[n].(locked := 0, waiting := INVALID_LOCK_ID));
      pc := pc[n := Outside];
    }

    method HandOff(n: NodeId, l: LockId, succ: NodeId)
      requires Shaped(Now()) && n < |pc| && l < entries.Length
      modifies this`pc, entries, nodes
      ensures var t := SetEntry(old(Now()), l, old(entries[l]).(word := HeldBy(succ), pending := succ, owner := succ));
              Now() == Goto(SetNode(SetLocked(t, succ, 2), n, FREE_NODE), n, Outside)
      ensures succ < nodes.Length ==> LeftTo(old(Now()), Now(), n, l, succ)
    {
      ghost var s := Now();
      StoreEntry(l, entries[l].(pending := succ));
      StoreEntry(l, entries[l].(owner := succ));
      StoreEntry(l, entries[l].(word := HeldBy(succ)));
      assert entries[..] == s.entries[l := s.entries[l].(word := HeldBy(succ), pending := succ, owner := succ)];
      StoreLocked(succ, 2);
      ResetNode(n);
    }

    method ResetNode(n: NodeId)
      requires Shaped(Now()) && n < |pc|
      modifies this`pc, nodes
      ensures Now() == Goto(SetNode(old(Now()), n, FREE_NODE), n, Outside)
    {
      StoreNode(n, FREE_NODE);
      pc := pc[n := Outside];
    }

    // -- the manager, in one step -----------------------------------------------------------

    method Check(l: LockId) returns (grantee: NodeId)
      requires Shaped(Now())
      modifies entries
      ensures l >= entries.Length || nodes.Length == 0 ==> grantee == INVALID_NODE_ID && Now() == old(Now())
      ensures l < entries.Length && nodes.Length > 0 ==>
                grantee == Grantee(old(Now()), l) && Now() == CheckGrant(old(Now()), l)
      ensures grantee != INVALID_NODE_ID <==>
                && l < |old(entries[..])| && old(entries[l].word) % 2 == 0 && TailIdx(old(entries[l].word)) != 0
                  && !old(entries[l].granting)
                && old(entries[l].pending) < nodes.Length
                && nodes[old(entries[l].pending)].locked == 1 && nodes[old(entries[l].pending)].waiting == l
      ensures grantee != INVALID_NODE_ID ==>
                && grantee == old(entries[l].pending)
                && entries[..] == old(entries[..])[l := old(entries[l]).(granting := true)]
      ensures grantee == INVALID_NODE_ID ==> Now() == old(Now())
    {
      if nodes.Length == 0 || l >= entries.Length {
        return INVALID_NODE_ID;
      }
      var word := entries[l].word;
      if Locked(word) == 1 {
        return INVALID_NODE_ID;
      }
      if TailIdx(word) == 0 {
        return INVALID_NODE_ID;
      }
      if entries[l].granting {
        return INVALID_NODE_ID;
      }
      var head := entries[l].pending;
      if head == INVALID_NODE_ID || head >= nodes.Length {
        return INVALID_NODE_ID;
      }
      if nodes[head].locked != 1 || nodes[head].waiting != l {
        return INVALID_NODE_ID;
      }
      StoreEntry(l, entries[l].(granting := true));
      return head;
    }

    method Grant(n: NodeId, l: LockId) returns (r: LockResult)
      requires Shaped(Now())
      modifies entries, nodes
      ensures r == if n < nodes.Length && l < entries.Length then Success else InvalidParam
      ensures Now() == if r == Success then GrantLock(old(Now()), n, l) else old(Now())
      ensures r == Success ==>
                && entries[..] == old(entries[..])[l := Entry(4 * (n + 1) + 1, n, old(nodes[n].next), false)]
                && nodes[..] == old(nodes[..])[n := old(nodes[n]).(locked := 2)]
    {
      if n == INVALID_NODE_ID || n >= nodes.Length || l >= entries.Length {
        return InvalidParam;
      }
      ghost var s := Now();
      StoreLocked(n, 2);
      StoreEntry(l, entries[l].(owner := n));
      StoreEntry(l, entries[l].(word := HeldBy(n)));
      StoreEntry(l, entries[l].(pending := nodes[n].next));
      StoreEntry(l, entries[l].(granting := false));
      assert entries[..] == s.entries[l := Entry(HeldBy(n), n, s.nodes[n].next, false)];
      return Success;
    }

    /** One lock of the manager's scan. */
    method CheckAndGrant(l: LockId) returns (granted: bool)
      requires Shaped(Now()) && l < entries.Length
      modifies entries, nodes
      ensures Now() == ServeLock(old(Now()), l)
      ensures granted <==> Grantee(old(Now()), l) != INVALID_NODE_ID
      ensures granted ==>
                var n := old(entries[l].pending);
                && n < nodes.Length
                  && entries[..] == old(entries[..])[l := Entry(4 * (n + 1) + 1, n, old(nodes[n].next), false)]
                && nodes[..] == old(nodes[..])[n := old(nodes[n]).(locked := 2)]
      ensures !granted ==> Now() == old(Now())
    {
      ghost var s := Now();
      var grantee := Check(l);
      if grantee == INVALID_NODE_ID {
        return false;
      }
      ApplyShaped(s, Serve(l));
      var r := Grant(grantee, l);
      granted := r == Success;
    }

    // -- runs -------------------------------------------------------------------------------

    /** The next step of a node in acquire_lock. */
    method ProceedNext(n: NodeId)
      requires Shaped(Now()) && Enabled(Now(), Proceed(n))
      modifies this`pc, entries, nodes
      ensures Now() == NodeAccess(old(Now()), n)
    {
      match pc[n] {
        case AtFast(l) => var _ := TryFast(n, l);
        case AtLoad(l) => var _ := LoadWord(n, l);
        case AtExchange(l, seen) => var _ := TrySlow(n, l, seen);
      }
    }

    /** Any step of any participant, performed in place. */
    method Perform(st: Step)
      requires Shaped(Now()) && Enabled(Now(), st)
      modifies this, entries, nodes
      ensures Now() == Apply(old(Now()), st)
    {
      match st {
        case Prepare(n, l) => PrepareNode(n, l);
        case Proceed(n) => ProceedNext(n);
        case Leave(n, l) => var _ := Release(n, l);
        case Serve(l) => var _ := CheckAndGrant(l);
      }
    }

    /** The other participants run for the first part of the schedule, if there is one. */
    method Yield(me: NodeId, schedule: Schedule, ghost start: State, ghost run: seq<Step>)
      returns (rest: Schedule, ghost run': seq<Step>)
      requires Inv(Now()) && me < |pc| && Shaped(start) && IsRun(start, run, Now())
      modifies this, entries, nodes
      ensures Inv(Now()) && IsRun(start, run', Now())
      ensures |pc| == old(|pc|) && pc[me] == old(pc)[me]
      ensures if schedule == [] then rest == [] && Now() == old(Now()) else rest == schedule[1..]
      ensures Now() == AfterOthers(old(Now()), me, Head(schedule)) && rest == Drop(schedule, 1)
    {
      run' := run;
      if schedule == [] {
        return [], run';
      }
      rest := schedule[1..];
      var steps := schedule[0];
      for i := 0 to |steps|
        invariant Inv(Now()) && IsRun(start, run', Now())
        invariant |pc| == old(|pc|) && pc[me] == old(pc)[me]
        invariant Now() == AfterOthers(old(Now()), me, steps[..i])
      {
        var st := steps[i];
        assert steps[..i + 1] == steps[..i] + [st];
        AfterOneMore(old(Now()), me, steps[..i], st);
        if Enabled(Now(), st) && !By(st, me) {
          TakeStep(start, run', Now(), st);
          OthersKeepMe(Now(), st, me);
          Perform(st);
          run' := run' + [st];
        }
      }
      assert steps[..|steps|] == steps;
    }

    /** The others run; then node `n` is about to make its next step in acquire_lock. */
    method Turn(n: NodeId, schedule: Schedule, ghost start: State, ghost run: seq<Step>)
      returns (rest: Schedule, ghost run': seq<Step>)
      requires Inv(Now()) && Enabled(Now(), Proceed(n)) && Shaped(start) && IsRun(start, run, Now())
      modifies this, entries, nodes
      ensures Inv(Now()) && |pc| == old(|pc|) && pc[n] == old(pc)[n] && Enabled(Now(), Proceed(n))
      ensures Inv(NodeAccess(Now(), n)) && IsRun(start, run', NodeAccess(Now(), n))
      ensures if schedule == [] then rest == [] && Now() == old(Now()) else rest == schedule[1..]
      ensures NodeAccess(Now(), n) == AfterTurns(old(Now()), n, schedule, 1) && rest == Drop(schedule, 1)
    {
      rest, run' := Yield(n, schedule, start, run);
      TakeStep(start, run', Now(), Proceed(n));
      run' := run' + [Proceed(n)];
    }

    /** The others run; then the exchange. */
    method AttemptExchange(n: NodeId, l: LockId, word: nat, schedule: Schedule, ghost start: State, ghost run: seq<Step>)
      returns (ok: bool, rest: Schedule, ghost run': seq<Step>)
      requires Inv(Now()) && n < |pc| && l < entries.Length && pc[n] == AtExchange(l, word)
      requires Shaped(start) && IsRun(start, run, Now())
      modifies this, entries, nodes
      ensures Inv(Now()) && IsRun(start, run', Now()) && |pc| == old(|pc|)
      ensures pc[n] == if ok then Inside(l) else AtLoad(l)
      ensures if schedule == [] then rest == [] && (ok <==> old(entries[l].word) == word) else |rest| < |schedule|
      ensures schedule == [] ==> nodes[n].locked == old(nodes[n].locked)
      ensures schedule == [] && ok ==> QueuedAlone(old(Now()), Now(), n, l)
      ensures Now() == AfterTurns(old(Now()), n, schedule, 1) && rest == Drop(schedule, 1)
    {
      rest, run' := Turn(n, schedule, start, run);
      ok := TrySlow(n, l, word);
    }

    /** One attempt: load the word, exchange it; it can fail only if others run in between. */
    method Attempt(n: NodeId, l: LockId, schedule: Schedule, ghost start: State, ghost run: seq<Step>)
      returns (ok: bool, rest: Schedule, ghost run': seq<Step>)
      requires Inv(Now()) && n < |pc| && pc[n] == AtLoad(l) && Shaped(start) && IsRun(start, run, Now())
      modifies this, entries, nodes
      ensures Inv(Now()) && IsRun(start, run', Now()) && |pc| == old(|pc|)
      ensures pc[n] == if ok then Inside(l) else AtLoad(l)
      ensures !ok ==> |rest| < |schedule|
      ensures schedule == [] ==> nodes[n].locked == old(nodes[n].locked)
      ensures l < entries.Length && (schedule == [] ==> QueuedAlone(old(Now()), Now(), n, l))
      ensures Now() == AfterTurns(old(Now()), n, schedule, 2) && rest == Drop(schedule, 2)
    {
      rest, run' := Turn(n, schedule, start, run);
      var word := LoadWord(n, l);
      ok, rest, run' := AttemptExchange(n, l, word, rest, start, run');
    }

    /** The retry loop.  An exchange fails only after others have changed the word since it was loaded. */
    method JoinQueue(n: NodeId, l: LockId, schedule: Schedule, ghost start: State, ghost run: seq<Step>)
      returns (ghost run': seq<Step>, ghost turns: nat)
      requires Inv(Now()) && n < |pc| && pc[n] == AtLoad(l) && Shaped(start) && IsRun(start, run, Now())
      modifies this, entries, nodes
      ensures Inv(Now()) && IsRun(start, run', Now()) && |pc| == old(|pc|) && pc[n] == Inside(l)
      ensures schedule == [] ==> nodes[n].locked == old(nodes[n].locked)
      ensures l < entries.Length && (schedule == [] ==> QueuedAlone(old(Now()), Now(), n, l))
      ensures Now() == AfterTurns(old(Now()), n, schedule, turns)
    {
      hide AfterTurn, AfterTurns, Inv, IsRun;
      NoTurns(Now(), n, schedule);
      run', turns := run, 0;
      var rest := schedule;
      while true
        invariant Inv(Now()) && IsRun(start, run', Now()) && |pc| == old(|pc|) && pc[n] == AtLoad(l)
        invariant |rest| <= |schedule| && (schedule == [] ==> Now() == old(Now()))
        invariant Now() == AfterTurns(old(Now()), n, schedule, turns) && rest == Drop(schedule, turns)
        decreases |rest|
      {
        var ok;
        ok, rest, run' := Attempt(n, l, rest, start, run');
        TurnsAdd(old(Now()), n, schedule, turns, 2);
        turns := turns + 2;
        if ok {
          return;
        }
      }
    }

    /** `acquire_lock`: the node holds at once or waits in the queue; it is refused only for bad arguments. */
    method AcquireLock(n: NodeId, l: LockId, schedule: Schedule)
      returns (r: LockResult, ghost run: seq<Step>, ghost turns: nat)
      requires Inv(Now()) && (n < |pc| ==> pc[n] == Outside)
      modifies this, entries, nodes
      ensures Inv(Now()) && IsRun(old(Now()), run, Now())
      ensures r == if n < nodes.Length && l < entries.Length then Success else InvalidParam
      ensures r == InvalidParam ==> Now() == old(Now())
      ensures r == Success ==> n < |pc| && (PollTest(nodes[n], l) || Waits(Now(), n, l))
      ensures schedule == [] && r == Success ==> (PollTest(nodes[n], l) <==> old(entries[l].word) == 0)
      ensures schedule == [] && r == Success ==> AcquiredAlone(old(Now()), Now(), n, l)
      ensures r == Success ==> Now() == AfterTurns(Apply(old(Now()), Prepare(n, l)), n, schedule, turns)
    {
      ghost var start := Now();
      if n == INVALID_NODE_ID || n >= nodes.Length || l >= entries.Length {
        return InvalidParam, [], 0;
      }
      TakeStep(start, [], start, Prepare(n, l));
      run := [Prepare(n, l)];
      assert [] + run == run;
      PrepareNode(n, l);
      run, turns := TryBoth(n, l, schedule, start, run);
      HoldsOrWaits(Now(), n, l);
      if schedule == [] {
        JoinsBehindOthers(start, n, l);
      }
      return Success, run, turns;
    }

    /** The fast exchange, and if it fails the retry loop. */
    method TryBoth(n: NodeId, l: LockId, schedule: Schedule, ghost start: State, ghost run: seq<Step>)
      returns (ghost run': seq<Step>, ghost turns: nat)
      requires Inv(Now()) && n < |pc| && l < entries.Length && pc[n] == AtFast(l)
      requires Shaped(start) && IsRun(start, run, Now())
      modifies this, entries, nodes
      ensures Inv(Now()) && IsRun(start, run', Now()) && |pc| == old(|pc|) && pc[n] == Inside(l)
      ensures schedule == [] && old(entries[l].word) == 0 ==> HeldAlone(old(Now()), Now(), n, l)
      ensures schedule == [] && old(entries[l].word) != 0 ==> QueuedAlone(old(Now()), Now(), n, l)
      ensures Now() == AfterTurns(old(Now()), n, schedule, turns)
    {
      hide AfterTurn, AfterTurns, IsRun;
      var rest;
      rest, run' := Turn(n, schedule, start, run);
      var fast := TryFast(n, l);
      turns := 1;
      if !fast {
        ghost var more;
        run', more := JoinQueue(n, l, rest, start, run');
        TurnsAdd(old(Now()), n, schedule, 1, more);
        turns := 1 + more;
      }
    }
  }
}
