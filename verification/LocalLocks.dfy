/**
 The lower tier: the array of error-checking mutexes of one node.  A mutex knows the
 thread that owns it; the owner itself gets an error instead of waiting for ever, and only
 the owner can unlock.
 */
module LocalLocks {
  import opened LockTypes
  import opened TwoTierProtocol

  type Owners = seq<Option<ThreadId>>

  datatype Call = Acquire(t: ThreadId, l: LockId) | TryAcquire(t: ThreadId, l: LockId) | Release(t: ThreadId, l: LockId)

  /** What a call returns; a blocking call on another thread's mutex returns nothing yet. */
  function Result(owners: Owners, c: Call): Option<LockResult>
  {
    if c.l >= |owners| then Some(InvalidParam)
    else
      match c
      case Acquire(t, l) =>
        if owners[l] == None then Some(Success) else if owners[l] == Some(t) then Some(Unknown) else None
      case TryAcquire(t, l) => if owners[l] == None then Some(Success) else Some(Busy)
      case Release(t, l) => if owners[l] == Some(t) then Some(Success) else Some(NotOwner)
  }

  function After(owners: Owners, c: Call): (r: Owners)
    ensures |r| == |owners|
  {
    if Result(owners, c) != Some(Success) then owners
    else owners[c.l := if c.Release? then None else Some(c.t)]
  }

  function AfterAll(owners: Owners, calls: seq<Call>): Owners
    decreases calls
  {
    if calls == [] then owners else AfterAll(After(owners, calls[0]), calls[1..])
  }

  /** The threads that successfully locked (unlocked) mutex `l`, in order. */
  function Lockers(owners: Owners, calls: seq<Call>, l: LockId): seq<ThreadId>
    decreases calls
  {
    if calls == [] then []
    else
      (if Result(owners, calls[0]) == Some(Success) && !calls[0].Release? && calls[0].l == l then [calls[0].t] else [])
      + Lockers(After(owners, calls[0]), calls[1..], l)
  }

  function Unlockers(owners: Owners, calls: seq<Call>, l: LockId): seq<ThreadId>
    decreases calls
  {
    if calls == [] then []
    else
      (if Result(owners, calls[0]) == Some(Success) && calls[0].Release? && calls[0].l == l then [calls[0].t] else [])
      + Unlockers(After(owners, calls[0]), calls[1..], l)
  }

  function OwnerOf(owners: Owners, l: LockId): seq<ThreadId>
    requires l < |owners|
  {
    if owners[l].Some? then [owners[l].value] else []
  }

  /**
   Over any calls of any threads, the owner at the start followed by the lockers is the
   unlockers followed by the owner at the end: each locking is undone by the same thread
   before the next one.
   */
  lemma {:induction false} LockersUnlockInTurn(owners: Owners, calls: seq<Call>, l: LockId)
    requires l < |owners|
    ensures |AfterAll(owners, calls)| == |owners|
    ensures OwnerOf(owners, l) + Lockers(owners, calls, l) == Unlockers(owners, calls, l) + OwnerOf(AfterAll(owners, calls), l)
    decreases calls
  {
    if calls != [] {
      var c, next := calls[0], After(owners, calls[0]);
      LockersUnlockInTurn(next, calls[1..], l);
      var a, b, z := Lockers(next, calls[1..], l), Unlockers(next, calls[1..], l), OwnerOf(AfterAll(owners, calls), l);
      if c.l == l && Result(owners, c) == Some(Success) {
        if c.Release? {
          assert OwnerOf(owners, l) + a == [c.t] + (OwnerOf(next, l) + a);
          assert Unlockers(owners, calls, l) + z == [c.t] + (b + z);
        } else {
          assert OwnerOf(owners, l) + ([c.t] + a) == OwnerOf(next, l) + a;
        }
      } else {
        assert Lockers(owners, calls, l) == a && Unlockers(owners, calls, l) == b;
      }
    }
  }

  /** The threads by which the mutex has been locked and not unlocked: the last locker, or nobody. */
  lemma LastLockerOwns(owners: Owners, calls: seq<Call>, l: LockId)
    requires l < |owners| && owners[l] == None
    ensures var lockers, unlockers, now := Lockers(owners, calls, l), Unlockers(owners, calls, l), AfterAll(owners, calls);
            && l < |now|
            && (now[l] == None <==> lockers == unlockers)
            && (forall t :: now[l] == Some(t) <==> lockers == unlockers + [t])
            && (forall t :: Result(now, Release(t, l)) == Some(Success) <==> lockers == unlockers + [t])
            && (forall t :: Result(now, TryAcquire(t, l)) == Some(Success) <==> lockers == unlockers)
  {
    LockersUnlockInTurn(owners, calls, l);
    var lockers, unlockers, now := Lockers(owners, calls, l), Unlockers(owners, calls, l), AfterAll(owners, calls);
    assert OwnerOf(owners, l) + lockers == lockers && unlockers + [] == unlockers;
    forall t | lockers == unlockers + [t] ensures now[l] == Some(t) {
      assert lockers == unlockers + OwnerOf(now, l);
      assert lockers[|unlockers|] == t;
    }
  }

  /** The mutex access of a thread in the two-tier protocol is a call of the array of its node. */
  lemma ProtocolUsesTheArray(s: State, t: ThreadId)
    requires Shaped(s) && t < |s.threads| && s.threads[t].pc.AtMutex?
    ensures Shaped(RunMutex(s, t)) && SameSize(s, RunMutex(s, t))
    ensures var th := s.threads[t];
            var c := if th.pc.blocking then Acquire(t, th.pc.l) else TryAcquire(t, th.pc.l);
            var owners, u := s.mutexes[th.home], RunMutex(s, t);
            && (Enabled(s, Run(t, false)) <==> Result(owners, c) != None)
            && (Enabled(s, Run(t, false)) ==>
                  && u.mutexes == s.mutexes[th.home := After(owners, c)]
                  && (Result(owners, c) == Some(Success) <==> u.threads[t].pc == AtRequest(th.pc.l, th.pc.timed))
                  && (Result(owners, c) != Some(Success) ==>
                      u.threads[t].pc == Ready && Result(owners, c) == Some(u.threads[t].result)))
  {
    RunMutexShaped(s, t);
    var th := s.threads[t];
    assert s.mutexes == s.mutexes[th.home := s.mutexes[th.home]];
  }

  class LocalLockArray {
    var mutexes: array<Option<ThreadId>>
    var lockCount: nat
    var initialized: bool

    predicate Valid()
      reads this
    {
      if initialized then lockCount == mutexes.Length else lockCount == 0
    }

    /** The owners; an array that is not initialised has no mutex. */
    function Contents(): Owners
      reads this, mutexes
    {
      if initialized then mutexes[..] else []
    }

    constructor ()
      ensures Valid() && !initialized && Contents() == []
    {
      mutexes := new Option<ThreadId>[0];
      lockCount, initialized := 0, false;
    }

    /** `initialize`; there may be no memory for the array, or only the first `mutexLimit` mutexes can be made. */
    method Initialize(count: nat, hasMemory: bool, mutexLimit: nat) returns (r: LockResult)
      requires Valid()
      modifies this
      ensures Valid()
      ensures r == if count == 0 || count > MAX_LOCK_COUNT then InvalidParam
                   else if old(initialized) then Unknown
                   else if !hasMemory then ShmFailure
                   else if mutexLimit < count then Unknown
                   else Success
      ensures if r == Success then initialized && fresh(mutexes) && Contents() == seq(count, _ => None)
              else initialized == old(initialized) && lockCount == old(lockCount) && Contents() == old(Contents())
    {
      if count == 0 || count > MAX_LOCK_COUNT {
        return InvalidParam;
      }
      if initialized {
        return Unknown;
      }
      if !hasMemory {
        return ShmFailure;
      }
      mutexes := new Option<ThreadId>[count];
      for i := 0 to count
        invariant fresh(mutexes) && mutexes.Length == count && Valid() && !initialized
        invariant i <= mutexLimit && forall k :: 0 <= k < i ==> mutexes[k] == None
      {
        if i == mutexLimit {
          mutexes := new Option<ThreadId>[0];
          return Unknown;
        }
        mutexes[i] := None;
      }
      lockCount, initialized := count, true;
      assert mutexes[..] == seq(count, _ => None);
      return Success;
    }

    method Destroy()
      requires Valid()
      modifies this
      ensures Valid() && !initialized && Contents() == []
    {
      if !initialized {
        return;
      }
      lockCount, initialized := 0, false;
    }

    /** `acquire`; none is returned where the thread would wait. */
    method Lock(t: ThreadId, l: LockId) returns (r: Option<LockResult>)
      requires Valid()
      modifies mutexes
      ensures Valid() && r == Result(old(Contents()), Acquire(t, l))
      ensures Contents() == After(old(Contents()), Acquire(t, l))
      ensures var o := old(Contents());
              if l < |o| && o[l] == None then r == Some(Success) && Contents() == o[l := Some(t)]
              else Contents() == o && r == if l >= |o| then Some(InvalidParam)
                else if o[l] == Some(t) then Some(Unknown) else None
    {
      if !initialized || l >= lockCount {
        return Some(InvalidParam);
      }
      if mutexes[l] == None {
        mutexes[l] := Some(t);
        assert mutexes[..] == old(mutexes[..])[l := Some(t)];
        return Some(Success);
      }
      return if mutexes[l] == Some(t) then Some(Unknown) else None;
    }

    method TryLock(t: ThreadId, l: LockId) returns (r: LockResult)
      requires Valid()
      modifies mutexes
      ensures Valid() && Some(r) == Result(old(Contents()), TryAcquire(t, l))
      ensures Contents() == After(old(Contents()), TryAcquire(t, l))
      ensures var o := old(Contents());
              if l < |o| && o[l] == None then r == Success && Contents() == o[l := Some(t)]
              else Contents() == o && r == if l >= |o| then InvalidParam else Busy
    {
      if !initialized || l >= lockCount {
        return InvalidParam;
      }
      if mutexes[l] != None {
        return Busy;
      }
      mutexes[l] := Some(t);
      assert mutexes[..] == old(mutexes[..])[l := Some(t)];
      return Success;
    }

    method Unlock(t: ThreadId, l: LockId) returns (r: LockResult)
      requires Valid()
      modifies mutexes
      ensures Valid() && Some(r) == Result(old(Contents()), Release(t, l))
      ensures Contents() == After(old(Contents()), Release(t, l))
      ensures var o := old(Contents());
              if l < |o| && o[l] == Some(t) then r == Success && Contents() == o[l := None]
              else Contents() == o && r == if l >= |o| then InvalidParam else NotOwner
    {
      if !initialized || l >= lockCount {
        return InvalidParam;
      }
      if mutexes[l] != Some(t) {
        return NotOwner;
      }
      mutexes[l] := None;
      assert mutexes[..] == old(mutexes[..])[l := None];
      return Success;
    }
  }
}
