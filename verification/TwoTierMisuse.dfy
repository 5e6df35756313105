/** A release by a thread that does not hold the lock, which the client contract rules out and the code carries out. */
module TwoTierMisuse {
  import opened LockTypes
  import opened TwoTierProtocol
  import opened TwoTierInvariant

  /** The slot of the node is written before the mutex refuses the thread. */
  function UnheldRelease(s: State, t: ThreadId, l: LockId): State
    requires Shaped(s) && t < |s.threads| && l < Locks(s)
  {
    Return(ClearSlot(s, l, s.threads[t].home), t, NotOwner)
  }

  lemma UnheldReleaseShaped(s: State, t: ThreadId, l: LockId)
    requires Shaped(s) && t < |s.threads| && s.threads[t].pc == Ready && l < Locks(s)
    ensures Shaped(UnheldRelease(s, t, l)) && SameSize(s, UnheldRelease(s, t, l))
  {
  }

  lemma UnheldReleaseOfIdle(s: State, t: ThreadId, l: LockId)
    requires Inv(s) && t < |s.threads| && s.threads[t].pc == Ready && l < Locks(s) && SlotOf(s, t, l) == SlotIdle
    ensures Inv(UnheldRelease(s, t, l))
  {
    var u, n := UnheldRelease(s, t, l), s.threads[t].home;
    UnheldReleaseShaped(s, t, l);
    assert ThreadInv(s, t) && CellInv(s, l, n);
    NoWrite(s, l, n);
    assert s.slots[l][n := SlotIdle] == s.slots[l];
    ThreadKeepsInv(s, u, t, l);
  }

  lemma UnheldIsNotOwner(s: State, t: ThreadId, l: LockId)
    requires Inv(s) && t < |s.threads| && s.threads[t].pc == Ready && l < Locks(s) && l !in s.threads[t].held
    ensures MutexOf(s, t, l) != Some(t)
    ensures var u := ClearSlot(s, l, s.threads[t].home); Shaped(u) && SameSize(s, u) && MutexOf(u, t, l) == MutexOf(s, t, l)
  {
    assert CellInv(s, l, s.threads[t].home);
  }

  /** It never frees a mutex, and it keeps the invariant if and only if the slot of the node is idle. */
  lemma UnheldReleaseKeepsInvariant(s: State, t: ThreadId, l: LockId)
    requires Inv(s) && t < |s.threads| && s.threads[t].pc == Ready && l < Locks(s) && l !in s.threads[t].held
    ensures Shaped(UnheldRelease(s, t, l)) && SameSize(s, UnheldRelease(s, t, l)) && MutexOf(s, t, l) != Some(t)
    ensures Inv(UnheldRelease(s, t, l)) <==> SlotOf(s, t, l) == SlotIdle
  {
    var u, home := UnheldRelease(s, t, l), s.threads[t].home;
    UnheldReleaseShaped(s, t, l);
    assert CellInv(s, l, home);
    if SlotOf(s, t, l) == SlotIdle {
      UnheldReleaseOfIdle(s, t, l);
    } else {
      assert !CellInv(u, l, home);
    }
  }

  // ------------------------------------------------------------------------------------
  // Whom it harms
  // ------------------------------------------------------------------------------------

  predicate PollsFor(th: Thread, l: LockId)
  {
    th.pc.AtPoll? && th.pc.l == l
  }

  /** The thread waits for the lock or holds it, and its slot says neither. */
  predicate Robbed(s: State, o: ThreadId, l: LockId)
    requires Shaped(s) && o < |s.threads| && l < Locks(s)
  {
    SlotOf(s, o, l) == SlotIdle && (l in s.threads[o].held || PollsFor(s.threads[o], l))
  }

  lemma NobodyIsRobbed(s: State, o: ThreadId, l: LockId)
    requires Inv(s) && o < |s.threads| && l < Locks(s)
    ensures !Robbed(s, o, l)
  {
    assert ThreadInv(s, o) && CellInv(s, l, s.threads[o].home);
  }

  /**
   Such a release robs a thread if and only if that thread owns the mutex of the same node
   and polls for the lock or holds it.
   */
  lemma RobbedExactlyIfActive(s: State, t: ThreadId, l: LockId, o: ThreadId)
    requires Inv(s) && t < |s.threads| && s.threads[t].pc == Ready && l < Locks(s) && l !in s.threads[t].held
    requires o < |s.threads|
    ensures Shaped(UnheldRelease(s, t, l)) && SameSize(s, UnheldRelease(s, t, l))
    ensures Robbed(UnheldRelease(s, t, l), o, l) <==>
              MutexOf(s, t, l) == Some(o) && (l in s.threads[o].held || PollsFor(s.threads[o], l))
  {
    var u, home := UnheldRelease(s, t, l), s.threads[t].home;
    UnheldReleaseShaped(s, t, l);
    NobodyIsRobbed(s, o, l);
    assert CellInv(s, l, home) && ThreadInv(s, o);
    if o != t {
      assert u.threads[o] == s.threads[o];
      if s.threads[o].home != home { assert SlotOf(u, o, l) == SlotOf(s, o, l); }
    }
  }

  /**
   A mutex owner that is giving the lock up is not harmed: after its next access nothing
   differs.
   */
  lemma GivingUpIsNotHarmed(s: State, t: ThreadId, l: LockId, o: ThreadId, giveUp: bool)
    requires Inv(s) && t < |s.threads| && s.threads[t].pc == Ready && l < Locks(s) && MutexOf(s, t, l) == Some(o)
    requires o < |s.threads| && (s.threads[o].pc.AtCancel? || s.threads[o].pc.AtRelease?) && s.threads[o].pc.l == l
    ensures Shaped(UnheldRelease(s, t, l)) && Enabled(UnheldRelease(s, t, l), Run(o, giveUp))
    ensures RunThread(UnheldRelease(s, t, l), o, giveUp) == Return(RunThread(s, o, giveUp), t, NotOwner)
  {
    UnheldReleaseShaped(s, t, l);
    var home, u := s.threads[t].home, UnheldRelease(s, t, l);
    assert CellInv(s, l, home) && s.threads[o].home == home && o != t;
    var a, b := RunThread(u, o, giveUp), Return(RunThread(s, o, giveUp), t, NotOwner);
    assert s.slots[l][home := SlotIdle][home := SlotIdle] == s.slots[l][home := SlotIdle];
    assert a.slots == b.slots;
    assert a.threads == b.threads;
  }

  /** A slot that is not idle belongs to the mutex owner, which polls, holds or is giving up. */
  lemma OwnerIsActiveOrGivingUp(s: State, t: ThreadId, l: LockId)
    requires Inv(s) && t < |s.threads| && l < Locks(s) && SlotOf(s, t, l) != SlotIdle
    ensures MutexOf(s, t, l).Some?
    ensures var o := MutexOf(s, t, l).value;
            && o < |s.threads|
            && (|| l in s.threads[o].held || PollsFor(s.threads[o], l)
                || ((s.threads[o].pc.AtCancel? || s.threads[o].pc.AtRelease?) && s.threads[o].pc.l == l))
  {
    assert CellInv(s, l, s.threads[t].home);
  }

  // ------------------------------------------------------------------------------------
  // What a robbed thread has lost
  // ------------------------------------------------------------------------------------

  /** If the thread holds the lock, the manager sees a free lock. */
  lemma RobbedOfTheLock(s: State, t: ThreadId, l: LockId, o: ThreadId)
    requires Inv(s) && t < |s.threads| && s.threads[t].pc == Ready && l < Locks(s)
    requires MutexOf(s, t, l) == Some(o) && o < |s.threads| && l in s.threads[o].held
    ensures Shaped(UnheldRelease(s, t, l)) && NoneLocked(UnheldRelease(s, t, l), l, Nodes(s))
  {
    var u, home := UnheldRelease(s, t, l), s.threads[t].home;
    UnheldReleaseShaped(s, t, l);
    assert CellInv(s, l, home) && IsLocked(s, l, home) && OneLocked(s, l);
    assert forall n :: 0 <= n < Nodes(s) && n != home ==> IsLocked(u, l, n) == IsLocked(s, l, n);
  }

  /** The thread polls a slot that nobody will set: it owns the mutex, and nobody of its node is about to ask. */
  ghost predicate Lost(s: State, o: ThreadId, l: LockId)
    requires Shaped(s)
  {
    && o < |s.threads| && l < Locks(s) && PollsFor(s.threads[o], l) && SlotOf(s, o, l) == SlotIdle
    && MutexOf(s, o, l) == Some(o)
    && forall x :: 0 <= x < |s.threads| && s.threads[x].home == s.threads[o].home ==>
         !(s.threads[x].pc.AtRequest? && s.threads[x].pc.l == l)
  }

  lemma RobbedOfTheRequest(s: State, t: ThreadId, l: LockId, o: ThreadId)
    requires Inv(s) && t < |s.threads| && s.threads[t].pc == Ready && l < Locks(s)
    requires MutexOf(s, t, l) == Some(o) && o < |s.threads| && PollsFor(s.threads[o], l)
    ensures Shaped(UnheldRelease(s, t, l)) && Lost(UnheldRelease(s, t, l), o, l)
  {
    var u, home := UnheldRelease(s, t, l), s.threads[t].home;
    UnheldReleaseShaped(s, t, l);
    assert CellInv(s, l, home);
    forall x | 0 <= x < |u.threads| && u.threads[x].home == u.threads[o].home
      ensures !(u.threads[x].pc.AtRequest? && u.threads[x].pc.l == l)
    {
      assert ThreadInv(s, x);
    }
  }

  /** An access of another thread leaves the slot and the mutex of a lost request. */
  lemma OthersKeepCell(s: State, x: ThreadId, giveUp: bool, o: ThreadId, l: LockId)
    requires Shaped(s) && Lost(s, o, l) && Enabled(s, Run(x, giveUp)) && x != o
    ensures var u := RunThread(s, x, giveUp);
            && Shaped(u) && SameSize(s, u) && u.threads[o] == s.threads[o]
            && SlotOf(u, o, l) == SlotIdle && MutexOf(u, o, l) == Some(o)
  {
    RunShaped(s, x, giveUp);
    if s.threads[x].pc.AtMutex? {
    } else if s.threads[x].pc.AtUnlock? {
    } else if s.threads[x].pc.AtPoll? {
    }
  }

  /** An access of a thread changes that thread only, and a thread comes to ask by taking the mutex. */
  lemma RunMovesOne(s: State, x: ThreadId, giveUp: bool)
    requires Shaped(s) && Enabled(s, Run(x, giveUp))
    ensures var u := RunThread(s, x, giveUp);
            && |u.threads| == |s.threads| && u.threads == s.threads[x := u.threads[x]]
            && u.threads[x].home == s.threads[x].home
  {
  }

  lemma AsksWithTheMutex(s: State, x: ThreadId, giveUp: bool, l: LockId)
    requires Shaped(s) && Enabled(s, Run(x, giveUp)) && |RunThread(s, x, giveUp).threads| == |s.threads| && l < Locks(s)
    requires var p := RunThread(s, x, giveUp).threads[x].pc; p.AtRequest? && p.l == l
    ensures MutexOf(s, x, l) == None
  {
    assert s.threads[x].pc.AtMutex?;
  }

  /** Nobody of its node can be about to ask, because the mutex is taken. */
  lemma OthersDoNotAsk(s: State, x: ThreadId, giveUp: bool, o: ThreadId, l: LockId)
    requires Shaped(s) && Lost(s, o, l) && Enabled(s, Run(x, giveUp)) && x != o
    ensures var u := RunThread(s, x, giveUp);
            && |u.threads| == |s.threads| && u.threads == s.threads[x := u.threads[x]]
            && u.threads[x].home == s.threads[x].home
            && (s.threads[x].home == s.threads[o].home ==> !(u.threads[x].pc.AtRequest? && u.threads[x].pc.l == l))
  {
    RunMovesOne(s, x, giveUp);
    var p := RunThread(s, x, giveUp).threads[x].pc;
    if p.AtRequest? && p.l == l {
      AsksWithTheMutex(s, x, giveUp, l);
    }
  }

  lemma ThreadsKeepLost(s: State, x: ThreadId, giveUp: bool, o: ThreadId, l: LockId)
    requires Shaped(s) && Lost(s, o, l) && Enabled(s, Run(x, giveUp)) && x != o
    ensures Shaped(RunThread(s, x, giveUp)) && Lost(RunThread(s, x, giveUp), o, l)
  {
    OthersKeepCell(s, x, giveUp, o, l);
    OthersDoNotAsk(s, x, giveUp, o, l);
  }

  lemma OwnPollKeepsLost(s: State, giveUp: bool, o: ThreadId, l: LockId)
    requires Shaped(s) && Lost(s, o, l)
    ensures var u := RunThread(s, o, giveUp);
            Shaped(u) && o < |u.threads| && (Lost(u, o, l) || (u.threads[o].pc.AtCancel? && u.threads[o].pc.l == l))
  {
    RunShaped(s, o, giveUp);
  }

  /** A lost request is never granted: the only step that ends the poll is the thread's own giving up. */
  lemma LostUntilGivenUp(s: State, st: Step, o: ThreadId, l: LockId)
    requires Shaped(s) && Lost(s, o, l) && Enabled(s, st)
    ensures var u := Apply(s, st);
            Shaped(u) && SameSize(s, u) &&
            (Lost(u, o, l) || (st.Run? && st.t == o && u.threads[o].pc.AtCancel? && u.threads[o].pc.l == l))
  {
    ApplyShaped(s, st);
    if st.Run? {
      if st.t == o {
        OwnPollKeepsLost(s, st.giveUp, o, l);
      } else {
        ThreadsKeepLost(s, st.t, st.giveUp, o, l);
      }
    }
  }
}
