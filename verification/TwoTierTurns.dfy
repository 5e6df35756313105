/**
 Calls of the two-tier lock and scans of the manager in the company of others.  A schedule
 lists the steps of the other participants before each access; a call is a number of turns.
 */
module TwoTierTurns {
  import opened LockTypes
  import opened TwoTierProtocol
  import opened TwoTierInvariant
  import opened TwoTierScan
  import opened TwoTierTheorems

  /** The step belongs to thread `me`, or to the manager if `me` is none. */
  predicate By(st: Step, me: Option<ThreadId>)
  {
    match st
    case Call(t, _, _, _) => me == Some(t)
    case Run(t, _) => me == Some(t)
    case BeginRelease(t, _) => me == Some(t)
    case BeginScan => me == None
    case Manage => me == None
    case ResetStats => me == None
  }

  type Schedule = seq<seq<Step>>

  /** What the steps `steps` of the others lead to; a step is skipped if it is `me`'s or not possible. */
  function AfterOthers(s: State, me: Option<ThreadId>, steps: seq<Step>): State
    decreases steps
  {
    if steps == [] then s
    else if Shaped(s) && Enabled(s, steps[0]) && !By(steps[0], me) then AfterOthers(Apply(s, steps[0]), me, steps[1..])
    else AfterOthers(s, me, steps[1..])
  }

  /** Whatever the others can do, some schedule lets them do. */
  lemma {:induction false} OthersAreFree(s: State, run: seq<Step>, u: State, me: Option<ThreadId>)
    requires Shaped(s) && IsRun(s, run, u) && forall i :: 0 <= i < |run| ==> !By(run[i], me)
    ensures AfterOthers(s, me, run) == u
    decreases run
  {
    if run != [] {
      ApplyShaped(s, run[0]);
      OthersAreFree(Apply(s, run[0]), run[1..], u, me);
    }
  }

  lemma {:induction false} AfterOneMore(s: State, me: Option<ThreadId>, steps: seq<Step>, st: Step)
    ensures AfterOthers(s, me, steps + [st])
            == var u := AfterOthers(s, me, steps);
               if Shaped(u) && Enabled(u, st) && !By(st, me) then Apply(u, st) else u
    decreases steps
  {
    if steps == [] {
      assert [] + [st] == [st] && [st][1..] == [];
    } else {
      assert (steps + [st])[0] == steps[0] && (steps + [st])[1..] == steps[1..] + [st];
      if Shaped(s) && Enabled(s, steps[0]) && !By(steps[0], me) {
        AfterOneMore(Apply(s, steps[0]), me, steps[1..], st);
      } else {
        AfterOneMore(s, me, steps[1..], st);
      }
    }
  }

  function Head(schedule: Schedule): seq<Step>
  {
    if schedule == [] then [] else schedule[0]
  }

  function Drop(schedule: Schedule, k: nat): Schedule
  {
    if k <= |schedule| then schedule[k..] else []
  }

  /** A poll with a positive timeout gives up when the clock has reached it, after `patience` turns. */
  predicate GivesUp(p: Pc, patience: nat)
  {
    p.AtPoll? && p.timed && p.spins == patience
  }

  /** The next access of `me` within a call. */
  function Own(s: State, me: Option<ThreadId>, patience: nat): Step
  {
    if me.None? then Manage
    else Run(me.value, me.value < |s.threads| && GivesUp(s.threads[me.value].pc, patience))
  }

  /** One turn of `me`: the others run, and then it makes its access, unless it has to wait for the mutex. */
  function AfterTurn(s: State, me: Option<ThreadId>, patience: nat, schedule: Schedule): State
  {
    var u := AfterOthers(s, me, Head(schedule));
    if Shaped(u) && Enabled(u, Own(u, me, patience)) then Apply(u, Own(u, me, patience)) else u
  }

  function AfterTurns(s: State, me: Option<ThreadId>, patience: nat, schedule: Schedule, k: nat): State
    decreases k
  {
    if k == 0 then s else AfterTurns(AfterTurn(s, me, patience, schedule), me, patience, Drop(schedule, 1), k - 1)
  }

  lemma NoTurns(s: State, me: Option<ThreadId>, patience: nat, schedule: Schedule)
    ensures AfterTurns(s, me, patience, schedule, 0) == s && Drop(schedule, 0) == schedule
  {
  }

  /** A turn of a thread or the manager that can make its access, or has to wait. */
  lemma OneTurn(s: State, me: Option<ThreadId>, patience: nat, schedule: Schedule, u: State)
    requires u == AfterOthers(s, me, Head(schedule)) && Shaped(u)
    ensures AfterTurns(s, me, patience, schedule, 1)
            == if Enabled(u, Own(u, me, patience)) then Apply(u, Own(u, me, patience)) else u
  {
  }

  lemma DropsAdd(schedule: Schedule, i: nat, j: nat)
    ensures Drop(schedule, i + j) == Drop(Drop(schedule, i), j)
  {
  }

  lemma {:induction false} TurnsAdd(s: State, me: Option<ThreadId>, patience: nat, schedule: Schedule, i: nat, j: nat)
    ensures AfterTurns(s, me, patience, schedule, i + j)
            == AfterTurns(AfterTurns(s, me, patience, schedule, i), me, patience, Drop(schedule, i), j)
    ensures Drop(schedule, i + j) == Drop(Drop(schedule, i), j)
    decreases i
  {
    hide AfterTurn;
    DropsAdd(schedule, i, j);
    if i == 0 {
      assert Drop(schedule, 0) == schedule;
    } else {
      var u, rest := AfterTurn(s, me, patience, schedule), Drop(schedule, 1);
      TurnsAdd(u, me, patience, rest, i - 1, j);
      DropsAdd(schedule, 1, i - 1);
      assert AfterTurns(s, me, patience, schedule, i) == AfterTurns(u, me, patience, rest, i - 1);
    }
  }

  lemma InvIsShaped(s: State)
    requires Inv(s)
    ensures Shaped(s)
  {
  }

  /** One more step at the end of a run. */
  lemma Take(s: State, run: seq<Step>, u: State, st: Step)
    requires Shaped(s) && IsRun(s, run, u) && Inv(u) && Enabled(u, st)
    ensures Inv(Apply(u, st)) && IsRun(s, run + [st], Apply(u, st))
  {
    StepInv(u, st);
    Append(s, run, u, st);
  }

  /** Only the thread itself becomes the owner of a mutex. */
  lemma OthersTakeNoMutexForMe(s: State, st: Step, t: ThreadId, l: LockId)
    requires Shaped(s) && Enabled(s, st) && !By(st, Some(t)) && t < |s.threads| && l < Locks(s)
    requires MutexOf(s, t, l) != Some(t)
    ensures Shaped(Apply(s, st)) && SameSize(s, Apply(s, st)) && Apply(s, st).threads[t] == s.threads[t]
    ensures MutexOf(Apply(s, st), t, l) != Some(t)
  {
    ApplyShaped(s, st);
    OthersKeepMe(s, st, Some(t));
  }

  /** A step of somebody else leaves `me` alone; a step of a node locks no slot. */
  lemma OthersKeepMe(s: State, st: Step, me: Option<ThreadId>)
    requires Shaped(s) && Enabled(s, st) && !By(st, me) && (me.Some? ==> me.value < |s.threads|)
    ensures Shaped(Apply(s, st)) && SameSize(s, Apply(s, st))
    ensures me.Some? ==> Apply(s, st).threads[me.value] == s.threads[me.value]
    ensures me.None? ==> Apply(s, st).mgr == s.mgr && Apply(s, st).stats == s.stats && Apply(s, st).anyWork == s.anyWork
  {
    ApplyShaped(s, st);
  }

  /** How many accesses thread `t` makes in a run. */
  ghost function Accesses(run: seq<Step>, t: ThreadId): nat
  {
    multiset(run)[Run(t, false)] + multiset(run)[Run(t, true)]
  }

  /** How many accesses of `me` a run has, or how many scans of the manager. */
  ghost function OwnSteps(run: seq<Step>, me: Option<ThreadId>): nat
  {
    if me.Some? then Accesses(run, me.value) else Begun(run)
  }

  lemma OthersDoNotCount(run: seq<Step>, st: Step, me: Option<ThreadId>)
    requires !By(st, me)
    ensures OwnSteps(run + [st], me) == OwnSteps(run, me)
  {
  }
}
