/**
 Calls of the queued spinlock in the company of others.  A schedule lists the steps of the
 other participants before each step of a call; a call is a number of turns.
 */
module QspinTurns {
  import opened LockTypes
  import opened QspinProtocol

  /** The step belongs to node `me`. */
  predicate By(st: Step, me: NodeId)
  {
    !st.Serve? && st.n == me
  }

  type Schedule = seq<seq<Step>>

  /** What the steps `steps` of the others lead to; a step is skipped if it is `me`'s or not possible. */
  function AfterOthers(s: State, me: NodeId, steps: seq<Step>): State
    decreases steps
  {
    if steps == [] then s
    else if Shaped(s) && Enabled(s, steps[0]) && !By(steps[0], me) then AfterOthers(Apply(s, steps[0]), me, steps[1..])
    else AfterOthers(s, me, steps[1..])
  }

  /** Whatever the others can do, some schedule lets them do. */
  lemma {:induction false} OthersAreFree(s: State, run: seq<Step>, t: State, me: NodeId)
    requires Shaped(s) && IsRun(s, run, t) && forall i :: 0 <= i < |run| ==> !By(run[i], me)
    ensures AfterOthers(s, me, run) == t
    decreases run
  {
    if run != [] {
      ApplyShaped(s, run[0]);
      OthersAreFree(Apply(s, run[0]), run[1..], t, me);
    }
  }

  lemma {:induction false} AfterOneMore(s: State, me: NodeId, steps: seq<Step>, st: Step)
    ensures AfterOthers(s, me, steps + [st])
            == var t := AfterOthers(s, me, steps);
               if Shaped(t) && Enabled(t, st) && !By(st, me) then Apply(t, st) else t
    decreases steps
  {
    if steps == [] {
      assert [] + [st] == [st] && [st][1..] == [];
    } else {
      assert (steps + [st])[0] == steps[0] && (steps + [st])[1..] == steps[1..] + [st];
      if Shaped(s) && Enabled(s, steps[0]) && !By(steps[0], me) {
        AfterOneMore(Apply(s, steps[0]), me, steps[1..], st);
      } else {
        AfterOneMore(s, me, steps[1..], st);
      }
    }
  }

  function Head(schedule: Schedule): seq<Step>
  {
    if schedule == [] then [] else schedule[0]
  }

  function Drop(schedule: Schedule, k: nat): Schedule
  {
    if k <= |schedule| then schedule[k..] else []
  }

  /** One turn of `n`: the others run, and then it makes its next step. */
  function AfterTurn(s: State, n: NodeId, schedule: Schedule): State
  {
    var t := AfterOthers(s, n, Head(schedule));
    if Shaped(t) && Enabled(t, Proceed(n)) then NodeAccess(t, n) else t
  }

  function AfterTurns(s: State, n: NodeId, schedule: Schedule, k: nat): State
    decreases k
  {
    if k == 0 then s else AfterTurns(AfterTurn(s, n, schedule), n, Drop(schedule, 1), k - 1)
  }

  lemma NoTurns(s: State, n: NodeId, schedule: Schedule)
    ensures AfterTurns(s, n, schedule, 0) == s && Drop(schedule, 0) == schedule
  {
  }

  lemma DropsAdd(schedule: Schedule, i: nat, j: nat)
    ensures Drop(schedule, i + j) == Drop(Drop(schedule, i), j)
  {
  }

  lemma {:induction false} TurnsAdd(s: State, n: NodeId, schedule: Schedule, i: nat, j: nat)
    ensures AfterTurns(s, n, schedule, i + j) == AfterTurns(AfterTurns(s, n, schedule, i), n, Drop(schedule, i), j)
    ensures Drop(schedule, i + j) == Drop(Drop(schedule, i), j)
    decreases i
  {
    hide AfterTurn;
    DropsAdd(schedule, i, j);
    if i == 0 {
      assert Drop(schedule, 0) == schedule;
    } else {
      var t, rest := AfterTurn(s, n, schedule), Drop(schedule, 1);
      TurnsAdd(t, n, rest, i - 1, j);
      DropsAdd(schedule, 1, i - 1);
      assert AfterTurns(s, n, schedule, i) == AfterTurns(t, n, rest, i - 1);
    }
  }
}
