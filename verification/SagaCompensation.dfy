/** Compensation undoes exactly the completed compensable steps, in reverse. */
module SagaCompensation {
  import opened Common
  import opened WorkflowStates
  import opened Saga
  import opened SagaCorrectness

  /** The list holds the completed compensable steps and no others, in descending order. */
  lemma {:induction false} ToCompensateIs(steps: seq<StepRecord>, n: nat)
    requires n <= |steps|
    ensures var ids := ToCompensate(steps, n);
      && (forall i: nat :: i in ids <==> i < n && Compensable(steps[i]))
      && (forall k, l :: 0 <= k < l < |ids| ==> ids[k] > ids[l])
      && Distinct(ids)
  {
    if n > 0 {
      ToCompensateIs(steps, n - 1);
      var rest := ToCompensate(steps, n - 1);
      assert forall k :: 0 <= k < |rest| ==> rest[k] in rest;
      assert forall i: nat :: i in [n - 1] + rest <==> i == n - 1 || i in rest;
    }
  }

  /** The steps compensated so far are done, the next one failed unless there is none, and every
      other step is as it was. */
  ghost predicate CompensatedTo(w: Workflow, t: Workflow, ids: seq<nat>, c: nat)
    requires c <= |ids| && InBounds(ids, |w.steps|)
  {
    && |t.steps| == |w.steps| && t.state == w.state && SameFlags(w, t)
    && (forall k :: 0 <= k < c ==>
          t.steps[ids[k]] == w.steps[ids[k]].(state := StepCompensated, isCompensated := true))
    && (c < |ids| ==> t.steps[ids[c]] == w.steps[ids[c]].(state := StepFailed))
    && (forall i :: 0 <= i < |w.steps| && i !in ids[..Upto(c, |ids|)] ==> t.steps[i] == w.steps[i])
    && Compensations(t.log) == Compensations(w.log) + ids[..Upto(c, |ids|)]
    && Successes(t.log) == Successes(w.log)
  }

  /** Compensations tried when the first c succeeded. */
  function Upto(c: nat, n: nat): (u: nat)
    requires c <= n
    ensures u <= n
  {
    if c < n then c + 1 else n
  }

  lemma CompensateOne(w: Workflow, i: nat, env: Compensator)
    requires i < |w.steps| && w.steps[i].state == StepCompleted
    ensures var (t, ok) := CompensateStep(w, i, env);
      && ok == env(i) && t.state == w.state && |t.steps| == |w.steps| && SameFlags(w, t)
      && t.steps == w.steps[i := if ok then w.steps[i].(state := StepCompensated, isCompensated := true)
                                 else w.steps[i].(state := StepFailed)]
      && Compensations(t.log) == Compensations(w.log) + [i]
      && Successes(t.log) == Successes(w.log)
  {
    hide Successes, Compensations;
    var l1 := StepWrite(i, StepCompleted, StepCompensating);
    var l2 := Event.Compensate(i, env(i));
    var l3 := StepWrite(i, StepCompensating, if env(i) then StepCompensated else StepFailed);
    ReadAppended(w.log, l1);
    ReadAppended(w.log + [l1], l2);
    ReadAppended(w.log + [l1] + [l2], l3);
  }

  lemma {:induction false} CompensationRuns(w: Workflow, ids: seq<nat>, env: Compensator) returns (c: nat)
    requires InBounds(ids, |w.steps|) && Distinct(ids)
    requires forall k :: 0 <= k < |ids| ==> w.steps[ids[k]].state == StepCompleted
    ensures c <= |ids|
    ensures CompensateSteps(w, ids, env).1 <==> c == |ids|
    ensures forall k :: 0 <= k < c ==> env(ids[k])
    ensures c < |ids| ==> !env(ids[c])
    ensures CompensatedTo(w, CompensateSteps(w, ids, env).0, ids, c)
    decreases |ids|
  {
    hide Successes, Compensations, CompensateStep, CompensatedTo, Upto;
    if ids == [] {
      c := 0;
      NothingToDo(w);
    } else {
      var (m, ok) := CompensateStep(w, ids[0], env);
      CompensateOne(w, ids[0], env);
      if ok {
        var rest := CompensationRuns(m, ids[1..], env);
        c := rest + 1;
        ThenOthers(w, m, CompensateSteps(m, ids[1..], env).0, ids, rest);
      } else {
        c := 0;
        FirstFails(w, m, ids);
      }
    }
  }

  lemma NothingToDo(w: Workflow)
    ensures CompensatedTo(w, w, [], 0)
  {
    hide Successes, Compensations;
  }

  lemma FirstFails(w: Workflow, m: Workflow, ids: seq<nat>)
    requires ids != [] && InBounds(ids, |w.steps|)
    requires |m.steps| == |w.steps| && m.state == w.state && SameFlags(w, m)
    requires m.steps == w.steps[ids[0] := w.steps[ids[0]].(state := StepFailed)]
    requires Compensations(m.log) == Compensations(w.log) + [ids[0]] && Successes(m.log) == Successes(w.log)
    ensures CompensatedTo(w, m, ids, 0)
  {
    hide Successes, Compensations;
    assert ids[..1] == [ids[0]];
  }

  lemma TailOf(ids: seq<nat>, rest: nat)
    requires ids != [] && Distinct(ids) && rest <= |ids| - 1
    ensures var tail := ids[1..];
      && ids[0] !in tail
      && ids[..Upto(rest + 1, |ids|)] == [ids[0]] + tail[..Upto(rest, |tail|)]
      && (forall i :: i in ids[..Upto(rest + 1, |ids|)] <==> i == ids[0] || i in tail[..Upto(rest, |tail|)])
  {
    var tail := ids[1..];
    assert forall k :: 0 <= k < |tail| ==> tail[k] == ids[k + 1];
    assert ids[..Upto(rest + 1, |ids|)] == [ids[0]] + tail[..Upto(rest, |tail|)];
  }

  lemma ThenOthers(w: Workflow, m: Workflow, t: Workflow, ids: seq<nat>, rest: nat)
    requires ids != [] && InBounds(ids, |w.steps|) && Distinct(ids) && rest <= |ids| - 1
    requires |m.steps| == |w.steps| && m.state == w.state && SameFlags(w, m)
    requires m.steps == w.steps[ids[0] := w.steps[ids[0]].(state := StepCompensated, isCompensated := true)]
    requires Compensations(m.log) == Compensations(w.log) + [ids[0]] && Successes(m.log) == Successes(w.log)
    requires CompensatedTo(m, t, ids[1..], rest)
    ensures CompensatedTo(w, t, ids, rest + 1)
  {
    hide Successes, Compensations, Upto, Distinct;
    var tail := ids[1..];
    TailOf(ids, rest);
    forall k | 0 <= k < |tail|
      ensures tail[k] == ids[k + 1] && ids[k + 1] != ids[0]
    {
      assert tail[k] in tail;
    }
    forall k | 0 <= k < rest + 1
      ensures t.steps[ids[k]] == w.steps[ids[k]].(state := StepCompensated, isCompensated := true)
    {
      if k > 0 {
        assert tail[k - 1] == ids[k];
      } else {
        assert ids[0] !in tail[..Upto(rest, |tail|)];
      }
    }
    if rest + 1 < |ids| {
      assert tail[rest] == ids[rest + 1];
    }
  }

  /** The steps of the list at work, the ones before c compensated and the one at c failed. */
  ghost predicate Undoes(w: Workflow, t: Workflow, ids: seq<nat>, c: nat)
    requires c <= |ids| && InBounds(ids, |w.steps|)
  {
    && |t.steps| == |w.steps|
    && (forall k :: 0 <= k < c ==>
          t.steps[ids[k]] == w.steps[ids[k]].(state := StepCompensated, isCompensated := true))
    && (c < |ids| ==> t.steps[ids[c]] == w.steps[ids[c]].(state := StepFailed))
    && (forall i :: 0 <= i < |w.steps| && i !in ids[..Upto(c, |ids|)] ==> t.steps[i] == w.steps[i])
    && Compensations(t.log) == Compensations(w.log) + ids[..Upto(c, |ids|)]
    && Successes(t.log) == Successes(w.log)
  }

  lemma UndoesAround(w: Workflow, begun: Workflow, t: Workflow, u: Workflow, ids: seq<nat>, c: nat)
    requires c <= |ids| && InBounds(ids, |w.steps|) && begun.steps == w.steps && u.steps == t.steps
    requires Compensations(begun.log) == Compensations(w.log) && Successes(begun.log) == Successes(w.log)
    requires Compensations(u.log) == Compensations(t.log) && Successes(u.log) == Successes(t.log)
    requires CompensatedTo(begun, t, ids, c)
    ensures Undoes(w, u, ids, c)
  {
    hide Successes, Compensations, Upto;
  }

  /** A call of compensateWorkflow on a finished workflow: the compensations tried are the completed
      compensable steps in reverse order, all of them exactly when none fails and otherwise up to
      and including the first that fails; the workflow ends COMPENSATED or FAILED accordingly. */
  lemma CompensationOutcome(w: Workflow, env: Compensator) returns (c: nat)
    requires CanWorkflowCompensate(w.state)
    ensures var ids, t := ToCompensate(w.steps, |w.steps|), CompensateWorkflow(w, env);
      && c <= |ids|
      && t.state == (if c == |ids| then COMPENSATED else FAILED)
      && t.requiresCompensation && t.isCompensated == (c == |ids| || w.isCompensated)
      && (forall k :: 0 <= k < c ==> env(ids[k]))
      && (c < |ids| ==> !env(ids[c]))
      && Undoes(w, t, ids, c)
  {
    hide Successes, Compensations, CompensateSteps, ToCompensate, CompensatedTo, Undoes, Upto;
    var ids := ToCompensate(w.steps, |w.steps|);
    var begun := w.WithState(COMPENSATING).(requiresCompensation := true);
    ReadAppended(w.log, WorkflowWrite(w.state, COMPENSATING));
    ToCompensateIs(w.steps, |w.steps|);
    assert forall k :: 0 <= k < |ids| ==> ids[k] in ids;
    c := CompensationRuns(begun, ids, env);
    var (t, ok) := CompensateSteps(begun, ids, env);
    KeepsState(begun, t, ids, c);
    ReadAppended(t.log, WorkflowWrite(COMPENSATING, if ok then COMPENSATED else FAILED));
    UndoesAround(w, begun, t, CompensateWorkflow(w, env), ids, c);
  }

  lemma KeepsState(w: Workflow, t: Workflow, ids: seq<nat>, c: nat)
    requires c <= |ids| && InBounds(ids, |w.steps|) && CompensatedTo(w, t, ids, c)
    ensures t.state == w.state && SameFlags(w, t)
  {
    hide Successes, Compensations, Upto;
  }

  // ---------------------------------------------------------------- what every compensation keeps

  /** No step was compensated twice, every compensated step had succeeded, none of them can be
      compensated again, and every completed step has succeeded. */
  ghost predicate Undone(w: Workflow) {
    && Distinct(Compensations(w.log))
    && (forall i :: i in Compensations(w.log) ==> i in Successes(w.log))
    && (forall i :: i in Compensations(w.log) && i < |w.steps| ==> w.steps[i].state != StepCompleted)
    && (forall i :: 0 <= i < |w.steps| && w.steps[i].state == StepCompleted ==> i in Successes(w.log))
  }

  /** A step whose compensation was tried had completed before and has not after. */
  lemma TriedStep(w: Workflow, t: Workflow, c: nat, i: nat)
    requires c <= |ToCompensate(w.steps, |w.steps|)|
    requires Undoes(w, t, ToCompensate(w.steps, |w.steps|), c)
    requires i in ToCompensate(w.steps, |w.steps|)[..Upto(c, |ToCompensate(w.steps, |w.steps|)|)]
    ensures i < |w.steps| && w.steps[i].state == StepCompleted && t.steps[i].state != StepCompleted
  {
    hide Successes, Compensations, ToCompensate;
    var ids := ToCompensate(w.steps, |w.steps|);
    var tried := ids[..Upto(c, |ids|)];
    var k :| 0 <= k < |tried| && tried[k] == i;
    assert ids[k] == i && i in ids;
    ToCompensateIs(w.steps, |w.steps|);
  }

  lemma UndoingKeepsUndone(w: Workflow, t: Workflow, c: nat)
    requires Undone(w) && c <= |ToCompensate(w.steps, |w.steps|)|
    requires Undoes(w, t, ToCompensate(w.steps, |w.steps|), c)
    ensures Undone(t)
  {
    hide Successes, Compensations, ToCompensate, Upto;
    var ids := ToCompensate(w.steps, |w.steps|);
    var tried := ids[..Upto(c, |ids|)];
    forall i | i in tried
      ensures i < |w.steps| && w.steps[i].state == StepCompleted && t.steps[i].state != StepCompleted
    {
      TriedStep(w, t, c, i);
    }
    ToCompensateIs(w.steps, |w.steps|);
    AppendDistinct(Compensations(w.log), tried);
  }

  lemma CompensationKeepsUndone(w: Workflow, env: Compensator)
    requires Undone(w)
    ensures Undone(CompensateWorkflow(w, env))
  {
    hide Undone, Undoes, CompensateSteps, ToCompensate;
    if CanWorkflowCompensate(w.state) {
      var c := CompensationOutcome(w, env);
      UndoingKeepsUndone(w, CompensateWorkflow(w, env), c);
    }
  }

  lemma AppendDistinct(a: seq<nat>, b: seq<nat>)
    requires Distinct(a) && Distinct(b) && forall i :: i in b ==> i !in a
    ensures Distinct(a + b)
  {
    forall k, l | 0 <= k < l < |a + b|
      ensures (a + b)[k] != (a + b)[l]
    {
      if k < |a| && l >= |a| {
        assert b[l - |a|] in b && a[k] in a;
      }
    }
  }

  lemma CancelKeepsUndone(w: Workflow)
    requires Undone(w)
    ensures Undone(CancelWorkflow(w))
  {
    hide Successes, Compensations;
    ReadAppended(w.log, WorkflowWrite(w.state, CANCELLED));
  }

  /** Execution and one compensation together: COMPENSATED means that exactly the steps that
      succeeded and need compensation were compensated, last first, and are marked so. */
  lemma SagaRoundTrip(w: Workflow, env: Environment, comp: Compensator)
    requires w.state == PENDING && w.log == [] && forall k :: 0 <= k < |w.steps| ==> Fresh(w.steps[k])
    requires CompensateWorkflow(ExecuteWorkflow(w, env), comp).state == COMPENSATED
    ensures var t := CompensateWorkflow(ExecuteWorkflow(w, env), comp);
      && (forall k, l :: 0 <= k < l < |Compensations(t.log)| ==> Compensations(t.log)[k] > Compensations(t.log)[l])
      && (forall i :: i in Compensations(t.log) <==>
            i in Successes(t.log) && i < |w.steps| && w.steps[i].requiresCompensation)
      && (forall i :: 0 <= i < |t.steps| ==> (t.steps[i].isCompensated <==> i in Compensations(t.log)))
  {
    hide Successes, Compensations, ExecuteWorkflow, CompensateWorkflow, ToCompensate, Undoes, WillComplete, Range;
    var j := ExecutionOutcome(w, env);
    var e := ExecuteWorkflow(w, env);
    var c := CompensationOutcome(e, comp);
    var ids, t := ToCompensate(e.steps, |e.steps|), CompensateWorkflow(e, comp);
    CompensatedAll(e, t, ids);
    ToCompensateIs(e.steps, |e.steps|);
    forall i: nat
      ensures i in Successes(t.log) <==> i < j
    {
      if i < j {
        assert Range(0, j)[i] == i;
      }
    }
    forall i: nat
      ensures i in ids <==> i < j && w.steps[i].requiresCompensation
    {
      if i < |w.steps| {
        assert SameStep(w.steps[i], e.steps[i]);
      }
      if i in ids {
        assert Fresh(w.steps[i]);
      }
    }
    forall i | 0 <= i < |t.steps|
      ensures !e.steps[i].isCompensated
    {
      assert SameStep(w.steps[i], e.steps[i]);
      assert Fresh(w.steps[i]);
    }
  }

  /** When every compensation succeeded, exactly the listed steps are marked. */
  lemma CompensatedAll(e: Workflow, t: Workflow, ids: seq<nat>)
    requires InBounds(ids, |e.steps|) && Undoes(e, t, ids, |ids|) && Compensations(e.log) == []
    ensures |t.steps| == |e.steps| && Compensations(t.log) == ids && Successes(t.log) == Successes(e.log)
    ensures forall i :: 0 <= i < |e.steps| && !e.steps[i].isCompensated ==> (t.steps[i].isCompensated <==> i in ids)
  {
    hide Successes, Compensations;
    assert ids[..|ids|] == ids;
    forall i | 0 <= i < |e.steps| && i in ids
      ensures t.steps[i].isCompensated
    {
      var k :| 0 <= k < |ids| && ids[k] == i;
    }
  }

  /** A step whose compensation failed is never tried again: a later compensation of the workflow
      passes it over, and may still end COMPENSATED with that step left failed. */
  lemma FailedCompensationIsPassedOver(w: Workflow, first: Compensator, second: Compensator) returns (f: nat)
    requires CanWorkflowCompensate(w.state) && CompensateWorkflow(w, first).state == FAILED
    ensures f < |w.steps| && w.steps[f].state == StepCompleted && w.steps[f].requiresCompensation && !first(f)
    ensures var t := CompensateWorkflow(CompensateWorkflow(w, first), second);
      && |t.steps| == |w.steps| && t.steps[f].state == StepFailed
      && (t.state == COMPENSATED <==>
            forall i :: 0 <= i < |w.steps| && Compensable(CompensateWorkflow(w, first).steps[i]) ==> second(i))
  {
    hide Successes, Compensations, CompensateWorkflow, ToCompensate;
    var c := CompensationOutcome(w, first);
    var ids, m := ToCompensate(w.steps, |w.steps|), CompensateWorkflow(w, first);
    f := ids[c];
    ToCompensateIs(w.steps, |w.steps|);
    assert f in ids;
    ToCompensateIs(m.steps, |m.steps|);
    var d := CompensationOutcome(m, second);
    var later := ToCompensate(m.steps, |m.steps|);
    assert f !in later;
    assert later[..|later|] == later;
    if d == |later| {
      forall i | 0 <= i < |w.steps| && Compensable(m.steps[i])
        ensures second(i)
      {
        var k :| 0 <= k < |later| && later[k] == i;
      }
    } else {
      assert later[d] in later;
    }
    assert f !in later[..Upto(d, |later|)];
  }
}
