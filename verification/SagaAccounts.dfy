/** Successes against compensations, over any calls at all: also when a failed workflow is executed
    again. */
module SagaAccounts {
  import opened Common
  import opened WorkflowStates
  import opened Saga
  import opened SagaCorrectness
  import opened SagaCompensation

  /** How often an index occurs in a list. */
  function Times(ids: seq<nat>, i: nat): nat
    decreases |ids|
  {
    if ids == [] then 0 else Times(ids[..|ids| - 1], i) + (if ids[|ids| - 1] == i then 1 else 0)
  }

  lemma {:induction false} TimesOfBoth(a: seq<nat>, b: seq<nat>, i: nat)
    ensures Times(a + b, i) == Times(a, i) + Times(b, i)
    decreases |b|
  {
    if b == [] {
      assert a + b == a;
    } else {
      var front := b[..|b| - 1];
      TimesOfBoth(a, front, i);
      assert (a + b)[..|a + b| - 1] == a + front;
    }
  }

  lemma {:induction false} TimesOfDistinct(ids: seq<nat>, i: nat)
    requires Distinct(ids)
    ensures Times(ids, i) == if i in ids then 1 else 0
    decreases |ids|
  {
    if ids != [] {
      var front := ids[..|ids| - 1];
      assert ids == front + [ids[|ids| - 1]];
      TimesOfDistinct(front, i);
    }
  }

  function Standing(step: StepRecord): nat {
    if step.state == StepCompleted then 1 else 0
  }

  /** Each success of a step either still stands or was compensated, and just once. */
  ghost predicate Accounted(w: Workflow, i: nat) {
    i < |w.steps| ==> Times(Successes(w.log), i) == Times(Compensations(w.log), i) + Standing(w.steps[i])
  }

  lemma StepRefused(w: Workflow, i: nat, env: Environment)
    requires i < |w.steps| && !CanTransitionStep(w.steps[i].state, StepRunning)
    ensures ExecuteStep(w, i, env) == (w, false)
  {
  }

  /** Attempts at one step keep the account of every step. */
  lemma StepAccounts(w: Workflow, i: nat, env: Environment, k: nat)
    requires i < |w.steps| && Accounted(w, k)
    ensures Accounted(ExecuteStep(w, i, env).0, k)
  {
    hide Successes, Compensations, Attempts, ExecuteStep, LegalWrites, InOrder, AttemptsUpTo, Times;
    if CanTransitionStep(w.steps[i].state, StepRunning) {
      StepRuns(w, i, env);
      TimesOfBoth(Successes(w.log), [i], k);
      TimesOfDistinct([i], k);
      assert Successes(w.log) + [] == Successes(w.log);
    } else {
      StepRefused(w, i, env);
    }
  }

  lemma {:induction false} StepsAccount(w: Workflow, i: nat, env: Environment, k: nat)
    requires i <= |w.steps| && Accounted(w, k)
    ensures Accounted(ExecuteSteps(w, i, env).0, k)
    decreases |w.steps| - i
  {
    hide Successes, Compensations, ExecuteStep;
    if i < |w.steps| {
      var at := w.(currentStepIndex := i);
      StepAccounts(at, i, env, k);
      if ExecuteStep(at, i, env).1 {
        StepsAccount(ExecuteStep(at, i, env).0, i + 1, env, k);
      }
    }
  }

  lemma StateAccounts(w: Workflow, to: WorkflowState, k: nat)
    ensures Accounted(w.WithState(to), k) <==> Accounted(w, k)
  {
    hide Successes, Compensations;
    ReadAppended(w.log, WorkflowWrite(w.state, to));
    assert Successes(w.log) + [] == Successes(w.log);
    assert Compensations(w.log) + [] == Compensations(w.log);
  }

  lemma ExecutionAccounts(w: Workflow, env: Environment, k: nat)
    requires Accounted(w, k)
    ensures Accounted(ExecuteWorkflow(w, env), k)
  {
    hide Accounted, ExecuteSteps;
    if CanTransitionWorkflow(w.state, RUNNING) {
      StateAccounts(w, RUNNING, k);
      StepsAccount(w.WithState(RUNNING), 0, env, k);
      var (t, ok) := ExecuteSteps(w.WithState(RUNNING), 0, env);
      StateAccounts(t, if ok then COMPLETED else FAILED, k);
    }
  }

  lemma StandingAfter(w: Workflow, t: Workflow, c: nat, k: nat)
    requires c <= |ToCompensate(w.steps, |w.steps|)| && Undoes(w, t, ToCompensate(w.steps, |w.steps|), c)
    ensures var ids := ToCompensate(w.steps, |w.steps|);
      var tried := ids[..Upto(c, |ids|)];
      && |t.steps| == |w.steps|
      && Compensations(t.log) == Compensations(w.log) + tried && Successes(t.log) == Successes(w.log)
      && (k < |w.steps| && k !in tried ==> t.steps[k] == w.steps[k])
  {
    hide Successes, Compensations, ToCompensate, Upto;
  }

  lemma CompensationAccounts(w: Workflow, env: Compensator, k: nat)
    requires Accounted(w, k)
    ensures Accounted(CompensateWorkflow(w, env), k)
  {
    hide Successes, Compensations, CompensateSteps, ToCompensate, Upto, Undoes, Times, InBounds;
    if CanWorkflowCompensate(w.state) {
      var ids := ToCompensate(w.steps, |w.steps|);
      var c := CompensationOutcome(w, env);
      var t := CompensateWorkflow(w, env);
      hide CompensateWorkflow;
      ToCompensateIs(w.steps, |w.steps|);
      var tried := ids[..Upto(c, |ids|)];
      StandingAfter(w, t, c, k);
      TimesOfBoth(Compensations(w.log), tried, k);
      DistinctPrefix(ids, Upto(c, |ids|));
      TimesOfDistinct(tried, k);
      if k in tried {
        TriedStep(w, t, c, k);
      }
    }
  }

  lemma DistinctPrefix(ids: seq<nat>, n: nat)
    requires Distinct(ids) && n <= |ids|
    ensures Distinct(ids[..n])
  {
  }

  /** In any sequence of executions, compensations and cancellations of a fresh workflow, whatever
      the environments do, the successes of each step are its compensations, plus one exactly while
      it is completed: no success is compensated twice, and none is lost. */
  lemma {:induction false} EverySuccessIsAccounted(w: Workflow, ops: seq<Op>, k: nat)
    requires w.log == [] && forall i :: 0 <= i < |w.steps| ==> Fresh(w.steps[i])
    ensures |ApplyAll(w, ops).steps| == |w.steps|
    ensures k < |w.steps| ==>
      var t := ApplyAll(w, ops);
      Times(Successes(t.log), k) == Times(Compensations(t.log), k) + Standing(t.steps[k])
    decreases |ops|
  {
    hide ExecuteWorkflow, CompensateWorkflow;
    if ops != [] {
      var m, last := ApplyAll(w, ops[..|ops| - 1]), ops[|ops| - 1];
      EverySuccessIsAccounted(w, ops[..|ops| - 1], k);
      OpAccounts(m, last, k);
    }
  }

  lemma OpAccounts(w: Workflow, op: Op, k: nat)
    requires Accounted(w, k)
    ensures Accounted(Apply(w, op), k)
    ensures |Apply(w, op).steps| == |w.steps|
  {
    hide Accounted;
    match op {
      case Execute(env) => ExecutionAccounts(w, env, k);
      case Compensate(comp) => CompensationAccounts(w, comp, k);
      case Cancel => StateAccounts(w, CANCELLED, k);
    }
  }

  // ---------------------------------------------------------------- executing again

  lemma OneStepRan(w: Workflow, i: nat, env: Environment)
    requires i < |w.steps|
    ensures var (t, ok) := ExecuteStep(w, i, env);
      && |t.steps| == |w.steps|
      && (forall k :: 0 <= k < |w.steps| && k != i ==> t.steps[k] == w.steps[k])
      && (ok ==> t.steps[i].state == StepCompleted && CanTransitionStep(w.steps[i].state, StepRunning))
  {
    hide ExecuteStep, LogMoves, CanTransitionStep;
    if CanTransitionStep(w.steps[i].state, StepRunning) {
      StepRuns(w, i, env);
    } else {
      StepRefused(w, i, env);
    }
  }

  lemma {:induction false} OkMeansAllRan(w: Workflow, i: nat, env: Environment)
    requires i <= |w.steps|
    ensures var (t, ok) := ExecuteSteps(w, i, env);
      && |t.steps| == |w.steps|
      && (forall k :: 0 <= k < i ==> t.steps[k] == w.steps[k])
      && (ok ==> forall k :: i <= k < |w.steps| ==>
            t.steps[k].state == StepCompleted && CanTransitionStep(w.steps[k].state, StepRunning))
    decreases |w.steps| - i
  {
    hide Successes, Compensations, Attempts, ExecuteStep, LogMoves, CanTransitionStep;
    if i < |w.steps| {
      var at := w.(currentStepIndex := i);
      OneStepRan(at, i, env);
      var (m, ok) := ExecuteStep(at, i, env);
      if ok {
        OkMeansAllRan(m, i + 1, env);
      }
    }
  }

  /** An execution ends COMPLETED only when it ran every step itself. A failed workflow that kept a
      completed step can therefore never be completed by executing it again. */
  lemma CompletedMeansAllRan(w: Workflow, env: Environment)
    requires CanTransitionWorkflow(w.state, RUNNING) && ExecuteWorkflow(w, env).state == COMPLETED
    ensures |ExecuteWorkflow(w, env).steps| == |w.steps|
    ensures forall k :: 0 <= k < |w.steps| ==>
      w.steps[k].state in [StepPending, StepFailed] && ExecuteWorkflow(w, env).steps[k].state == StepCompleted
  {
    hide ExecuteSteps;
    OkMeansAllRan(w.WithState(RUNNING), 0, env);
  }

  /** A running workflow is not taken up again: the table has no way from RUNNING to RUNNING. */
  lemma RunningIsNotResumed(w: Workflow, env: Environment)
    ensures ExecuteWorkflow(w, env) != w ==> w.state == PENDING || w.state == FAILED
  {
    hide ExecuteSteps;
  }

  /** A compensated workflow never changes again. */
  lemma {:induction false} CompensatedIsFinal(w: Workflow, ops: seq<Op>)
    requires w.state == COMPENSATED
    ensures ApplyAll(w, ops) == w
    decreases |ops|
  {
    if ops != [] {
      CompensatedIsFinal(w, ops[..|ops| - 1]);
    }
  }
}
