/** What a run of the saga guarantees, whatever the environment does. */
module SagaCorrectness {
  import opened Common
  import opened WorkflowStates
  import opened Saga

  // ---------------------------------------------------------------- one step

  /** A step is tried until its retry count reaches this number: at least once in any case. */
  function Limit(step: StepRecord): int {
    Max(step.maxRetries, step.retryCount + 1)
  }

  /** How a step may change while it is executed. */
  predicate SameStep(a: StepRecord, b: StepRecord) {
    a.maxRetries == b.maxRetries && a.requiresCompensation == b.requiresCompensation && a.isCompensated == b.isCompensated
  }

  /** Everything but the step at one index and the log is as before. */
  predicate OnlyStep(w: Workflow, t: Workflow, i: nat)
    requires i < |w.steps|
  {
    && |t.steps| == |w.steps|
    && (forall k :: 0 <= k < |w.steps| && k != i ==> t.steps[k] == w.steps[k])
    && t == w.(steps := t.steps, log := t.log)
  }

  /** One write of a running step's outcome, as the log records it. */
  lemma LogOfFailure(w: Workflow, i: nat)
    requires i < |w.steps| && CanTransitionStep(w.steps[i].state, StepRunning)
    ensures var t := Failed(w.WithStep(i, StepRunning), i);
      && OnlyStep(w, t, i) && SameStep(w.steps[i], t.steps[i])
      && t.steps[i].state == StepFailed && t.steps[i].retryCount == w.steps[i].retryCount + 1
      && LogMoves(w.log, t.log, i, 1, false)
  {
    hide Successes, Attempts, Compensations, LegalWrites, InOrder, AttemptsUpTo;
    var running := w.WithStep(i, StepRunning);
    var l1, l2, l3 := StepWrite(i, w.steps[i].state, StepRunning), Attempt(i, false),
                      StepWrite(i, StepRunning, StepFailed);
    ReadAppended(w.log, l1);
    ReadAppended(w.log + [l1], l2);
    ReadAppended(w.log + [l1] + [l2], l3);
  }

  lemma LogOfSuccess(w: Workflow, i: nat)
    requires i < |w.steps| && CanTransitionStep(w.steps[i].state, StepRunning)
    ensures var t := w.WithStep(i, StepRunning).Logged(Attempt(i, true)).WithStep(i, StepCompleted);
      && OnlyStep(w, t, i) && SameStep(w.steps[i], t.steps[i])
      && t.steps[i].state == StepCompleted && t.steps[i].retryCount == w.steps[i].retryCount
      && LogMoves(w.log, t.log, i, 1, true)
  {
    hide Successes, Attempts, Compensations, LegalWrites, InOrder, AttemptsUpTo;
    var l1, l2, l3 := StepWrite(i, w.steps[i].state, StepRunning), Attempt(i, true),
                      StepWrite(i, StepRunning, StepCompleted);
    ReadAppended(w.log, l1);
    ReadAppended(w.log + [l1], l2);
    ReadAppended(w.log + [l1] + [l2], l3);
  }

  /** The log gained so many attempts at one step, the last of them possibly successful. */
  ghost predicate LogMoves(before: seq<Event>, after: seq<Event>, i: nat, tries: int, ok: bool) {
    && Successes(after) == Successes(before) + (if ok then [i] else [])
    && Compensations(after) == Compensations(before)
    && Attempts(after, i) == Attempts(before, i) + tries
    && (forall j :: j != i ==> Attempts(after, j) == Attempts(before, j))
    && (LegalWrites(before) ==> LegalWrites(after))
    && (InOrder(before) && AttemptsUpTo(before, i) ==> InOrder(after) && AttemptsUpTo(after, i))
  }

  /** The step was tried until the first success or until its retries were used up. */
  ghost predicate Ran(w: Workflow, i: nat, t: Workflow, ok: bool, env: Environment)
    requires i < |w.steps| == |t.steps|
  {
    var s, u := w.steps[i], t.steps[i];
    && OnlyStep(w, t, i) && SameStep(s, u)
    && (ok ==> u.state == StepCompleted && s.retryCount <= u.retryCount < Limit(s) && env(i, u.retryCount))
    && (!ok ==> u.state == StepFailed && u.retryCount == Limit(s))
    && (forall r :: s.retryCount <= r < u.retryCount ==> !env(i, r))
    && LogMoves(w.log, t.log, i, u.retryCount - s.retryCount + (if ok then 1 else 0), ok)
  }

  lemma SucceedsNow(w: Workflow, i: nat, env: Environment)
    requires i < |w.steps| && CanTransitionStep(w.steps[i].state, StepRunning)
    requires env(i, w.steps[i].retryCount)
    ensures var (t, ok) := ExecuteStep(w, i, env); Ran(w, i, t, ok, env)
  {
    hide LogMoves, ExecuteStep;
    AtOnce(w, i, env);
    LogOfSuccess(w, i);
  }

  lemma AtOnce(w: Workflow, i: nat, env: Environment)
    requires i < |w.steps| && CanTransitionStep(w.steps[i].state, StepRunning) && env(i, w.steps[i].retryCount)
    ensures ExecuteStep(w, i, env)
         == (w.WithStep(i, StepRunning).Logged(Attempt(i, true)).WithStep(i, StepCompleted), true)
  {
  }

  lemma FailsForGood(w: Workflow, i: nat, env: Environment)
    requires i < |w.steps| && CanTransitionStep(w.steps[i].state, StepRunning)
    requires !env(i, w.steps[i].retryCount) && w.steps[i].retryCount + 1 >= w.steps[i].maxRetries
    ensures var (t, ok) := ExecuteStep(w, i, env); Ran(w, i, t, ok, env)
  {
    hide LogMoves, ExecuteStep, Failed;
    NoRetryLeft(w, i, env);
    LogOfFailure(w, i);
  }

  lemma NoRetryLeft(w: Workflow, i: nat, env: Environment)
    requires i < |w.steps| && CanTransitionStep(w.steps[i].state, StepRunning)
    requires !env(i, w.steps[i].retryCount) && w.steps[i].retryCount + 1 >= w.steps[i].maxRetries
    ensures ExecuteStep(w, i, env) == (Failed(w.WithStep(i, StepRunning), i), false)
  {
  }

  /** A failed attempt, followed by whatever the retry does. */
  lemma FailsThenRuns(w: Workflow, i: nat, t: Workflow, ok: bool, env: Environment)
    requires i < |w.steps| == |t.steps| && CanTransitionStep(w.steps[i].state, StepRunning)
    requires !env(i, w.steps[i].retryCount)
    requires Ran(Failed(w.WithStep(i, StepRunning), i), i, t, ok, env)
    requires w.steps[i].retryCount + 1 < w.steps[i].maxRetries
    ensures Ran(w, i, t, ok, env)
  {
    hide Successes, Attempts, Compensations, LegalWrites, InOrder, AttemptsUpTo, ExecuteStep;
    LogOfFailure(w, i);
  }

  /** A step that may run is tried until the first success or until its retries are used up. */
  lemma {:induction false} StepRuns(w: Workflow, i: nat, env: Environment)
    requires i < |w.steps| && CanTransitionStep(w.steps[i].state, StepRunning)
    ensures var (t, ok) := ExecuteStep(w, i, env); Ran(w, i, t, ok, env)
    decreases Max(w.steps[i].maxRetries - w.steps[i].retryCount, 0)
  {
    hide Ran;
    if env(i, w.steps[i].retryCount) {
      SucceedsNow(w, i, env);
    } else if w.steps[i].retryCount + 1 >= w.steps[i].maxRetries {
      FailsForGood(w, i, env);
    } else {
      var failed := Failed(w.WithStep(i, StepRunning), i);
      StepRuns(failed, i, env);
      var (t, ok) := ExecuteStep(failed, i, env);
      FailsThenRuns(w, i, t, ok, env);
    }
  }

  // ---------------------------------------------------------------- all steps

  predicate Fresh(step: StepRecord) {
    step.state == StepPending && step.retryCount == 0 && !step.isCompensated
  }

  /** Some attempt within the retries would succeed. */
  ghost predicate WillComplete(step: StepRecord, i: nat, env: Environment) {
    exists r: nat :: r < Max(step.maxRetries, 1) && env(i, r)
  }

  function Range(lo: nat, hi: nat): (r: seq<nat>)
    requires lo <= hi
    ensures |r| == hi - lo && forall k :: 0 <= k < |r| ==> r[k] == lo + k
  {
    seq(hi - lo, k requires 0 <= k => lo + k)
  }

  /** Steps from i on: completed below j, step j failed with its retries used up, the rest as they
      were. */
  ghost predicate StoppedAt(w: Workflow, t: Workflow, i: nat, j: nat, env: Environment)
    requires i <= j <= |w.steps|
  {
    && |t.steps| == |w.steps| && t.state == w.state
    && (forall k :: 0 <= k < i ==> t.steps[k] == w.steps[k])
    && (forall k :: i <= k < j ==>
          && t.steps[k].state == StepCompleted && SameStep(w.steps[k], t.steps[k])
          && t.steps[k].retryCount < Max(w.steps[k].maxRetries, 1) && WillComplete(w.steps[k], k, env))
    && (j < |w.steps| ==>
          && t.steps[j].state == StepFailed && SameStep(w.steps[j], t.steps[j])
          && t.steps[j].retryCount == Max(w.steps[j].maxRetries, 1) && !WillComplete(w.steps[j], j, env))
    && (forall k :: j < k < |w.steps| ==> t.steps[k] == w.steps[k])
  }

  /** The log tells the same story, in index order. */
  ghost predicate LogStoppedAt(w: Workflow, t: Workflow, i: nat, j: nat)
    requires i <= j <= |w.steps| == |t.steps|
  {
    && Successes(t.log) == Successes(w.log) + Range(i, j)
    && Compensations(t.log) == Compensations(w.log)
    && (forall k :: i <= k < |w.steps| ==>
          Attempts(t.log, k) - Attempts(w.log, k)
          == (if k <= j then t.steps[k].retryCount + (if k < j then 1 else 0) else 0))
    && (forall k :: 0 <= k < i ==> Attempts(t.log, k) == Attempts(w.log, k))
    && (LegalWrites(w.log) ==> LegalWrites(t.log))
    && (InOrder(w.log) && AttemptsUpTo(w.log, i) ==> InOrder(t.log))
  }

  lemma UpToHigher(log: seq<Event>, i: int, j: int)
    requires AttemptsUpTo(log, i) && i <= j
    ensures AttemptsUpTo(log, j)
  {
  }

  /** Step i completed, then the rest stopped at j. */
  lemma ThenRest(w: Workflow, m: Workflow, t: Workflow, i: nat, j: nat, tries: int, env: Environment)
    requires i < j <= |w.steps| && Fresh(w.steps[i])
    requires OnlyStep(w, m, i) && SameStep(w.steps[i], m.steps[i]) && m.steps[i].state == StepCompleted
    requires m.steps[i].retryCount < Limit(w.steps[i]) && env(i, m.steps[i].retryCount)
    requires StoppedAt(m, t, i + 1, j, env)
    ensures StoppedAt(w, t, i, j, env)
  {
    assert WillComplete(w.steps[i], i, env);
  }

  lemma ThenRestLog(w: Workflow, m: Workflow, t: Workflow, i: nat, j: nat)
    requires i < j <= |w.steps| == |m.steps| == |t.steps| && t.steps[i] == m.steps[i]
    requires LogMoves(w.log, m.log, i, m.steps[i].retryCount + 1, true)
    requires LogStoppedAt(m, t, i + 1, j)
    ensures LogStoppedAt(w, t, i, j)
  {
    hide Successes, Attempts, Compensations, LegalWrites, InOrder, AttemptsUpTo, Range;
    assert Range(i, j) == [i] + Range(i + 1, j);
    if AttemptsUpTo(m.log, i) {
      UpToHigher(m.log, i, i + 1);
    }
  }

  lemma StopsHere(w: Workflow, t: Workflow, i: nat, env: Environment)
    requires i < |w.steps| && Fresh(w.steps[i])
    requires OnlyStep(w, t, i) && SameStep(w.steps[i], t.steps[i]) && t.steps[i].state == StepFailed
    requires t.steps[i].retryCount == Limit(w.steps[i])
    requires forall r :: 0 <= r < t.steps[i].retryCount ==> !env(i, r)
    requires LogMoves(w.log, t.log, i, t.steps[i].retryCount, false)
    ensures StoppedAt(w, t, i, i, env) && LogStoppedAt(w, t, i, i)
  {
    hide Successes, Attempts, Compensations, LegalWrites, InOrder, AttemptsUpTo, Range;
    assert Range(i, i) == [];
  }

  lemma {:induction false} StepsRun(w: Workflow, i: nat, env: Environment) returns (j: nat)
    requires i <= |w.steps| && forall k :: i <= k < |w.steps| ==> Fresh(w.steps[k])
    ensures i <= j <= |w.steps|
    ensures ExecuteSteps(w, i, env).1 <==> j == |w.steps|
    ensures StoppedAt(w, ExecuteSteps(w, i, env).0, i, j, env)
    ensures LogStoppedAt(w, ExecuteSteps(w, i, env).0, i, j)
    ensures i < |w.steps| ==> ExecuteSteps(w, i, env).0.currentStepIndex == Min(j, |w.steps| - 1)
    decreases |w.steps| - i
  {
    hide Successes, Attempts, Compensations, LegalWrites, InOrder, AttemptsUpTo, ExecuteStep, LogMoves,
      StoppedAt, LogStoppedAt;
    if i == |w.steps| {
      j := i;
      StopsAtEnd(w, env);
    } else {
      var at := w.(currentStepIndex := i);
      var (t, ok) := ExecuteStep(at, i, env);
      StepRuns(at, i, env);
      if ok {
        j := StepsRun(t, i + 1, env);
        var u := ExecuteSteps(t, i + 1, env).0;
        ThenRest(at, t, u, i, j, t.steps[i].retryCount, env);
        RestKeeps(t, u, i, j, env);
        ThenRestLog(at, t, u, i, j);
        IndexIsIrrelevant(w, at, u, i, j, env);
      } else {
        j := i;
        StopsHere(at, t, i, env);
        IndexIsIrrelevant(w, at, t, i, j, env);
      }
    }
  }

  lemma StopsAtEnd(w: Workflow, env: Environment)
    ensures StoppedAt(w, w, |w.steps|, |w.steps|, env) && LogStoppedAt(w, w, |w.steps|, |w.steps|)
  {
    assert Range(|w.steps|, |w.steps|) == [];
  }

  lemma RestKeeps(t: Workflow, u: Workflow, i: nat, j: nat, env: Environment)
    requires i < j <= |t.steps| && StoppedAt(t, u, i + 1, j, env)
    ensures u.steps[i] == t.steps[i] && |u.steps| == |t.steps|
  {
  }

  lemma IndexIsIrrelevant(w: Workflow, at: Workflow, t: Workflow, i: nat, j: nat, env: Environment)
    requires i <= j <= |w.steps| == |t.steps| && at == w.(currentStepIndex := i)
    requires StoppedAt(at, t, i, j, env) && LogStoppedAt(at, t, i, j)
    ensures StoppedAt(w, t, i, j, env) && LogStoppedAt(w, t, i, j)
  {
    hide Successes, Attempts, Compensations, LegalWrites, InOrder, AttemptsUpTo, Range;
  }

  /** From PENDING with fresh steps and whatever the environment does, execution ends COMPLETED or
      FAILED. Each step is tried at most max(1, maxRetries) times, in index order. COMPLETED means
      that every step succeeded exactly once, in order, which is so exactly when every step would
      succeed within its retries. FAILED means a completed prefix, one step out of retries, and an
      untouched suffix. */
  lemma ExecutionOutcome(w: Workflow, env: Environment) returns (j: nat)
    requires w.state == PENDING && w.log == [] && forall k :: 0 <= k < |w.steps| ==> Fresh(w.steps[k])
    ensures j <= |w.steps|
    ensures var t := ExecuteWorkflow(w, env);
      && t.state == (if j == |w.steps| then COMPLETED else FAILED)
      && (j == |w.steps| <==> forall k :: 0 <= k < |w.steps| ==> WillComplete(w.steps[k], k, env))
      && |t.steps| == |w.steps|
      && (forall k :: 0 <= k < j ==> t.steps[k].state == StepCompleted)
      && (j < |w.steps| ==> t.steps[j].state == StepFailed && t.steps[j].retryCount == Max(w.steps[j].maxRetries, 1))
      && (forall k :: j < k < |w.steps| ==> t.steps[k] == w.steps[k])
      && (w.steps != [] ==> t.currentStepIndex == Min(j, |w.steps| - 1))
      && Successes(t.log) == Range(0, j)
      && Compensations(t.log) == []
      && (forall k :: 0 <= k < |w.steps| ==> Attempts(t.log, k) <= Max(w.steps[k].maxRetries, 1))
      && (forall k :: j < k < |w.steps| ==> Attempts(t.log, k) == 0)
      && InOrder(t.log) && LegalWrites(t.log)
      && (forall k :: 0 <= k < |w.steps| ==> SameStep(w.steps[k], t.steps[k]))
  {
    hide ExecuteSteps, WillComplete, Successes, Attempts, Compensations, LegalWrites, InOrder, AttemptsUpTo;
    var running := w.WithState(RUNNING);
    EmptyLog();
    ReadAppended([], WorkflowWrite(PENDING, RUNNING));
    assert running.log == [] + [WorkflowWrite(PENDING, RUNNING)];
    j := StepsRun(running, 0, env);
    var (s, ok) := ExecuteSteps(running, 0, env);
    ReadAppended(s.log, WorkflowWrite(RUNNING, if ok then COMPLETED else FAILED));
  }

  predicate SameFlags(w: Workflow, t: Workflow) {
    t.requiresCompensation == w.requiresCompensation && t.isCompensated == w.isCompensated
  }

  lemma StepKeepsFlags(w: Workflow, i: nat, env: Environment)
    requires i < |w.steps|
    ensures SameFlags(w, ExecuteStep(w, i, env).0)
  {
    if CanTransitionStep(w.steps[i].state, StepRunning) {
      hide ExecuteStep, LogMoves;
      StepRuns(w, i, env);
    }
  }

  lemma {:induction false} StepsKeepFlags(w: Workflow, i: nat, env: Environment)
    requires i <= |w.steps|
    ensures SameFlags(w, ExecuteSteps(w, i, env).0)
    decreases |w.steps| - i
  {
    hide ExecuteStep;
    if i < |w.steps| {
      var at := w.(currentStepIndex := i);
      StepKeepsFlags(at, i, env);
      if ExecuteStep(at, i, env).1 {
        StepsKeepFlags(ExecuteStep(at, i, env).0, i + 1, env);
      }
    }
  }

  /** An execution leaves the compensation flags of the workflow alone. */
  lemma ExecutionKeepsFlags(w: Workflow, env: Environment)
    ensures SameFlags(w, ExecuteWorkflow(w, env))
  {
    hide ExecuteSteps;
    if CanTransitionWorkflow(w.state, RUNNING) {
      StepsKeepFlags(w.WithState(RUNNING), 0, env);
    }
  }

  lemma EmptyLog()
    ensures Successes([]) == [] && Compensations([]) == [] && forall k :: Attempts([], k) == 0
    ensures LegalWrites([]) && InOrder([]) && AttemptsUpTo([], 0)
  {
  }

  // ---------------------------------------------------------------- every write follows the tables

  lemma {:induction false} ExecuteStepIsLegal(w: Workflow, i: nat, env: Environment)
    requires i < |w.steps| && LegalWrites(w.log)
    ensures var t := ExecuteStep(w, i, env).0; LegalWrites(t.log) && t.state == w.state
  {
    if CanTransitionStep(w.steps[i].state, StepRunning) {
      hide ExecuteStep;
      StepRuns(w, i, env);
    }
  }

  lemma {:induction false} ExecuteStepsIsLegal(w: Workflow, i: nat, env: Environment)
    requires i <= |w.steps| && LegalWrites(w.log)
    ensures var t := ExecuteSteps(w, i, env).0; LegalWrites(t.log) && t.state == w.state
    decreases |w.steps| - i
  {
    hide ExecuteStep, LegalWrites;
    if i < |w.steps| {
      var at := w.(currentStepIndex := i);
      ExecuteStepIsLegal(at, i, env);
      if ExecuteStep(at, i, env).1 {
        ExecuteStepsIsLegal(ExecuteStep(at, i, env).0, i + 1, env);
      }
    }
  }

  lemma LegalAppended(log: seq<Event>, e: Event)
    requires LegalWrites(log) && LegalWrite(e)
    ensures LegalWrites(log + [e])
  {
  }

  lemma CompensationLog(w: Workflow, i: nat, env: Compensator)
    requires i < |w.steps| && CanTransitionStep(w.steps[i].state, StepCompensating)
    ensures var t := CompensateStep(w, i, env).0;
      && t.state == w.state
      && t.log == w.log + [StepWrite(i, w.steps[i].state, StepCompensating)] + [Event.Compensate(i, env(i))]
                    + [StepWrite(i, StepCompensating, if env(i) then StepCompensated else StepFailed)]
  {
  }

  lemma CompensateStepIsLegal(w: Workflow, i: nat, env: Compensator)
    requires i < |w.steps| && LegalWrites(w.log)
    ensures var t := CompensateStep(w, i, env).0; LegalWrites(t.log) && t.state == w.state
  {
    if CanTransitionStep(w.steps[i].state, StepCompensating) {
      CompensationLog(w, i, env);
      hide LegalWrites, CompensateStep;
      var l1, l2 := StepWrite(i, w.steps[i].state, StepCompensating), Event.Compensate(i, env(i));
      LegalAppended(w.log, l1);
      LegalAppended(w.log + [l1], l2);
      LegalAppended(w.log + [l1] + [l2], StepWrite(i, StepCompensating, if env(i) then StepCompensated else StepFailed));
    }
  }

  lemma {:induction false} CompensateStepsIsLegal(w: Workflow, ids: seq<nat>, env: Compensator)
    requires InBounds(ids, |w.steps|) && LegalWrites(w.log)
    ensures var t := CompensateSteps(w, ids, env).0; LegalWrites(t.log) && t.state == w.state
    decreases |ids|
  {
    hide CompensateStep, LegalWrites;
    if ids != [] {
      CompensateStepIsLegal(w, ids[0], env);
      if CompensateStep(w, ids[0], env).1 {
        CompensateStepsIsLegal(CompensateStep(w, ids[0], env).0, ids[1..], env);
      }
    }
  }

  /** The calls a user of the engine can make on a workflow. */
  datatype Op = Execute(env: Environment) | Compensate(comp: Compensator) | Cancel

  function Apply(w: Workflow, op: Op): Workflow {
    match op
    case Execute(env) => ExecuteWorkflow(w, env)
    case Compensate(comp) => CompensateWorkflow(w, comp)
    case Cancel => CancelWorkflow(w)
  }

  function ApplyAll(w: Workflow, ops: seq<Op>): Workflow
    decreases |ops|
  {
    if ops == [] then w else Apply(ApplyAll(w, ops[..|ops| - 1]), ops[|ops| - 1])
  }

  lemma ApplyIsLegal(w: Workflow, op: Op)
    requires LegalWrites(w.log)
    ensures LegalWrites(Apply(w, op).log)
  {
    hide ExecuteSteps, CompensateSteps;
    match op
    case Execute(env) =>
      if CanTransitionWorkflow(w.state, RUNNING) {
        ExecuteStepsIsLegal(w.WithState(RUNNING), 0, env);
      }
    case Compensate(comp) =>
      var begun := w.WithState(COMPENSATING).(requiresCompensation := true);
      if CanTransitionWorkflow(w.state, COMPENSATING) {
        CompensateStepsIsLegal(begun, ToCompensate(w.steps, |w.steps|), comp);
      }
    case Cancel =>
  }

  /** In any sequence of executions, compensations and cancellations, from any workflow, every state
      written to a step or to the workflow is one its table allows from the state before. */
  lemma {:induction false} WritesFollowTables(w: Workflow, ops: seq<Op>)
    requires LegalWrites(w.log)
    ensures LegalWrites(ApplyAll(w, ops).log)
    decreases |ops|
  {
    hide Apply, LegalWrites;
    if ops != [] {
      WritesFollowTables(w, ops[..|ops| - 1]);
      ApplyIsLegal(ApplyAll(w, ops[..|ops| - 1]), ops[|ops| - 1]);
    }
  }
}
