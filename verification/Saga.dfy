/** The workflow saga: executing the steps in order with bounded retries, and compensating the
    completed ones in reverse. Which attempts succeed is the environment's choice. */
module Saga {
  import opened Common
  import opened WorkflowStates

  datatype StepRecord = StepRecord(
    state: StepState,
    retryCount: nat,
    maxRetries: int,
    requiresCompensation: bool,
    isCompensated: bool)

  /** What happens during a run: attempts, compensations, and every write of a state. */
  datatype Event =
    | Attempt(step: nat, ok: bool)
    | Compensate(step: nat, ok: bool)
    | StepWrite(step: nat, from: StepState, to: StepState)
    | WorkflowWrite(before: WorkflowState, after: WorkflowState)

  /** A workflow with its steps by index. */
  datatype Workflow = Workflow(
    state: WorkflowState,
    steps: seq<StepRecord>,
    currentStepIndex: nat,
    requiresCompensation: bool,
    isCompensated: bool,
    log: seq<Event>)
  {
    function Logged(e: Event): Workflow {
      this.(log := log + [e])
    }

    function WithState(to: WorkflowState): Workflow {
      this.(state := to).Logged(WorkflowWrite(state, to))
    }

    function WithStep(i: nat, to: StepState): Workflow
      requires i < |steps|
    {
      this.(steps := steps[i := steps[i].(state := to)]).Logged(StepWrite(i, steps[i].state, to))
    }
  }

  /** Whether the attempt at a step succeeds, given how often the step failed before. */
  type Environment = (nat, nat) -> bool

  /** Whether the compensation of a step succeeds. */
  type Compensator = nat -> bool

  // ---------------------------------------------------------------- execution

  /** One step with its retries; the flag says whether the step completed. */
  function ExecuteStep(w: Workflow, i: nat, env: Environment): (r: (Workflow, bool))
    requires i < |w.steps|
    ensures |r.0.steps| == |w.steps|
    decreases Max(w.steps[i].maxRetries - w.steps[i].retryCount, 0)
  {
    if !CanTransitionStep(w.steps[i].state, StepRunning) then (w, false)
    else
      var running := w.WithStep(i, StepRunning);
      var tries := running.steps[i].retryCount;
      if env(i, tries) then (running.Logged(Attempt(i, true)).WithStep(i, StepCompleted), true)
      else
        var failed := Failed(running, i);
        if ShouldRetry(StepFailed, tries + 1, failed.steps[i].maxRetries) then ExecuteStep(failed, i, env)
        else (failed, false)
  }

  function Failed(running: Workflow, i: nat): Workflow
    requires i < |running.steps|
  {
    var w := running.Logged(Attempt(i, false)).WithStep(i, StepFailed);
    w.(steps := w.steps[i := w.steps[i].(retryCount := w.steps[i].retryCount + 1)])
  }

  /** The steps from index i on, up to the first one that does not complete. */
  function ExecuteSteps(w: Workflow, i: nat, env: Environment): (r: (Workflow, bool))
    requires i <= |w.steps|
    ensures |r.0.steps| == |w.steps|
    decreases |w.steps| - i
  {
    if i == |w.steps| then (w, true)
    else
      var (t, ok) := ExecuteStep(w.(currentStepIndex := i), i, env);
      if ok then ExecuteSteps(t, i + 1, env) else (t, false)
  }

  /** A workflow that may not start is left as it is. */
  function ExecuteWorkflow(w: Workflow, env: Environment): Workflow {
    if !CanTransitionWorkflow(w.state, RUNNING) then w
    else
      var (t, ok) := ExecuteSteps(w.WithState(RUNNING), 0, env);
      t.WithState(if ok then COMPLETED else FAILED)
  }

  // ---------------------------------------------------------------- compensation

  predicate Compensable(step: StepRecord) {
    step.state == StepCompleted && step.requiresCompensation
  }

  predicate InBounds(ids: seq<nat>, n: nat) {
    forall k :: 0 <= k < |ids| ==> ids[k] < n
  }

  /** Indices of the completed compensable steps below n, highest first. */
  function ToCompensate(steps: seq<StepRecord>, n: nat): (ids: seq<nat>)
    requires n <= |steps|
    ensures InBounds(ids, n)
  {
    if n == 0 then []
    else if Compensable(steps[n - 1]) then [n - 1] + ToCompensate(steps, n - 1)
    else ToCompensate(steps, n - 1)
  }

  function CompensateStep(w: Workflow, i: nat, env: Compensator): (r: (Workflow, bool))
    requires i < |w.steps|
    ensures |r.0.steps| == |w.steps|
  {
    if !CanTransitionStep(w.steps[i].state, StepCompensating) then (w, false)
    else
      var compensating := w.WithStep(i, StepCompensating);
      if env(i) then
        var done := compensating.Logged(Compensate(i, true)).WithStep(i, StepCompensated);
        (done.(steps := done.steps[i := done.steps[i].(isCompensated := true)]), true)
      else
        (compensating.Logged(Compensate(i, false)).WithStep(i, StepFailed), false)
  }

  function CompensateSteps(w: Workflow, ids: seq<nat>, env: Compensator): (r: (Workflow, bool))
    requires InBounds(ids, |w.steps|)
    ensures |r.0.steps| == |w.steps|
    decreases |ids|
  {
    if ids == [] then (w, true)
    else
      var (t, ok) := CompensateStep(w, ids[0], env);
      if ok then CompensateSteps(t, ids[1..], env) else (t, false)
  }

  function CompensateWorkflow(w: Workflow, env: Compensator): Workflow {
    if !CanWorkflowCompensate(w.state) || !CanTransitionWorkflow(w.state, COMPENSATING) then w
    else
      var begun := w.WithState(COMPENSATING).(requiresCompensation := true);
      var (t, ok) := CompensateSteps(begun, ToCompensate(w.steps, |w.steps|), env);
      if ok then t.WithState(COMPENSATED).(isCompensated := true) else t.WithState(FAILED)
  }

  function CancelWorkflow(w: Workflow): Workflow {
    if CanTransitionWorkflow(w.state, CANCELLED) then w.WithState(CANCELLED) else w
  }

  // ---------------------------------------------------------------- reading the log

  /** Steps that succeeded, in the order they did. */
  function Successes(log: seq<Event>): seq<nat> {
    if log == [] then []
    else
      var last := log[|log| - 1];
      Successes(log[..|log| - 1]) + (if last.Attempt? && last.ok then [last.step] else [])
  }

  function Attempts(log: seq<Event>, i: nat): nat {
    if log == [] then 0
    else
      var last := log[|log| - 1];
      Attempts(log[..|log| - 1], i) + (if last.Attempt? && last.step == i then 1 else 0)
  }

  /** Steps whose compensation was tried, in the order it was. */
  function Compensations(log: seq<Event>): seq<nat> {
    if log == [] then []
    else
      var last := log[|log| - 1];
      Compensations(log[..|log| - 1]) + (if last.Compensate? then [last.step] else [])
  }

  predicate LegalWrite(e: Event) {
    && (e.StepWrite? ==> CanTransitionStep(e.from, e.to))
    && (e.WorkflowWrite? ==> CanTransitionWorkflow(e.before, e.after))
  }

  /** Every write of a state follows the tables. */
  predicate LegalWrites(log: seq<Event>) {
    forall k :: 0 <= k < |log| ==> LegalWrite(log[k])
  }

  /** Attempts go through the steps in index order. */
  predicate InOrder(log: seq<Event>) {
    forall k, l :: 0 <= k < l < |log| && log[k].Attempt? && log[l].Attempt? ==> log[k].step <= log[l].step
  }

  predicate AttemptsUpTo(log: seq<Event>, i: int) {
    forall k :: 0 <= k < |log| && log[k].Attempt? ==> log[k].step <= i
  }

  lemma ReadAppended(log: seq<Event>, e: Event)
    ensures Successes(log + [e]) == Successes(log) + (if e.Attempt? && e.ok then [e.step] else [])
    ensures Compensations(log + [e]) == Compensations(log) + (if e.Compensate? then [e.step] else [])
    ensures forall i :: Attempts(log + [e], i) == Attempts(log, i) + (if e.Attempt? && e.step == i then 1 else 0)
    ensures LegalWrites(log) && LegalWrite(e) ==> LegalWrites(log + [e])
    ensures InOrder(log) && (e.Attempt? ==> AttemptsUpTo(log, e.step)) ==> InOrder(log + [e])
    ensures forall i :: AttemptsUpTo(log, i) && (e.Attempt? ==> e.step <= i) ==> AttemptsUpTo(log + [e], i)
  {
    assert (log + [e])[..|log|] == log;
  }
}
