/** The workflow services as they run: workflows started once per idempotency key, and one workflow whose
    state and steps are updated and saved write by write. A thrown error is a false result. */
module WorkflowEngine {
  import opened Common
  import opened WorkflowStates
  import opened Saga
  import SagaCorrectness
  import SagaCompensation

  // ---------------------------------------------------------------- starting workflows

  datatype StepDefinition = StepDefinition(maxRetries: Option<int>, compensates: bool)

  datatype Definition = Definition(steps: seq<StepDefinition>, requiresCompensation: bool)

  /** A missing number of retries, or zero, stands for three. */
  function Retries(defined: Option<int>): int {
    if defined.None? || defined.value == 0 then 3 else defined.value
  }

  /** A new workflow with one fresh step per definition. */
  function NewWorkflow(definition: Definition): Workflow {
    Workflow(PENDING,
      seq(|definition.steps|, i requires 0 <= i < |definition.steps| =>
        StepRecord(StepPending, 0, Retries(definition.steps[i].maxRetries), definition.steps[i].compensates, false)),
      0, definition.requiresCompensation, false, [])
  }

  /** A request to start a workflow of a kind, under the idempotency key of its inputs. */
  datatype Start = Start(kind: string, key: string, env: Environment)

  type Definitions = map<string, Definition>

  /** A workflow that was started under the key is left as it is. */
  function DoStart(stored: map<string, Workflow>, definitions: Definitions, c: Start): map<string, Workflow> {
    if c.kind !in definitions || c.key in stored then stored
    else stored[c.key := Saga.ExecuteWorkflow(NewWorkflow(definitions[c.kind]), c.env)]
  }

  function RunStarts(definitions: Definitions, starts: seq<Start>): map<string, Workflow> {
    if starts == [] then map[]
    else DoStart(RunStarts(definitions, starts[..|starts| - 1]), definitions, starts[|starts| - 1])
  }

  predicate Starts(definitions: Definitions, c: Start, key: string) {
    c.key == key && c.kind in definitions
  }

  /** Request k is the first one for the key that names a known kind. */
  predicate FirstStart(definitions: Definitions, starts: seq<Start>, key: string, k: nat) {
    && k < |starts| && Starts(definitions, starts[k], key)
    && forall j :: 0 <= j < k ==> !Starts(definitions, starts[j], key)
  }

  /** However often and in whatever order starts are requested, a key's workflow is executed once, by the
      first request for it: no step runs again for a repeated request. */
  lemma {:induction false} StartedOnce(definitions: Definitions, starts: seq<Start>, key: string)
    ensures var stored := RunStarts(definitions, starts);
      && (key in stored <==> exists k: nat :: FirstStart(definitions, starts, key, k))
      && (forall k: nat :: FirstStart(definitions, starts, key, k) ==>
            stored[key] == Saga.ExecuteWorkflow(NewWorkflow(definitions[starts[k].kind]), starts[k].env))
  {
    hide Saga.ExecuteWorkflow, NewWorkflow, FirstStart;
    forall k: nat
      ensures FirstStart(definitions, starts, key, k) ==> k < |starts|
      ensures k < |starts| - 1 ==>
        (FirstStart(definitions, starts, key, k) <==> FirstStart(definitions, starts[..|starts| - 1], key, k))
    {
      EarlierStart(definitions, starts, key, k);
    }
    if starts != [] {
      var n := |starts| - 1;
      StartedOnce(definitions, starts[..n], key);
      LastStart(definitions, starts, key);
      if key in RunStarts(definitions, starts) && key !in RunStarts(definitions, starts[..n]) {
        assert FirstStart(definitions, starts, key, n);
      } else if k: nat :| FirstStart(definitions, starts[..n], key, k) {
        EarlierStart(definitions, starts[..n], key, k);
        assert FirstStart(definitions, starts, key, k);
      }
    }
  }

  lemma EarlierStart(definitions: Definitions, starts: seq<Start>, key: string, k: nat)
    ensures FirstStart(definitions, starts, key, k) ==> k < |starts|
    ensures k < |starts| - 1 ==>
      (FirstStart(definitions, starts, key, k) <==> FirstStart(definitions, starts[..|starts| - 1], key, k))
  {
  }

  lemma LastStart(definitions: Definitions, starts: seq<Start>, key: string)
    requires starts != []
    ensures var n := |starts| - 1;
      FirstStart(definitions, starts, key, n) <==>
      Starts(definitions, starts[n], key) && !exists k: nat :: FirstStart(definitions, starts[..n], key, k)
  {
    var n := |starts| - 1;
    if k :| 0 <= k < n && Starts(definitions, starts[k], key) {
      SomeStartIsFirst(definitions, starts[..n], key, k);
    }
  }

  lemma {:induction false} SomeStartIsFirst(definitions: Definitions, starts: seq<Start>, key: string, k: nat)
    requires k < |starts| && Starts(definitions, starts[k], key)
    ensures exists j: nat :: FirstStart(definitions, starts, key, j)
  {
    if j :| 0 <= j < k && Starts(definitions, starts[j], key) {
      SomeStartIsFirst(definitions, starts, key, j);
    } else {
      assert FirstStart(definitions, starts, key, k);
    }
  }

  /** Some attempt at the step succeeds among as many as the definition gives it: its retries, three when it names
      none or zero, and one at least. */
  ghost predicate Succeeds(step: StepDefinition, i: nat, env: Environment) {
    exists r: nat :: env(i, r) && r <
      (match step.maxRetries case None => 3 case Some(k) => if k == 0 then 3 else if k < 0 then 1 else k)
  }

  /** A started workflow is COMPLETED exactly when every step of its definition succeeds within its retries, and FAILED
      otherwise; and when it is compensated afterwards and ends COMPENSATED, exactly those of its steps were
      compensated that succeeded and that the definition can compensate, last first. */
  lemma StartedWorkflow(definition: Definition, env: Environment, comp: Compensator)
    ensures var t := Saga.ExecuteWorkflow(NewWorkflow(definition), env);
      && |t.steps| == |definition.steps|
      && (t.state == COMPLETED <==> forall i :: 0 <= i < |definition.steps| ==> Succeeds(definition.steps[i], i, env))
      && t.state in [COMPLETED, FAILED]
      && t.requiresCompensation == definition.requiresCompensation && !t.isCompensated
    ensures var t := Saga.ExecuteWorkflow(NewWorkflow(definition), env);
      var u := Saga.CompensateWorkflow(t, comp);
      u.state == COMPENSATED ==>
        && (forall k, l :: 0 <= k < l < |Compensations(u.log)| ==> Compensations(u.log)[k] > Compensations(u.log)[l])
        && (forall i :: i in Compensations(u.log) <==>
              i in Successes(t.log) && i < |definition.steps| && definition.steps[i].compensates)
  {
    hide Saga.ExecuteWorkflow, Saga.CompensateWorkflow, Successes, Compensations, SagaCorrectness.WillComplete, Succeeds;
    var w := NewWorkflow(definition);
    var t := Saga.ExecuteWorkflow(w, env);
    var j := SagaCorrectness.ExecutionOutcome(w, env);
    SagaCorrectness.ExecutionKeepsFlags(w, env);
    forall i | 0 <= i < |definition.steps|
      ensures Succeeds(definition.steps[i], i, env) <==> SagaCorrectness.WillComplete(w.steps[i], i, env)
    {
      SucceedsWithinRetries(definition, i, env);
    }
    if Saga.CompensateWorkflow(t, comp).state == COMPENSATED {
      SagaCompensation.SagaRoundTrip(w, env, comp);
      SuccessesKept(w, env, comp);
    }
  }

  lemma SucceedsWithinRetries(definition: Definition, i: nat, env: Environment)
    requires i < |definition.steps|
    ensures Succeeds(definition.steps[i], i, env) <==> SagaCorrectness.WillComplete(NewWorkflow(definition).steps[i], i, env)
  {
  }

  /** A compensation runs no step. */
  lemma SuccessesKept(w: Workflow, env: Environment, comp: Compensator)
    requires Saga.CompensateWorkflow(Saga.ExecuteWorkflow(w, env), comp).state == COMPENSATED
    ensures Successes(Saga.CompensateWorkflow(Saga.ExecuteWorkflow(w, env), comp).log)
         == Successes(Saga.ExecuteWorkflow(w, env).log)
  {
    hide Saga.ExecuteWorkflow, Successes, Compensations, Saga.CompensateSteps, ToCompensate;
    var t := Saga.ExecuteWorkflow(w, env);
    if CanWorkflowCompensate(t.state) {
      hide Saga.CompensateWorkflow;
      var c := SagaCompensation.CompensationOutcome(t, comp);
    }
  }

  /** The workflows by key, over their stored objects. */
  class Service {
    const definitions: Definitions
    var workflows: map<string, Engine>

    ghost function Stored(): map<string, Workflow>
      reads this, workflows.Values
    {
      map key | key in workflows :: workflows[key].Stored()
    }

    constructor (definitions: Definitions)
      ensures this.definitions == definitions && Stored() == map[]
    {
      this.definitions, workflows := definitions, map[];
    }

    /** None when the kind is unknown or the execution fails; the workflow it stores remains either way. */
    method StartWorkflow(c: Start) returns (found: Option<Engine>)
      modifies this`workflows
      ensures Stored() == DoStart(old(Stored()), definitions, c)
      ensures c.key in old(workflows) && c.kind in definitions ==>
        found == Some(old(workflows)[c.key]) && workflows == old(workflows)
      ensures found.None? <==>
        c.kind !in definitions || (c.key !in old(workflows) && Stored()[c.key].state != COMPLETED)
      ensures found.Some? ==> c.key in workflows && found.value == workflows[c.key]
    {
      hide Saga.ExecuteWorkflow, NewWorkflow;
      if c.kind !in definitions {
        return None;
      }
      if c.key in workflows {
        return Some(workflows[c.key]);
      }
      var engine := new Engine(definitions[c.kind]);
      var ok := engine.ExecuteWorkflow(c.env);
      workflows := workflows[c.key := engine];
      found := if ok then Some(engine) else None;
    }
  }

  // ---------------------------------------------------------------- one workflow

  class Engine {
    var state: WorkflowState
    var steps: seq<StepRecord>
    var currentStepIndex: nat
    var requiresCompensation: bool
    var isCompensated: bool
    var log: seq<Event>

    ghost function Stored(): Workflow
      reads this
    {
      Workflow(state, steps, currentStepIndex, requiresCompensation, isCompensated, log)
    }

    constructor (definition: Definition)
      ensures Stored() == NewWorkflow(definition) && state == PENDING
    {
      state, currentStepIndex, isCompensated, log := PENDING, 0, false, [];
      requiresCompensation := definition.requiresCompensation;
      steps := seq(|definition.steps|, i requires 0 <= i < |definition.steps| =>
        StepRecord(StepPending, 0, Retries(definition.steps[i].maxRetries), definition.steps[i].compensates, false));
    }

    method SaveState(to: WorkflowState)
      modifies this
      ensures Stored() == old(Stored()).WithState(to)
    {
      log := log + [WorkflowWrite(state, to)];
      state := to;
    }

    method SaveStep(i: nat, to: StepState)
      requires i < |steps|
      modifies this
      ensures Stored() == old(Stored()).WithStep(i, to)
    {
      log := log + [StepWrite(i, steps[i].state, to)];
      steps := steps[i := steps[i].(state := to)];
    }

    method ExecuteWorkflow(env: Environment) returns (ok: bool)
      modifies this
      ensures Stored() == Saga.ExecuteWorkflow(old(Stored()), env)
      ensures ok <==> old(state) != state && state == COMPLETED
    {
      hide Saga.ExecuteSteps;
      if !CanTransitionWorkflow(state, RUNNING) {
        return false;
      }
      SaveState(RUNNING);
      ok := ExecuteSteps(env);
      if ok {
        SaveState(COMPLETED);
      } else {
        SaveState(FAILED);
      }
    }

    /** Steps in index order; the first error ends the loop. */
    method ExecuteSteps(env: Environment) returns (ok: bool)
      modifies this
      ensures (Stored(), ok) == Saga.ExecuteSteps(old(Stored()), 0, env)
    {
      hide Saga.ExecuteStep;
      ok := true;
      var n := |steps|;
      ghost var start := Stored();
      var i := 0;
      while i < n
        invariant 0 <= i <= n == |steps|
        invariant Saga.ExecuteSteps(start, 0, env) == Saga.ExecuteSteps(Stored(), i, env)
      {
        currentStepIndex := i;
        ok := ExecuteStep(i, env);
        if !ok {
          return false;
        }
        i := i + 1;
      }
    }

    /** One step; a failed attempt is recorded and retried while retries remain. */
    method ExecuteStep(i: nat, env: Environment) returns (ok: bool)
      requires i < |steps|
      modifies this
      ensures (Stored(), ok) == Saga.ExecuteStep(old(Stored()), i, env)
      decreases Max(steps[i].maxRetries - steps[i].retryCount, 0)
    {
      hide Failed;
      if !CanTransitionStep(steps[i].state, StepRunning) {
        return false;
      }
      SaveStep(i, StepRunning);
      if env(i, steps[i].retryCount) {
        log := log + [Attempt(i, true)];
        SaveStep(i, StepCompleted);
        return true;
      }
      FailStep(i);
      if ShouldRetry(StepFailed, steps[i].retryCount, steps[i].maxRetries) {
        ok := ExecuteStep(i, env);
      } else {
        ok := false;
      }
    }

    /** A failed attempt at a running step. */
    method FailStep(i: nat)
      requires i < |steps|
      modifies this
      ensures Stored() == Failed(old(Stored()), i) && |steps| == old(|steps|)
      ensures steps[i].maxRetries == old(steps[i].maxRetries)
      ensures steps[i].retryCount == old(steps[i].retryCount) + 1
    {
      log := log + [Attempt(i, false)];
      SaveStep(i, StepFailed);
      steps := steps[i := steps[i].(retryCount := steps[i].retryCount + 1)];
    }

    /** The completed compensable steps, sorted by descending index. */
    method StepsToCompensate() returns (ids: seq<nat>)
      ensures ids == ToCompensate(steps, |steps|)
    {
      ids := [];
      var n := 0;
      while n < |steps|
        invariant 0 <= n <= |steps|
        invariant ids == ToCompensate(steps, n)
      {
        if steps[n].state == StepCompleted && steps[n].requiresCompensation {
          ids := [n] + ids;
        }
        n := n + 1;
      }
    }

    method CompensateWorkflow(env: Compensator) returns (ok: bool)
      modifies this
      ensures Stored() == Saga.CompensateWorkflow(old(Stored()), env)
      ensures ok <==> old(state) != state && state == COMPENSATED
    {
      hide CompensateSteps;
      if !CanWorkflowCompensate(state) || !CanTransitionWorkflow(state, COMPENSATING) {
        return false;
      }
      var ids := StepsToCompensate();
      SaveState(COMPENSATING);
      requiresCompensation := true;
      ok := CompensateAll(ids, env);
      if ok {
        SaveState(COMPENSATED);
        isCompensated := true;
      } else {
        SaveState(FAILED);
      }
    }

    method CompensateAll(ids: seq<nat>, env: Compensator) returns (ok: bool)
      requires InBounds(ids, |steps|)
      modifies this
      ensures (Stored(), ok) == CompensateSteps(old(Stored()), ids, env)
    {
      hide Saga.CompensateStep;
      ok := true;
      ghost var start := Stored();
      var k := 0;
      while k < |ids|
        invariant 0 <= k <= |ids| && InBounds(ids[k..], |steps|) && |steps| == |start.steps|
        invariant CompensateSteps(start, ids, env) == CompensateSteps(Stored(), ids[k..], env)
      {
        assert ids[k..][1..] == ids[k + 1..];
        ok := CompensateStep(ids[k], env);
        if !ok {
          return false;
        }
        k := k + 1;
      }
    }

    method CompensateStep(i: nat, env: Compensator) returns (ok: bool)
      requires i < |steps|
      modifies this
      ensures (Stored(), ok) == Saga.CompensateStep(old(Stored()), i, env)
    {
      if !CanTransitionStep(steps[i].state, StepCompensating) {
        return false;
      }
      SaveStep(i, StepCompensating);
      ok := env(i);
      log := log + [Event.Compensate(i, ok)];
      if ok {
        SaveStep(i, StepCompensated);
        steps := steps[i := steps[i].(isCompensated := true)];
      } else {
        SaveStep(i, StepFailed);
      }
    }

    method CancelWorkflow() returns (ok: bool)
      modifies this
      ensures Stored() == Saga.CancelWorkflow(old(Stored()))
      ensures ok <==> CanTransitionWorkflow(old(state), CANCELLED)
    {
      ok := CanTransitionWorkflow(state, CANCELLED);
      if ok {
        SaveState(CANCELLED);
      }
    }
  }
}
