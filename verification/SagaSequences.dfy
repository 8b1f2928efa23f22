/** Which sequences of executions, compensations and cancellations can compensate a step twice. */
module SagaSequences {
  import opened Common
  import opened WorkflowStates
  import opened Saga
  import opened SagaCorrectness
  import opened SagaCompensation
  import opened SagaAccounts

  datatype Kind = Executes | Compensates | Cancels

  function KindOf(op: Op): Kind {
    match op
    case Execute(_) => Executes
    case Compensate(_) => Compensates
    case Cancel => Cancels
  }

  function Kinds(ops: seq<Op>): seq<Kind> {
    seq(|ops|, i requires 0 <= i < |ops| => KindOf(ops[i]))
  }

  /** How far a sequence of calls has come on the way to a second compensation. Closed is a cancellation
      before the first execution, Stopped one after a compensation. */
  datatype Phase = Untouched | Ran | Undoing | Stopped | RanAgain | Twice | Closed

  function Next(phase: Phase, kind: Kind): Phase {
    match phase
    case Untouched => (match kind case Executes => Ran case Compensates => Untouched case Cancels => Closed)
    case Ran => if kind.Compensates? then Undoing else Ran
    case Undoing => (match kind case Executes => RanAgain case Compensates => Undoing case Cancels => Stopped)
    case Stopped => if kind.Compensates? then Undoing else Stopped
    case RanAgain => if kind.Compensates? then Twice else RanAgain
    case Twice => Twice
    case Closed => Closed
  }

  function PhaseOf(kinds: seq<Kind>): Phase {
    if kinds == [] then Untouched else Next(PhaseOf(kinds[..|kinds| - 1]), kinds[|kinds| - 1])
  }

  predicate New(w: Workflow) {
    w.state == PENDING && w.log == [] && forall k :: 0 <= k < |w.steps| ==> Fresh(w.steps[k])
  }

  /** A run from a new workflow in which some step's compensation is tried twice. */
  ghost predicate CanRepeat(kinds: seq<Kind>) {
    exists w, ops :: Repeats(w, ops, kinds)
  }

  predicate Repeats(w: Workflow, ops: seq<Op>, kinds: seq<Kind>) {
    New(w) && Kinds(ops) == kinds && !Distinct(Compensations(ApplyAll(w, ops).log))
  }

  lemma KindsFront(ops: seq<Op>)
    requires ops != []
    ensures var n := |ops| - 1;
      Kinds(ops) != [] && |Kinds(ops)| - 1 == n && Kinds(ops)[..n] == Kinds(ops[..n]) && Kinds(ops)[n] == KindOf(ops[n])
  {
  }

  // ---------------------------------------------------------------- what calls do to the compensations

  lemma StateWrite(w: Workflow, to: WorkflowState)
    ensures Compensations(w.WithState(to).log) == Compensations(w.log)
    ensures Successes(w.WithState(to).log) == Successes(w.log)
  {
    hide Successes, Compensations;
    ReadAppended(w.log, WorkflowWrite(w.state, to));
  }

  lemma StepKeepsCompensations(w: Workflow, i: nat, env: Environment)
    requires i < |w.steps|
    ensures Compensations(ExecuteStep(w, i, env).0.log) == Compensations(w.log)
  {
    hide Successes, Compensations, Attempts, ExecuteStep, LegalWrites, InOrder, AttemptsUpTo;
    if CanTransitionStep(w.steps[i].state, StepRunning) {
      StepRuns(w, i, env);
    } else {
      StepRefused(w, i, env);
    }
  }

  lemma {:induction false} StepsKeepCompensations(w: Workflow, i: nat, env: Environment)
    requires i <= |w.steps|
    ensures Compensations(ExecuteSteps(w, i, env).0.log) == Compensations(w.log)
    decreases |w.steps| - i
  {
    hide Compensations, ExecuteStep;
    if i < |w.steps| {
      var at := w.(currentStepIndex := i);
      StepKeepsCompensations(at, i, env);
      if ExecuteStep(at, i, env).1 {
        StepsKeepCompensations(ExecuteStep(at, i, env).0, i + 1, env);
      }
    }
  }

  /** An execution compensates nothing, and is refused to every workflow but a new or a failed one. */
  lemma ExecutionKeepsCompensations(w: Workflow, env: Environment)
    ensures Compensations(ExecuteWorkflow(w, env).log) == Compensations(w.log)
    ensures w.state != PENDING && w.state != FAILED ==> ExecuteWorkflow(w, env) == w
    ensures w.state == PENDING || w.state == FAILED ==> ExecuteWorkflow(w, env).state in [COMPLETED, FAILED]
  {
    hide Compensations, ExecuteSteps;
    if CanTransitionWorkflow(w.state, RUNNING) {
      StateWrite(w, RUNNING);
      StepsKeepCompensations(w.WithState(RUNNING), 0, env);
      var (t, ok) := ExecuteSteps(w.WithState(RUNNING), 0, env);
      StateWrite(t, if ok then COMPLETED else FAILED);
    }
  }

  lemma CancelEffect(w: Workflow)
    ensures CancelWorkflow(w) == w || CancelWorkflow(w).state == CANCELLED
    ensures CancelWorkflow(w).steps == w.steps
    ensures Compensations(CancelWorkflow(w).log) == Compensations(w.log)
    ensures w.state in [COMPLETED, CANCELLED, COMPENSATED] ==> CancelWorkflow(w) == w
    ensures w.state == PENDING || w.state == FAILED ==> CancelWorkflow(w).state == CANCELLED
  {
    hide Compensations;
    StateWrite(w, CANCELLED);
  }

  /** A compensation leaves a new or compensated workflow alone, and any finished one failed or compensated. */
  lemma CompensationState(w: Workflow, comp: Compensator)
    ensures w.state == PENDING || w.state == COMPENSATED ==> CompensateWorkflow(w, comp) == w
    ensures CanWorkflowCompensate(w.state) ==> CompensateWorkflow(w, comp).state in [COMPENSATED, FAILED]
  {
    hide CompensateSteps, ToCompensate;
    if CanWorkflowCompensate(w.state) {
      StateOfCompensated(w, comp);
    }
  }

  lemma StateOfCompensated(w: Workflow, comp: Compensator)
    requires CanWorkflowCompensate(w.state)
    ensures CompensateWorkflow(w, comp).state in [COMPENSATED, FAILED]
  {
    hide CompensateWorkflow, ToCompensate, Undoes;
    var c := CompensationOutcome(w, comp);
  }

  // ---------------------------------------------------------------- no second compensation before its time

  /** What holds in each phase, whatever the environments did. */
  ghost predicate Within(t: Workflow, phase: Phase) {
    match phase
    case Untouched => t.state == PENDING && Compensations(t.log) == [] && NothingCompleted(t)
    case Closed => t.state in [CANCELLED, COMPENSATED] && Compensations(t.log) == [] && NothingCompleted(t)
    case Ran => t.state in [COMPLETED, FAILED, CANCELLED] && Compensations(t.log) == []
    case Undoing => t.state in [FAILED, COMPENSATED] && Undone(t)
    case Stopped => t.state in [CANCELLED, COMPENSATED] && Undone(t)
    case RanAgain => Distinct(Compensations(t.log))
    case Twice => true
  }

  predicate NothingCompleted(t: Workflow) {
    forall k :: 0 <= k < |t.steps| ==> t.steps[k].state != StepCompleted
  }

  /** Every completed step has succeeded. */
  predicate CompletedSucceeded(t: Workflow) {
    forall i :: 0 <= i < |t.steps| && t.steps[i].state == StepCompleted ==> i in Successes(t.log)
  }

  lemma NothingUndoneYet(t: Workflow)
    requires Compensations(t.log) == [] && CompletedSucceeded(t)
    ensures Undone(t)
  {
    hide Successes, Compensations;
  }

  lemma UndoneIsDistinct(t: Workflow)
    requires Undone(t)
    ensures Distinct(Compensations(t.log))
  {
    hide Successes, Compensations;
  }

  /** With nothing completed a compensation has nothing to do. */
  lemma NothingToCompensate(w: Workflow, comp: Compensator)
    requires CanWorkflowCompensate(w.state) && NothingCompleted(w)
    ensures var t := CompensateWorkflow(w, comp);
      t.state == COMPENSATED && t.steps == w.steps && Compensations(t.log) == Compensations(w.log)
  {
    hide Successes, Compensations, CompensateWorkflow, ToCompensate, Upto;
    var ids, t := ToCompensate(w.steps, |w.steps|), CompensateWorkflow(w, comp);
    ToCompensateIs(w.steps, |w.steps|);
    if ids != [] {
      assert ids[0] in ids;
    }
    var c := CompensationOutcome(w, comp);
    assert ids[..Upto(c, |ids|)] == [];
    assert Compensations(w.log) + [] == Compensations(w.log);
    assert t.steps == w.steps;
  }

  lemma ExecuteWithin(t: Workflow, env: Environment, phase: Phase)
    requires Within(t, phase)
    ensures Within(ExecuteWorkflow(t, env), Next(phase, Executes))
  {
    hide Successes, Compensations, ExecuteWorkflow, Undone;
    ExecutionKeepsCompensations(t, env);
    if phase.Undoing? || phase.Stopped? {
      UndoneIsDistinct(t);
    }
  }

  lemma CancelWithin(t: Workflow, phase: Phase)
    requires Within(t, phase)
    ensures Within(CancelWorkflow(t), Next(phase, Cancels))
  {
    hide Successes, Compensations, CancelWorkflow, Undone;
    CancelEffect(t);
    if phase.Undoing? || phase.Stopped? {
      CancelKeepsUndone(t);
    }
  }

  lemma CompensateWithin(t: Workflow, comp: Compensator, phase: Phase)
    requires Within(t, phase) && CompletedSucceeded(t)
    ensures Within(CompensateWorkflow(t, comp), Next(phase, Compensates))
  {
    hide Successes, Compensations, CompensateWorkflow, Undone;
    CompensationState(t, comp);
    match phase {
      case Closed =>
        if t.state == CANCELLED {
          NothingToCompensate(t, comp);
        }
      case Ran =>
        NothingUndoneYet(t);
        CompensationKeepsUndone(t, comp);
      case Undoing => CompensationKeepsUndone(t, comp);
      case Stopped => CompensationKeepsUndone(t, comp);
      case _ =>
    }
  }

  /** The account of successes holds for every completed step. */
  lemma AlwaysSucceeded(w: Workflow, ops: seq<Op>)
    requires New(w)
    ensures CompletedSucceeded(ApplyAll(w, ops))
  {
    hide ApplyAll, Successes, Compensations;
    var t := ApplyAll(w, ops);
    forall i | 0 <= i < |t.steps| && t.steps[i].state == StepCompleted
      ensures i in Successes(t.log)
    {
      EverySuccessIsAccounted(w, ops, i);
      if i !in Successes(t.log) {
        NoOccurrence(Successes(t.log), i);
      }
    }
  }

  lemma {:induction false} NoOccurrence(ids: seq<nat>, i: nat)
    requires i !in ids
    ensures Times(ids, i) == 0
    decreases |ids|
  {
    if ids != [] {
      NoOccurrence(ids[..|ids| - 1], i);
    }
  }

  lemma {:induction false} AlwaysWithin(w: Workflow, ops: seq<Op>)
    requires New(w)
    ensures Within(ApplyAll(w, ops), PhaseOf(Kinds(ops)))
    decreases |ops|
  {
    hide ExecuteWorkflow, CompensateWorkflow, CancelWorkflow, Within, CompletedSucceeded, Next, Kinds;
    if ops == [] {
      NewIsWithin(w);
    } else {
      var front, last := ops[..|ops| - 1], ops[|ops| - 1];
      AlwaysWithin(w, front);
      AlwaysSucceeded(w, front);
      KindsFront(ops);
      match last {
        case Execute(env) => ExecuteWithin(ApplyAll(w, front), env, PhaseOf(Kinds(front)));
        case Compensate(comp) => CompensateWithin(ApplyAll(w, front), comp, PhaseOf(Kinds(front)));
        case Cancel => CancelWithin(ApplyAll(w, front), PhaseOf(Kinds(front)));
      }
    }
  }

  lemma NewIsWithin(w: Workflow)
    requires New(w)
    ensures Within(w, PhaseOf(Kinds([])))
  {
  }

  lemma DistinctBefore(t: Workflow, phase: Phase)
    requires Within(t, phase) && !phase.Twice?
    ensures Distinct(Compensations(t.log))
  {
    hide Compensations, Successes;
  }

  // ---------------------------------------------------------------- the run that repeats

  /** One for the phases in which a compensation takes back what the first execution did. */
  function UndoesIn(phase: Phase): nat {
    if phase.Ran? || phase.Undoing? || phase.Stopped? then 1 else 0
  }

  /** Compensations between the first execution and the one that starts again. */
  function Undoings(kinds: seq<Kind>): nat {
    if kinds == [] then 0
    else
      var front, last := kinds[..|kinds| - 1], kinds[|kinds| - 1];
      Undoings(front) + (if last.Compensates? then UndoesIn(PhaseOf(front)) else 0)
  }

  function Succeeding(): Environment {
    (i, r) => true
  }

  function NeverUndoing(): Compensator {
    i => false
  }

  function AlwaysOp(kind: Kind): Op {
    match kind
    case Executes => Op.Execute(Succeeding())
    case Compensates => Op.Compensate(NeverUndoing())
    case Cancels => Op.Cancel
  }

  /** Every attempt at a step succeeds and every compensation fails. */
  function AlwaysOps(kinds: seq<Kind>): seq<Op> {
    seq(|kinds|, i requires 0 <= i < |kinds| => AlwaysOp(kinds[i]))
  }

  lemma AlwaysFront(kinds: seq<Kind>)
    requires kinds != []
    ensures var n, ops := |kinds| - 1, AlwaysOps(kinds);
      && |ops| == |kinds| && ops[..n] == AlwaysOps(kinds[..n]) && ops[n] == AlwaysOp(kinds[n])
    ensures Kinds(AlwaysOps(kinds)) == kinds
  {
  }

  /** All steps need compensation; those from the index on failed to be compensated, the others stand. */
  predicate UndoneDownTo(t: Workflow, k: nat) {
    && k <= |t.steps|
    && (forall i :: 0 <= i < |t.steps| ==>
          t.steps[i].requiresCompensation && t.steps[i].state == if i < k then StepCompleted else StepFailed)
  }

  predicate MayRun(t: Workflow) {
    forall i :: 0 <= i < |t.steps| ==> t.steps[i].requiresCompensation && CanTransitionStep(t.steps[i].state, StepRunning)
  }

  lemma StepSucceeds(w: Workflow, i: nat, env: Environment)
    requires i < |w.steps| && CanTransitionStep(w.steps[i].state, StepRunning) && env(i, w.steps[i].retryCount)
    ensures var (t, ok) := ExecuteStep(w, i, env);
      && ok && |t.steps| == |w.steps| && t.steps == w.steps[i := w.steps[i].(state := StepCompleted)]
  {
    hide Successes, Compensations, Attempts;
    AtOnce(w, i, env);
  }

  lemma {:induction false} StepsSucceed(w: Workflow, i: nat, env: Environment)
    requires i <= |w.steps| && forall k, r :: env(k, r)
    requires forall k :: i <= k < |w.steps| ==>
      w.steps[k].requiresCompensation && CanTransitionStep(w.steps[k].state, StepRunning)
    requires forall k :: 0 <= k < i ==> w.steps[k].requiresCompensation && w.steps[k].state == StepCompleted
    ensures var (t, ok) := ExecuteSteps(w, i, env);
      ok && |t.steps| == |w.steps| && UndoneDownTo(t, |t.steps|)
    decreases |w.steps| - i
  {
    hide ExecuteStep, CanTransitionStep;
    if i < |w.steps| {
      var at := w.(currentStepIndex := i);
      StepSucceeds(at, i, env);
      StepsSucceed(ExecuteStep(at, i, env).0, i + 1, env);
    }
  }

  lemma ExecutionSucceeds(w: Workflow, env: Environment)
    requires (w.state == PENDING || w.state == FAILED) && MayRun(w) && forall k, r :: env(k, r)
    ensures var t := ExecuteWorkflow(w, env);
      t.state == COMPLETED && |t.steps| == |w.steps| && UndoneDownTo(t, |t.steps|)
  {
    hide ExecuteSteps, CanTransitionStep;
    StepsSucceed(w.WithState(RUNNING), 0, env);
  }

  /** A compensation that fails at the highest standing step. */
  lemma HighestFails(w: Workflow, k: nat, comp: Compensator)
    requires CanWorkflowCompensate(w.state) && UndoneDownTo(w, k) && k > 0 && forall i :: !comp(i)
    ensures var t := CompensateWorkflow(w, comp);
      && t.state == FAILED && |t.steps| == |w.steps| && UndoneDownTo(t, k - 1)
      && Compensations(t.log) == Compensations(w.log) + [k - 1]
  {
    hide Successes, Compensations, CompensateWorkflow, ToCompensate;
    var ids, t := ToCompensate(w.steps, |w.steps|), CompensateWorkflow(w, comp);
    ToCompensateIs(w.steps, |w.steps|);
    assert k - 1 in ids && ids[0] in ids;
    var at :| 0 <= at < |ids| && ids[at] == k - 1;
    assert ids[0] == k - 1;
    var c := CompensationOutcome(w, comp);
    assert !comp(ids[0]);
    assert ids[..1] == [k - 1];
  }

  /** Where the run is that always succeeds to execute and never to compensate. */
  ghost predicate On(t: Workflow, n: nat, phase: Phase, undone: nat) {
    && (phase !in [Twice, Closed] ==> |t.steps| == n)
    && match phase
       case Untouched => t.state == PENDING && MayRun(t) && undone == 0
       case Ran => t.state == COMPLETED && UndoneDownTo(t, n) && undone == 0
       case Undoing => t.state == FAILED && PartlyUndone(t, n, undone)
       case Stopped => t.state == CANCELLED && PartlyUndone(t, n, undone)
       case RanAgain => t.state == COMPLETED && n > 0 && UndoneDownTo(t, n) && n - 1 in Compensations(t.log)
       case Twice => !Distinct(Compensations(t.log))
       case Closed => true
  }

  predicate PartlyUndone(t: Workflow, n: nat, undone: nat) {
    0 < undone <= n && UndoneDownTo(t, n - undone) && n - 1 in Compensations(t.log)
  }

  lemma ExecuteOn(t: Workflow, n: nat, phase: Phase, undone: nat)
    requires On(t, n, phase, undone) && (phase.Undoing? ==> undone == n)
    ensures On(ExecuteWorkflow(t, Succeeding()), n, Next(phase, Executes), undone)
  {
    hide Successes, Compensations, ExecuteWorkflow, Distinct;
    ExecutionKeepsCompensations(t, Succeeding());
    if phase.Undoing? {
      FailedMayRun(t);
    }
    hide UndoneDownTo, MayRun;
    if phase.Untouched? || phase.Undoing? {
      ExecutionSucceeds(t, Succeeding());
    }
  }

  lemma FailedMayRun(t: Workflow)
    requires UndoneDownTo(t, 0)
    ensures MayRun(t)
  {
  }

  lemma CancelOn(t: Workflow, n: nat, phase: Phase, undone: nat)
    requires On(t, n, phase, undone)
    ensures On(CancelWorkflow(t), n, Next(phase, Cancels), undone)
  {
    hide Successes, Compensations, CancelWorkflow, Distinct;
    CancelEffect(t);
  }

  lemma CompensateOn(t: Workflow, n: nat, phase: Phase, undone: nat)
    requires On(t, n, phase, undone) && undone + UndoesIn(phase) <= n
    ensures On(CompensateWorkflow(t, NeverUndoing()), n, Next(phase, Compensates), undone + UndoesIn(phase))
  {
    hide Successes, Compensations, CompensateWorkflow, UndoneDownTo, Distinct, MayRun;
    match phase {
      case Untouched => CompensationState(t, NeverUndoing());
      case Ran => HighestFails(t, n, NeverUndoing());
      case Undoing => HighestFails(t, n - undone, NeverUndoing());
      case Stopped => HighestFails(t, n - undone, NeverUndoing());
      case RanAgain =>
        HighestFails(t, n, NeverUndoing());
        TwoAreNotDistinct(Compensations(t.log), n - 1);
      case Twice => CompensationsGrow(t, NeverUndoing());
      case Closed =>
    }
  }

  lemma TwoAreNotDistinct(ids: seq<nat>, i: nat)
    requires i in ids
    ensures !Distinct(ids + [i])
  {
    var k :| 0 <= k < |ids| && ids[k] == i;
    assert (ids + [i])[k] == (ids + [i])[|ids|];
  }

  /** What was compensated twice stays so. */
  lemma CompensationsGrow(t: Workflow, comp: Compensator)
    requires !Distinct(Compensations(t.log))
    ensures !Distinct(Compensations(CompensateWorkflow(t, comp).log))
  {
    hide Successes, Compensations, CompensateSteps, ToCompensate, Upto;
    if CanWorkflowCompensate(t.state) {
      hide CompensateWorkflow;
      var c := CompensationOutcome(t, comp);
      var ids := ToCompensate(t.steps, |t.steps|);
      PrefixRepeats(Compensations(t.log), ids[..Upto(c, |ids|)]);
    }
  }

  lemma PrefixRepeats(ids: seq<nat>, more: seq<nat>)
    requires !Distinct(ids)
    ensures !Distinct(ids + more)
  {
    var i, j :| 0 <= i < j < |ids| && ids[i] == ids[j];
    assert (ids + more)[i] == (ids + more)[j];
  }

  lemma {:induction false} AlwaysOn(w: Workflow, kinds: seq<Kind>)
    requires New(w) && (forall i :: 0 <= i < |w.steps| ==> w.steps[i].requiresCompensation)
    requires Undoings(kinds) <= |w.steps|
    requires PhaseOf(kinds) in [RanAgain, Twice] ==> Undoings(kinds) == |w.steps|
    ensures On(ApplyAll(w, AlwaysOps(kinds)), |w.steps|, PhaseOf(kinds), Undoings(kinds))
  {
    hide On, New, ExecuteWorkflow, CompensateWorkflow, CancelWorkflow;
    if kinds == [] {
      NewIsOn(w);
    } else {
      var n := |kinds| - 1;
      var front := kinds[..n];
      AlwaysFront(kinds);
      AlwaysOn(w, front);
      var t := ApplyAll(w, AlwaysOps(front));
      match kinds[n] {
        case Executes => ExecuteOn(t, |w.steps|, PhaseOf(front), Undoings(front));
        case Compensates => CompensateOn(t, |w.steps|, PhaseOf(front), Undoings(front));
        case Cancels => CancelOn(t, |w.steps|, PhaseOf(front), Undoings(front));
      }
    }
  }

  lemma NewIsOn(w: Workflow)
    requires New(w) && (forall i :: 0 <= i < |w.steps| ==> w.steps[i].requiresCompensation)
    ensures On(ApplyAll(w, AlwaysOps([])), |w.steps|, Untouched, 0)
  {
  }

  /** For every such sequence there is a run that compensates a step twice: any new workflow with as many
      steps as there are compensations before it is executed again, all of which need compensation, when
      every attempt succeeds and every compensation fails. */
  lemma FailingRun(w: Workflow, kinds: seq<Kind>)
    requires PhaseOf(kinds).Twice? && New(w) && |w.steps| == Undoings(kinds)
    requires forall i :: 0 <= i < |w.steps| ==> w.steps[i].requiresCompensation
    ensures Repeats(w, AlwaysOps(kinds), kinds)
  {
    hide ApplyAll, Compensations;
    AlwaysOn(w, kinds);
    if kinds != [] {
      AlwaysFront(kinds);
    }
  }

  function NewSteps(n: nat): Workflow {
    Workflow(PENDING, seq(n, i => StepRecord(StepPending, 0, 1, true, false)), 0, true, false, [])
  }

  /** A sequence of calls can try a step's compensation twice if and only if it executes, compensates, is
      taken up again from a failed compensation, and compensates once more. */
  lemma CanRepeatIff(kinds: seq<Kind>)
    ensures CanRepeat(kinds) <==> PhaseOf(kinds).Twice?
  {
    hide PhaseOf, Undoings, Compensations, ApplyAll, Kinds, Within;
    if PhaseOf(kinds).Twice? {
      FailingRun(NewSteps(Undoings(kinds)), kinds);
    } else {
      forall w, ops | New(w) && Kinds(ops) == kinds
        ensures !Repeats(w, ops, kinds)
      {
        AlwaysWithin(w, ops);
        DistinctBefore(ApplyAll(w, ops), PhaseOf(kinds));
      }
    }
  }

  /** The kinds of the pattern occur in this order, with anything in between. */
  predicate InTurn(kinds: seq<Kind>, pattern: seq<Kind>) {
    pattern == []
    || (&& kinds != []
        && (|| InTurn(kinds[..|kinds| - 1], pattern)
            || (&& kinds[|kinds| - 1] == pattern[|pattern| - 1]
                && InTurn(kinds[..|kinds| - 1], pattern[..|pattern| - 1]))))
  }

  const Again: seq<Kind> := [Executes, Compensates, Executes, Compensates]

  function Rank(phase: Phase): nat {
    match phase
    case Untouched => 0
    case Ran => 1
    case Undoing => 2
    case RanAgain => 3
    case Twice => 4
    case _ => 0
  }

  lemma {:induction false} RankIsLongest(kinds: seq<Kind>, n: nat)
    requires Cancels !in kinds && n <= 4
    ensures PhaseOf(kinds) in [Untouched, Ran, Undoing, RanAgain, Twice]
    ensures InTurn(kinds, Again[..n]) <==> n <= Rank(PhaseOf(kinds))
    decreases |kinds|
  {
    assert Again[..0] == [];
    if kinds != [] {
      var front, last := kinds[..|kinds| - 1], kinds[|kinds| - 1];
      assert last in kinds;
      RankIsLongest(front, n);
      if n > 0 {
        RankIsLongest(front, n - 1);
        assert Again[..n][..n - 1] == Again[..n - 1];
      }
    }
  }

  /** Without cancellations: exactly when an execution, a compensation, an execution and a compensation
      occur in this order. */
  lemma CanRepeatInTurn(kinds: seq<Kind>)
    requires Cancels !in kinds
    ensures CanRepeat(kinds) <==> InTurn(kinds, Again)
  {
    hide InTurn, PhaseOf, CanRepeat;
    RankIsLongest(kinds, 4);
    assert Again[..4] == Again;
    CanRepeatIff(kinds);
  }

  /** Compensations after all executions, with cancellations anywhere, never try a step twice, and try only
      steps that succeeded. */
  lemma NoStepCompensatedTwice(w: Workflow, first: seq<Op>, rest: seq<Op>)
    requires New(w) && (forall k :: 0 <= k < |first| ==> !first[k].Compensate?)
    requires forall k :: 0 <= k < |rest| ==> !rest[k].Execute?
    ensures var t := ApplyAll(w, first + rest);
      && Distinct(Compensations(t.log))
      && forall i :: i in Compensations(t.log) ==> i in Successes(t.log)
  {
    hide PhaseOf, Compensations, Successes, ApplyAll, Kinds, Within;
    NoReturn(first, rest);
    AlwaysWithin(w, first + rest);
    OnlySuccesses(ApplyAll(w, first + rest), PhaseOf(Kinds(first + rest)));
  }

  lemma OnlySuccesses(t: Workflow, phase: Phase)
    requires Within(t, phase) && !phase.RanAgain? && !phase.Twice?
    ensures Distinct(Compensations(t.log)) && forall i :: i in Compensations(t.log) ==> i in Successes(t.log)
  {
    hide Compensations, Successes;
  }

  lemma {:induction false} NoReturn(first: seq<Op>, rest: seq<Op>)
    requires forall k :: 0 <= k < |first| ==> !first[k].Compensate?
    requires forall k :: 0 <= k < |rest| ==> !rest[k].Execute?
    ensures PhaseOf(Kinds(first + rest)) in [Untouched, Ran, Undoing, Stopped, Closed]
    ensures rest == [] ==> PhaseOf(Kinds(first)) in [Untouched, Ran, Closed]
    decreases |first| + |rest|
  {
    if rest != [] {
      KindsFront(first + rest);
      assert (first + rest)[..|first + rest| - 1] == first + rest[..|rest| - 1];
      NoReturn(first, rest[..|rest| - 1]);
    } else if first != [] {
      assert first + rest == first;
      KindsFront(first);
      NoReturn(first[..|first| - 1], []);
      assert first[..|first| - 1] + [] == first[..|first| - 1];
    } else {
      assert Kinds(first + rest) == [];
    }
  }

  // ---------------------------------------------------------------- successful compensations

  /** Steps whose compensation succeeded, in the order it did. */
  function Reverted(log: seq<Event>): seq<nat> {
    if log == [] then []
    else
      var last := log[|log| - 1];
      Reverted(log[..|log| - 1]) + (if last.Compensate? && last.ok then [last.step] else [])
  }

  lemma RevertedAppended(log: seq<Event>, e: Event)
    ensures Reverted(log + [e]) == Reverted(log) + (if e.Compensate? && e.ok then [e.step] else [])
  {
    assert (log + [e])[..|log|] == log;
  }

  /** No step was reverted twice, and every reverted step is compensated for good. */
  ghost predicate RevertedOnce(w: Workflow) {
    && Distinct(Reverted(w.log))
    && forall i :: i in Reverted(w.log) ==> i < |w.steps| && w.steps[i].state == StepCompensated
  }

  /** No compensated step of one is anything else in the other, and both logs revert the same. */
  ghost predicate RevertsNothing(w: Workflow, t: Workflow) {
    && Reverted(t.log) == Reverted(w.log) && |t.steps| == |w.steps|
    && forall i :: 0 <= i < |w.steps| && w.steps[i].state == StepCompensated ==> t.steps[i].state == StepCompensated
  }

  lemma RevertsNothingKeeps(w: Workflow, t: Workflow)
    requires RevertedOnce(w) && RevertsNothing(w, t)
    ensures RevertedOnce(t)
  {
    hide Reverted;
  }

  lemma WriteRevertsNothing(w: Workflow, i: nat, to: StepState)
    requires i < |w.steps| && w.steps[i].state != StepCompensated
    ensures RevertsNothing(w, w.WithStep(i, to))
  {
    hide Reverted;
    RevertedAppended(w.log, StepWrite(i, w.steps[i].state, to));
  }

  lemma AttemptRevertsNothing(w: Workflow, i: nat, ok: bool)
    ensures RevertsNothing(w, w.Logged(Attempt(i, ok)))
  {
    hide Reverted;
    RevertedAppended(w.log, Attempt(i, ok));
  }

  lemma StateRevertsNothing(w: Workflow, to: WorkflowState)
    ensures RevertsNothing(w, w.WithState(to))
  {
    hide Reverted;
    RevertedAppended(w.log, WorkflowWrite(w.state, to));
  }

  lemma {:induction false} StepRevertsNothing(w: Workflow, i: nat, env: Environment)
    requires i < |w.steps|
    ensures RevertsNothing(w, ExecuteStep(w, i, env).0)
    decreases Max(w.steps[i].maxRetries - w.steps[i].retryCount, 0)
  {
    hide Reverted;
    if CanTransitionStep(w.steps[i].state, StepRunning) {
      var running := w.WithStep(i, StepRunning);
      var ok := env(i, w.steps[i].retryCount);
      WriteRevertsNothing(w, i, StepRunning);
      AttemptRevertsNothing(running, i, ok);
      WriteRevertsNothing(running.Logged(Attempt(i, ok)), i, if ok then StepCompleted else StepFailed);
      if !ok && w.steps[i].retryCount + 1 < w.steps[i].maxRetries {
        StepRevertsNothing(Failed(running, i), i, env);
      }
    }
  }

  lemma {:induction false} StepsRevertNothing(w: Workflow, i: nat, env: Environment)
    requires i <= |w.steps|
    ensures RevertsNothing(w, ExecuteSteps(w, i, env).0)
    decreases |w.steps| - i
  {
    hide Reverted, ExecuteStep;
    if i < |w.steps| {
      var at := w.(currentStepIndex := i);
      StepRevertsNothing(at, i, env);
      if ExecuteStep(at, i, env).1 {
        StepsRevertNothing(ExecuteStep(at, i, env).0, i + 1, env);
      }
    }
  }

  lemma ExecutionRevertsNothing(w: Workflow, env: Environment)
    ensures RevertsNothing(w, ExecuteWorkflow(w, env))
  {
    hide Reverted, ExecuteSteps;
    if CanTransitionWorkflow(w.state, RUNNING) {
      StateRevertsNothing(w, RUNNING);
      StepsRevertNothing(w.WithState(RUNNING), 0, env);
      var (t, ok) := ExecuteSteps(w.WithState(RUNNING), 0, env);
      StateRevertsNothing(t, if ok then COMPLETED else FAILED);
    }
  }

  lemma CompensateStepEffect(w: Workflow, i: nat, comp: Compensator)
    requires i < |w.steps| && CanTransitionStep(w.steps[i].state, StepCompensating)
    ensures var t := CompensateStep(w, i, comp).0;
      && Reverted(t.log) == Reverted(w.log) + (if comp(i) then [i] else [])
      && t.steps == w.steps[i := t.steps[i]] && (comp(i) ==> t.steps[i].state == StepCompensated)
  {
    CompensationLog(w, i, comp);
    hide Reverted;
    var l1, l2 := StepWrite(i, w.steps[i].state, StepCompensating), Event.Compensate(i, comp(i));
    RevertedAppended(w.log, l1);
    RevertedAppended(w.log + [l1], l2);
    RevertedAppended(w.log + [l1] + [l2], StepWrite(i, StepCompensating, if comp(i) then StepCompensated else StepFailed));
  }

  lemma CompensateStepReverts(w: Workflow, i: nat, comp: Compensator)
    requires i < |w.steps| && RevertedOnce(w)
    ensures RevertedOnce(CompensateStep(w, i, comp).0)
  {
    if CanTransitionStep(w.steps[i].state, StepCompensating) {
      assert w.steps[i].state != StepCompensated;
      CompensateStepEffect(w, i, comp);
      hide Reverted, CompensateStep;
      assert i !in Reverted(w.log);
    }
  }

  lemma {:induction false} CompensateStepsRevert(w: Workflow, ids: seq<nat>, comp: Compensator)
    requires InBounds(ids, |w.steps|) && RevertedOnce(w)
    ensures RevertedOnce(CompensateSteps(w, ids, comp).0)
    decreases |ids|
  {
    hide CompensateStep, RevertedOnce;
    if ids != [] {
      CompensateStepReverts(w, ids[0], comp);
      if CompensateStep(w, ids[0], comp).1 {
        CompensateStepsRevert(CompensateStep(w, ids[0], comp).0, ids[1..], comp);
      }
    }
  }

  lemma CompensationReverts(w: Workflow, comp: Compensator)
    requires RevertedOnce(w)
    ensures RevertedOnce(CompensateWorkflow(w, comp))
  {
    hide Reverted, CompensateSteps, ToCompensate;
    if CanWorkflowCompensate(w.state) {
      StateRevertsNothing(w, COMPENSATING);
      var begun := w.WithState(COMPENSATING).(requiresCompensation := true);
      CompensateStepsRevert(begun, ToCompensate(w.steps, |w.steps|), comp);
      var (t, ok) := CompensateSteps(begun, ToCompensate(w.steps, |w.steps|), comp);
      StateRevertsNothing(t, if ok then COMPENSATED else FAILED);
    }
  }

  /** In any sequence of executions, compensations and cancellations no step is successfully compensated
      twice: a compensated step never changes again. */
  lemma {:induction false} NoStepRevertedTwice(w: Workflow, ops: seq<Op>)
    requires w.log == []
    ensures RevertedOnce(ApplyAll(w, ops))
    decreases |ops|
  {
    hide ExecuteWorkflow, CompensateWorkflow, CancelWorkflow;
    if ops != [] {
      var m, last := ApplyAll(w, ops[..|ops| - 1]), ops[|ops| - 1];
      NoStepRevertedTwice(w, ops[..|ops| - 1]);
      match last {
        case Execute(env) =>
          ExecutionRevertsNothing(m, env);
          RevertsNothingKeeps(m, ExecuteWorkflow(m, env));
        case Compensate(comp) => CompensationReverts(m, comp);
        case Cancel =>
          CancelRevertsNothing(m);
          RevertsNothingKeeps(m, CancelWorkflow(m));
      }
    }
  }

  lemma CancelRevertsNothing(w: Workflow)
    ensures RevertsNothing(w, CancelWorkflow(w))
  {
    hide Reverted;
    StateRevertsNothing(w, CANCELLED);
  }
}
