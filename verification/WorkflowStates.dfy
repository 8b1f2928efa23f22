/** The two transition tables of the workflow engine and the checks made against them. */
module WorkflowStates {

  datatype WorkflowState = PENDING | RUNNING | COMPLETED | FAILED | CANCELLED | COMPENSATING | COMPENSATED

  datatype StepState =
    StepPending | StepRunning | StepCompleted | StepFailed | StepSkipped | StepCompensating | StepCompensated

  function WorkflowTransitions(from: WorkflowState): seq<WorkflowState> {
    match from
    case PENDING => [RUNNING, CANCELLED]
    case RUNNING => [COMPLETED, FAILED, CANCELLED, COMPENSATING]
    case COMPLETED => [COMPENSATING]
    case FAILED => [RUNNING, CANCELLED, COMPENSATING]
    case CANCELLED => [COMPENSATING]
    case COMPENSATING => [COMPENSATED, FAILED]
    case COMPENSATED => []
  }

  function StepTransitions(from: StepState): seq<StepState> {
    match from
    case StepPending => [StepRunning, StepSkipped]
    case StepRunning => [StepCompleted, StepFailed, StepSkipped]
    case StepCompleted => [StepCompensating]
    case StepFailed => [StepRunning, StepSkipped, StepCompensating]
    case StepSkipped => [StepCompensating]
    case StepCompensating => [StepCompensated, StepFailed]
    case StepCompensated => []
  }

  predicate CanTransitionWorkflow(from: WorkflowState, to: WorkflowState) {
    to in WorkflowTransitions(from)
  }

  predicate CanTransitionStep(from: StepState, to: StepState) {
    to in StepTransitions(from)
  }

  predicate CanWorkflowCompensate(state: WorkflowState) {
    state in [COMPLETED, FAILED, CANCELLED]
  }

  predicate ShouldRetry(state: StepState, retryCount: nat, maxRetries: int) {
    state == StepFailed && retryCount < maxRetries
  }
}
