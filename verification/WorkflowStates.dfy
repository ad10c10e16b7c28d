/** The workflow and step state machines: the two transition tables and the
    terminal sets. */
module WorkflowStates {

  datatype WorkflowStatus =
    | Created | Queued | Running | Waiting | RetryScheduled | Compensating | Compensated
    | Succeeded | Failed | Cancelled | ManualReview | DeadLettered | TimedOut
  {
    predicate IsTerminal() {
      Succeeded? || Compensated? || Failed? || Cancelled? || DeadLettered?
    }

    /** The statuses in which forward work may still be dispatched. */
    predicate IsForward() {
      Queued? || Running? || Waiting?
    }
  }

  datatype StepStatus =
    | Pending | Ready | Running | Waiting | RetryScheduled | Succeeded | Failed | Skipped
    | Compensating | Compensated | Cancelled | DeadLettered
  {
    predicate IsTerminal() {
      Succeeded? || Failed? || Skipped? || Compensated? || Cancelled? || DeadLettered?
    }
  }

  predicate WorkflowAllowed(current: WorkflowStatus, next: WorkflowStatus) {
    match current
    case Created => next.Queued? || next.Running? || next.Cancelled?
    case Queued => next.Running? || next.Cancelled? || next.Failed? || next.TimedOut?
    case Running =>
      next.Waiting? || next.RetryScheduled? || next.Compensating? || next.Succeeded? ||
      next.Failed? || next.Cancelled? || next.ManualReview? || next.TimedOut?
    case Waiting =>
      next.Running? || next.Compensating? || next.Failed? || next.Cancelled? ||
      next.ManualReview? || next.TimedOut?
    case RetryScheduled =>
      next.Running? || next.Compensating? || next.Failed? || next.Cancelled? ||
      next.ManualReview? || next.TimedOut?
    case TimedOut => next.Compensating? || next.Cancelled? || next.ManualReview? || next.Failed?
    case Compensating =>
      next.Compensated? || next.ManualReview? || next.DeadLettered? || next.Failed? || next.Cancelled?
    case ManualReview =>
      next.Running? || next.Compensating? || next.Cancelled? || next.DeadLettered?
    case Failed => next.ManualReview?
    case Succeeded | Compensated | Cancelled | DeadLettered => false
  }

  predicate StepAllowed(current: StepStatus, next: StepStatus) {
    match current
    case Pending => next.Ready? || next.Skipped? || next.Cancelled?
    case Ready => next.Running? || next.Skipped? || next.Cancelled?
    case Running =>
      next.Waiting? || next.RetryScheduled? || next.Succeeded? || next.Failed? || next.Cancelled?
    case Waiting => next.Running? || next.Succeeded? || next.Failed? || next.Cancelled?
    case RetryScheduled => next.Ready? || next.Running? || next.Failed? || next.Cancelled?
    case Succeeded => next.Compensating? || next.Cancelled?
    case Failed => next.DeadLettered?
    case Compensating =>
      next.Compensated? || next.RetryScheduled? || next.DeadLettered? || next.Failed?
    case Skipped | Compensated | Cancelled | DeadLettered => false
  }
}
