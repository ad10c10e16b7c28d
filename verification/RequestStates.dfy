/** The integration request state machine: transition table, named status sets and
    the projection of provider-neutral statuses onto request statuses. */
module RequestStates {
  import opened Common

  datatype RequestStatus =
    | Received | Validating | Dispatching | Pending | Succeeded | Failed
    | RetryScheduled | Cancelled | ManualReview
  {
    predicate IsTerminal() {
      Succeeded? || Cancelled?
    }

    predicate IsReconcilable() {
      Dispatching? || Pending?
    }

    predicate IsManuallyRetryable() {
      Failed? || ManualReview?
    }

    predicate IsCancellable() {
      Received? || Validating? || Pending? || RetryScheduled? || Failed? || ManualReview?
    }
  }

  datatype NormalizedStatus = Accepted | Pending | Succeeded | Failed | Cancelled | Unknown

  predicate CanTransition(current: RequestStatus, next: RequestStatus) {
    match current
    case Received => next.Validating? || next.Failed? || next.Cancelled?
    case Validating => next.Dispatching? || next.Failed? || next.Cancelled?
    case Dispatching =>
      next.Pending? || next.Succeeded? || next.Failed? || next.RetryScheduled? ||
      next.ManualReview? || next.Cancelled?
    case Pending => next.Succeeded? || next.Failed? || next.Cancelled? || next.ManualReview?
    case Failed => next.RetryScheduled? || next.ManualReview? || next.Cancelled?
    case RetryScheduled => next.Dispatching? || next.Failed? || next.Cancelled? || next.ManualReview?
    case ManualReview =>
      next.Dispatching? || next.RetryScheduled? || next.Succeeded? || next.Failed? || next.Cancelled?
    case Succeeded | Cancelled => false
  }

  function Project(status: NormalizedStatus): (r: Option<RequestStatus>)
  {
    match status
    case Accepted | Pending => Some(RequestStatus.Pending)
    case Succeeded => Some(RequestStatus.Succeeded)
    case Failed => Some(RequestStatus.Failed)
    case Cancelled => Some(RequestStatus.Cancelled)
    case Unknown => None
  }

  predicate IsForwardProgress(current: RequestStatus, candidate: RequestStatus) {
    current != candidate && !current.IsTerminal() && CanTransition(current, candidate)
  }
}
