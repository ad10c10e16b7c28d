/** What each transaction of the workflow orchestrator commits, as a function of the
    stored execution. `Raised` stands for a transaction that aborts. */
module SagaTransactions {
  import opened Common
  import opened WorkflowStates
  import opened RequestStates
  import opened Workflow

  /** An absent or empty reason gives way to another one. */
  function Or(a: Option<Reason>, b: Reason): (r: Reason)
  {
    if IsSet(a) then a.value else b
  }

  predicate IsSet(a: Option<Reason>) {
    a.Some? && a.value != Words("")
  }

  function Stated(reason: Option<string>): (r: Option<Reason>)
  {
    if reason.Some? then Some(Words(reason.value)) else None
  }

  // ----- start_execution -----

  function Start(steps: seq<Step>, deadlineAt: Option<int>, now: int): (r: Outcome<Execution>)
  {
    var created := Execution(WorkflowStatus.Created, steps, deadlineAt, None, None);
    var queued :- MoveExecution(created, WorkflowStatus.Queued);
    Promote(queued, now)
  }

  // ----- _refresh_execution_status -----

  function Refresh(e: Execution, now: int): (r: Outcome<Execution>)
  {
    if e.status.Cancelled? || e.status.Compensated? || e.status.Succeeded? || e.status.DeadLettered? then Ok(e)
    else if AnyFailed(e.steps) &&
            !(e.status.Compensating? || e.status.ManualReview? || e.status.Failed? || e.status.TimedOut?) then
      MoveExecution(e, WorkflowStatus.Compensating)
    else if AnyWaiting(e.steps) && e.status.Running? then
      MoveExecution(e, WorkflowStatus.Waiting)
    else
      var resumed :-
        if e.status.Waiting? && !AnyWaiting(e.steps) && !AnyFailed(e.steps) then
          var running :- MoveExecution(e, WorkflowStatus.Running); Promote(running, now)
        else Ok(e);
      if AllSucceeded(resumed.steps) && resumed.status.Running? then
        MoveExecution(resumed, WorkflowStatus.Succeeded)
      else Ok(resumed)
  }

  // ----- cancel -----

  function CancelStep(s: Step, now: int): (r: Step)
  {
    if s.status.Pending? || s.status.Ready? || s.status.Waiting? || s.status.RetryScheduled? || s.status.Running? then
      s.(status := StepStatus.Cancelled, updatedAt := now, completedAt := Some(now))
    else s
  }

  function CancelSteps(steps: seq<Step>, now: int): (r: seq<Step>)
    ensures |r| == |steps|
    ensures forall i :: 0 <= i < |steps| ==> r[i] == CancelStep(steps[i], now)
  {
    seq(|steps|, i requires 0 <= i < |steps| => CancelStep(steps[i], now))
  }

  function Cancel(e: Execution, reason: Option<string>, now: int): (r: Outcome<Execution>)
  {
    if e.status.Cancelled? then Ok(e)
    else if e.status.IsTerminal() then Raised
    else
      var marked := e.(cancelReason := Some(Or(Stated(reason), Or(e.cancelReason, ClientCancelled))));
      if e.status.Compensating? then Ok(marked)
      else
        var swept := marked.(steps := CancelSteps(e.steps, now));
        if AnySucceeded(swept.steps) then MoveExecution(swept, WorkflowStatus.Compensating)
        else MoveExecution(swept, WorkflowStatus.Cancelled)
  }

  // ----- enforce_deadline -----

  function ExpireStep(s: Step, now: int): (r: Step)
  {
    if s.status.Pending? || s.status.Ready? then
      s.(status := StepStatus.Cancelled, updatedAt := now, completedAt := Some(now))
    else if s.status.Waiting? || s.status.RetryScheduled? || s.status.Running? then
      s.(status := StepStatus.Failed, updatedAt := now, completedAt := Some(now))
    else s
  }

  function ExpireSteps(steps: seq<Step>, now: int): (r: seq<Step>)
    ensures |r| == |steps|
    ensures forall i :: 0 <= i < |steps| ==> r[i] == ExpireStep(steps[i], now)
  {
    seq(|steps|, i requires 0 <= i < |steps| => ExpireStep(steps[i], now))
  }

  function EnforceDeadline(e: Execution, now: int): (r: Outcome<Execution>)
  {
    if !IsPastDeadline(e, now) || e.deadlineProcessedAt.Some? then Ok(e)
    else
      var swept := e.(deadlineProcessedAt := Some(now), steps := ExpireSteps(e.steps, now));
      var timedOut :- MoveExecution(swept, WorkflowStatus.TimedOut);
      if AnySucceeded(timedOut.steps) then MoveExecution(timedOut, WorkflowStatus.Compensating)
      else
        var cancelled :- MoveExecution(timedOut, WorkflowStatus.Cancelled);
        Ok(cancelled.(cancelReason := Some(Or(e.cancelReason, DeadlineExceeded))))
  }

  // ----- advance, first transaction -----

  function ResumeStep(s: Step, done: set<RequestId>, now: int): (r: Step)
  {
    if s.status.Waiting? && s.requestId.Some? && s.requestId.value in done then
      s.(status := StepStatus.Succeeded, updatedAt := now, completedAt := Some(now))
    else s
  }

  function ResumeSteps(steps: seq<Step>, done: set<RequestId>, now: int): (r: seq<Step>)
    ensures |r| == |steps|
    ensures forall i :: 0 <= i < |steps| ==> r[i] == ResumeStep(steps[i], done, now)
  {
    seq(|steps|, i requires 0 <= i < |steps| => ResumeStep(steps[i], done, now))
  }

  /** The execution is neither finished nor expired. An expired execution is left to
      `EnforceDeadline`, which `advance` then runs in its own transaction. */
  predicate Advances(e: Execution, now: int) {
    && !(e.status.IsTerminal() || e.status.ManualReview?)
    && !(IsPastDeadline(e, now) && e.deadlineProcessedAt.None? && !e.status.Compensating?)
  }

  /** `done` are the requests the transaction reads as succeeded. */
  function Advance(e: Execution, done: set<RequestId>, now: int): (r: Outcome<Execution>)
  {
    if !Advances(e, now) then Ok(e)
    else
      var running :- if e.status.Queued? then MoveExecution(e, WorkflowStatus.Running) else Ok(e);
      var promoted :- Promote(running.(steps := ResumeSteps(e.steps, done, now)), now);
      Refresh(promoted, now)
  }

  // ----- _run_forward_step -----

  /** The first transaction goes on to create a request. */
  predicate StartsForward(e: Execution, i: nat, now: int) {
    && i < |e.steps|
    && e.steps[i].status.Ready?
    && !(e.status.Compensating? || e.status.ManualReview? || e.status.TimedOut? || e.status.IsTerminal())
    && !(IsPastDeadline(e, now) && e.deadlineProcessedAt.None?)
  }

  function StartForward(e: Execution, i: nat, id: RequestId, now: int): (r: Execution)
    requires StartsForward(e, i, now)
  {
    var s := e.steps[i];
    e.(steps := e.steps[i := s.(status := StepStatus.Running, attemptCount := s.attemptCount + 1,
                                updatedAt := now, requestId := Some(id))])
  }

  function SettleForwardStep(s: Step, id: RequestId, status: RequestStatus, now: int): (r: Outcome<Step>)
  {
    match status
    case Succeeded =>
      MoveStep(s.(requestId := Some(id)), StepStatus.Succeeded, now)
    case Pending =>
      if s.status.Running? || s.status.Waiting? then MoveStep(s, StepStatus.Waiting, now) else Ok(s)
    case Failed | ManualReview =>
      if s.status.Failed? || s.status.Cancelled? || s.status.Succeeded? then Ok(s)
      else MoveStep(s, StepStatus.Failed, now)
    case RetryScheduled =>
      if s.status.Running? then MoveStep(s, StepStatus.RetryScheduled, now) else Ok(s)
    case Received | Validating | Dispatching | Cancelled => Ok(s)
  }

  function SettleForward(e: Execution, i: nat, id: RequestId, status: RequestStatus, now: int): (r: Outcome<Execution>)
    requires i < |e.steps|
  {
    var s :- SettleForwardStep(e.steps[i], id, status, now);
    Refresh(e.(steps := e.steps[i := s]), now)
  }

  // ----- on_request_terminal -----

  predicate NamesRequest(s: Step, id: RequestId) {
    s.requestId == Some(id) || s.compensationId == Some(id)
  }

  function StepForRequest(steps: seq<Step>, id: RequestId): (r: Option<nat>)
    ensures r.Some? ==> r.value < |steps| && NamesRequest(steps[r.value], id)
    ensures r.Some? ==> forall k :: 0 <= k < r.value ==> !NamesRequest(steps[k], id)
    ensures r.None? ==> forall k :: 0 <= k < |steps| ==> !NamesRequest(steps[k], id)
  {
    if |steps| == 0 then None
    else
      var earlier := StepForRequest(steps[..|steps| - 1], id);
      if earlier.Some? then earlier
      else if NamesRequest(steps[|steps| - 1], id) then Some(|steps| - 1)
      else None
  }

  predicate IsHooked(status: RequestStatus) {
    status.Succeeded? || status.Failed? || status.Cancelled? || status.ManualReview?
  }

  function HookStep(s: Step, id: RequestId, status: RequestStatus, now: int): (r: Outcome<Step>)
  {
    if !(s.status.Running? || s.status.Waiting? || s.status.Compensating?) then Ok(s)
    else if status.Succeeded? then
      if s.status.Compensating? then MoveStep(s.(compensationId := Some(id)), StepStatus.Compensated, now)
      else MoveStep(s.(requestId := Some(id)), StepStatus.Succeeded, now)
    else if status.Failed? || status.ManualReview? then
      if s.status.Compensating? then Ok(s) else MoveStep(s, StepStatus.Failed, now)
    else if status.Cancelled? then MoveStep(s, StepStatus.Cancelled, now)
    else Ok(s)
  }

  /** A reported compensation failure sends a compensating execution to manual review. */
  predicate HookEscalates(e: Execution, s: Step, status: RequestStatus) {
    s.status.Compensating? && (status.Failed? || status.ManualReview?) && e.status.Compensating?
  }

  function Hook(e: Execution, id: RequestId, status: RequestStatus, now: int): (r: Outcome<Execution>)
  {
    var found := StepForRequest(e.steps, id);
    if !IsHooked(status) || found.None? then Ok(e)
    else
      var i := found.value;
      var s :- HookStep(e.steps[i], id, status, now);
      var moved := e.(steps := e.steps[i := s]);
      var escalated :-
        if HookEscalates(e, e.steps[i], status) then MoveExecution(moved, WorkflowStatus.ManualReview) else Ok(moved);
      Refresh(escalated, now)
  }

  // ----- _continue_compensation -----

  /** The execution is unwinding and a succeeded step is left, so that step begins. */
  predicate BeginsCompensation(e: Execution) {
    e.status.Compensating? && NextToCompensate(e.steps).Some?
  }

  predicate UnwindFinished(steps: seq<Step>) {
    forall i :: 0 <= i < |steps| ==>
      steps[i].status.Compensated? || steps[i].status.Failed? || steps[i].status.Skipped? ||
      steps[i].status.Cancelled? || steps[i].status.Pending?
  }

  function Continue(e: Execution, now: int): (r: Outcome<Execution>)
  {
    if !e.status.Compensating? then Ok(e)
    else if BeginsCompensation(e) then
      var i := NextToCompensate(e.steps).value;
      var s :- MoveStep(e.steps[i], StepStatus.Compensating, now);
      Ok(e.(steps := e.steps[i := s]))
    else if UnwindFinished(e.steps) then
      MoveExecution(e, if IsSet(e.cancelReason) then WorkflowStatus.Cancelled else WorkflowStatus.Compensated)
    else Ok(e)
  }

  // ----- _compensate_step -----

  /** Without a compensating operation the step is done at once; otherwise its request is created. */
  function StartCompensation(e: Execution, i: nat, id: RequestId, now: int): (r: Outcome<Execution>)
    requires i < |e.steps|
  {
    var s := e.steps[i];
    if s.compensateOperation.None? then
      var done :- MoveStep(s.(compensationId := None), StepStatus.Compensated, now);
      Ok(e.(steps := e.steps[i := done]))
    else Ok(e.(steps := e.steps[i := s.(compensationId := Some(id))]))
  }

  function SettleCompensation(e: Execution, i: nat, id: RequestId, status: RequestStatus, now: int)
    : (r: Outcome<Execution>)
    requires i < |e.steps|
  {
    var s := e.steps[i];
    if status.Succeeded? then
      var done :- MoveStep(s.(compensationId := Some(id)), StepStatus.Compensated, now);
      Ok(e.(steps := e.steps[i := done]))
    else if status.Pending? then Ok(e)
    else
      var failed :- MoveStep(s, StepStatus.Failed, now);
      MoveExecution(e.(steps := e.steps[i := failed]), WorkflowStatus.ManualReview)
  }
}
