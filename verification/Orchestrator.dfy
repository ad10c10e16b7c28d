/** The workflow orchestrator in the form it runs: a transaction loads the stored row into
    an aggregate, changes it in place and writes it back, or raises and leaves the row. */
module WorkflowExecutions {
  import opened Common
  import opened WorkflowStates
  import opened Workflow
  import opened SagaTransactions
  import opened SagaOutcomes

  class WorkflowExecution {
    var status: WorkflowStatus
    var steps: seq<Step>
    var deadlineAt: Option<int>
    var deadlineProcessedAt: Option<int>
    var cancelReason: Option<Reason>

    function Value(): (r: Execution)
      reads this
    {
      Execution(status, steps, deadlineAt, deadlineProcessedAt, cancelReason)
    }

    constructor Load(row: Execution)
      ensures Value() == row
    {
      status := row.status;
      steps := row.steps;
      deadlineAt := row.deadlineAt;
      deadlineProcessedAt := row.deadlineProcessedAt;
      cancelReason := row.cancelReason;
    }

    method TransitionTo(next: WorkflowStatus) returns (raised: bool)
      modifies this
      ensures raised <==> MoveExecution(old(Value()), next).Raised?
      ensures Value() == if raised then old(Value()) else MoveExecution(old(Value()), next).value
    {
      raised := !WorkflowAllowed(status, next);
      if !raised {
        status := next;
      }
    }

    /** `dependencies_satisfied` for one step, walking its keys in order. */
    method DependenciesSatisfied(i: nat) returns (raised: bool, satisfied: bool)
      requires i < |steps|
      ensures raised <==> CheckDependencies(steps, steps[i].dependsOn).UnknownKey?
      ensures !raised ==> (satisfied <==> CheckDependencies(steps, steps[i].dependsOn).Satisfied?)
    {
      var keys := steps[i].dependsOn;
      var k := 0;
      while k < |keys|
        invariant 0 <= k <= |keys|
        invariant CheckDependencies(steps, keys) == CheckDependencies(steps, keys[k..])
      {
        var dependency := StepByKey(steps, keys[k]);
        if dependency.None? {
          return true, false;
        }
        if !steps[dependency.value].status.Succeeded? {
          return false, false;
        }
        k := k + 1;
      }
      return false, true;
    }

    /** The in-place loop gives the simultaneous promotion: a step made ready on the way never
        changes what later steps see. It raises exactly when some pending step reaches an
        unknown key. */
    method PromoteReadySteps(now: int) returns (raised: bool)
      modifies this`steps
      ensures raised <==> Promote(old(Value()), now).Raised?
      ensures !raised ==> Value() == Promote(old(Value()), now).value
    {
      ghost var before := steps;
      var i := 0;
      while i < |steps|
        invariant 0 <= i <= |steps| == |before|
        invariant forall j :: 0 <= j < i ==> steps[j] == PromotedStep(before, j, now)
        invariant forall j :: i <= j < |steps| ==> steps[j] == before[j]
        invariant forall j :: 0 <= j < i ==>
          !(before[j].status.Pending? && CheckDependencies(before, before[j].dependsOn).UnknownKey?)
      {
        CheckReadsOnlySuccess(before, steps, before[i].dependsOn);
        if steps[i].status.Pending? {
          var failed, satisfied := DependenciesSatisfied(i);
          if failed {
            return true;
          }
          if satisfied {
            steps := steps[i := MoveStep(steps[i], StepStatus.Ready, now).value];
          }
        }
        i := i + 1;
      }
      assert steps == Promoted(before, now);
      return false;
    }

    method WithdrawSteps(now: int)
      modifies this`steps
      ensures steps == CancelSteps(old(steps), now)
    {
      ghost var before := steps;
      var i := 0;
      while i < |steps|
        invariant 0 <= i <= |steps| == |before|
        invariant forall j :: 0 <= j < i ==> steps[j] == CancelStep(before[j], now)
        invariant forall j :: i <= j < |steps| ==> steps[j] == before[j]
      {
        var s := steps[i].status;
        if s.Pending? || s.Ready? || s.Waiting? || s.RetryScheduled? {
          steps := steps[i := MoveStep(steps[i], StepStatus.Cancelled, now).value];
        } else if s.Running? {
          steps := steps[i := MoveStep(steps[i], StepStatus.Cancelled, now).value];
        }
        i := i + 1;
      }
    }

    method ExpireSteps(now: int)
      modifies this`steps
      ensures steps == SagaTransactions.ExpireSteps(old(steps), now)
    {
      ghost var before := steps;
      var i := 0;
      while i < |steps|
        invariant 0 <= i <= |steps| == |before|
        invariant forall j :: 0 <= j < i ==> steps[j] == ExpireStep(before[j], now)
        invariant forall j :: i <= j < |steps| ==> steps[j] == before[j]
      {
        var s := steps[i].status;
        if s.Pending? || s.Ready? {
          steps := steps[i := MoveStep(steps[i], StepStatus.Cancelled, now).value];
        } else if s.Waiting? || s.RetryScheduled? || s.Running? {
          steps := steps[i := MoveStep(steps[i], StepStatus.Failed, now).value];
        }
        i := i + 1;
      }
    }

    method ResumeWaiting(done: set<RequestId>, now: int)
      modifies this`steps
      ensures steps == ResumeSteps(old(steps), done, now)
    {
      ghost var before := steps;
      var i := 0;
      while i < |steps|
        invariant 0 <= i <= |steps| == |before|
        invariant forall j :: 0 <= j < i ==> steps[j] == ResumeStep(before[j], done, now)
        invariant forall j :: i <= j < |steps| ==> steps[j] == before[j]
      {
        if steps[i].status.Waiting? && steps[i].requestId.Some? && steps[i].requestId.value in done {
          steps := steps[i := MoveStep(steps[i], StepStatus.Succeeded, now).value];
        }
        i := i + 1;
      }
    }

    method RefreshStatus(now: int) returns (raised: bool)
      modifies this
      ensures raised <==> Refresh(old(Value()), now).Raised?
      ensures !raised ==> Value() == Refresh(old(Value()), now).value
      ensures !raised && (old(status).Running? || old(status).Waiting?) ==> Fits(Value())
    {
      if (status.Running? || status.Waiting?) && Refresh(Value(), now).Ok? {
        RefreshOutcome(Value(), now);
      }
      if status.Cancelled? || status.Compensated? || status.Succeeded? || status.DeadLettered? {
        return false;
      }
      var failed := AnyFailed(steps);
      if failed && !(status.Compensating? || status.ManualReview? || status.Failed? || status.TimedOut?) {
        raised := TransitionTo(WorkflowStatus.Compensating);
        return;
      }
      if AnyWaiting(steps) && status.Running? {
        raised := TransitionTo(WorkflowStatus.Waiting);
        return;
      }
      if status.Waiting? && !AnyWaiting(steps) && !failed {
        raised := TransitionTo(WorkflowStatus.Running);
        raised := PromoteReadySteps(now);
        if raised {
          return;
        }
      }
      if AllSucceeded(steps) && status.Running? {
        raised := TransitionTo(WorkflowStatus.Succeeded);
        return;
      }
      return false;
    }
  }
}

module WorkflowOrchestration {
  import opened Common
  import opened WorkflowStates
  import opened RequestStates
  import opened Workflow
  import opened SagaTransactions
  import opened WorkflowExecutions

  /** The compensation of a step fails: it has one, and the request neither succeeds nor is left pending. */
  predicate Fails(s: Step, answer: RequestStatus) {
    s.compensateOperation.Some? && !answer.Succeeded? && !answer.Pending?
  }

  /** What becomes of a step that begins its compensation. When the dispatcher is hooked, the hook has moved the
      execution to review before a failed step can be marked, so it stays compensating. */
  predicate ComesOut(o: Step, s: Step, answer: RequestStatus, hooked: bool) {
    && SameTemplate(o, s)
    && if Fails(o, answer) then
         (if hooked && (answer.Failed? || answer.ManualReview?) then s.status.Compensating? else s.status.Failed?)
       else if o.compensateOperation.None? || answer.Succeeded? then s.status.Compensated?
       else s.status.Compensating?
  }

  /** The order in which the succeeded steps of `e` are to be compensated. */
  function UnwindOrder(e: Execution): (r: seq<nat>)
  {
    SucceededInReverse(e.steps, |e.steps|)
  }

  /** How many steps of the order begin: all, or up to the first one whose compensation fails. */
  function Reach(steps: seq<Step>, answers: seq<RequestStatus>, order: seq<nat>): (n: nat)
    requires |answers| == |steps|
    ensures n <= |order|
  {
    if order == [] then 0
    else if order[0] < |steps| && Fails(steps[order[0]], answers[order[0]]) then 1
    else 1 + Reach(steps, answers, order[1..])
  }

  /** The steps an unwind begins, in order. */
  function Begun(e: Execution, answers: seq<RequestStatus>): (r: seq<nat>)
    requires |answers| == |e.steps|
  {
    UnwindOrder(e)[..Reach(e.steps, answers, UnwindOrder(e))]
  }

  /** The steps a continuation begins: none unless the execution is compensating. */
  function Starts(e: Execution, answers: seq<RequestStatus>): (r: seq<nat>)
    requires |answers| == |e.steps|
  {
    if e.status.Compensating? then Begun(e, answers) else []
  }

  /** The steps that begin after step `i` has come out of its compensation as `s`. */
  function StartsAfter(e: Execution, i: nat, s: Step, answers: seq<RequestStatus>): (r: seq<nat>)
    requires i < |e.steps| == |answers|
  {
    if Fails(e.steps[i], answers[i]) then [] else Begun(Replaced(e, i, s), answers)
  }

  predicate Halts(e: Execution, answers: seq<RequestStatus>)
    requires |answers| == |e.steps|
  {
    exists i :: i in UnwindOrder(e) && i < |e.steps| && Fails(e.steps[i], answers[i])
  }

  function Ended(e: Execution): (r: WorkflowStatus)
  {
    if !UnwindFinished(e.steps) then e.status
    else if IsSet(e.cancelReason) then WorkflowStatus.Cancelled
    else WorkflowStatus.Compensated
  }

  /** The outcome of a whole unwind from `e` with nothing interleaved, given how each compensation request is answered.
      Exactly the steps up to the first failure begin and come out as their answers say; a failure leaves the execution
      in review; otherwise it ends unless some step is still under way. */
  predicate UnwoundTo(e: Execution, f: Execution, answers: seq<RequestStatus>, hooked: bool)
    requires |answers| == |e.steps|
  {
    if !e.status.Compensating? then f == e
    else
      && |f.steps| == |e.steps| && f == e.(steps := f.steps, status := f.status)
      && (forall i :: 0 <= i < |e.steps| ==>
            if i in Begun(e, answers) then ComesOut(e.steps[i], f.steps[i], answers[i], hooked)
            else f.steps[i] == e.steps[i])
      && f.status == if Halts(e, answers) then WorkflowStatus.ManualReview else Ended(f.(status := e.status))
  }

  function CountSucceeded(steps: seq<Step>): (r: nat)
  {
    if steps == [] then 0 else (if steps[0].status.Succeeded? then 1 else 0) + CountSucceeded(steps[1..])
  }

  lemma {:induction false} CountUpdate(steps: seq<Step>, i: nat, s: Step)
    requires i < |steps|
    ensures CountSucceeded(steps[i := s]) ==
            CountSucceeded(steps) - (if steps[i].status.Succeeded? then 1 else 0) +
            (if s.status.Succeeded? then 1 else 0)
  {
    if i == 0 {
      assert steps[i := s][1..] == steps[1..];
    } else {
      assert steps[i := s][1..] == steps[1..][i - 1 := s];
      CountUpdate(steps[1..], i - 1, s);
    }
  }

  /** Every request named by a step is older than `next`. */
  predicate IdsBelow(steps: seq<Step>, next: nat) {
    forall i :: 0 <= i < |steps| ==>
      (steps[i].requestId.Some? ==> steps[i].requestId.value < next) &&
      (steps[i].compensationId.Some? ==> steps[i].compensationId.value < next)
  }

  class WorkflowOrchestrator {
    var row: Execution
    var clock: int
    var nextId: nat
    /** The order in which steps began their compensation. */
    ghost var begun: seq<nat>
    /** The dispatcher notifies `on_request_terminal`, as the composition root wires it. */
    const hooked: bool

    constructor (row: Execution, clock: int, nextId: nat, hooked: bool)
      ensures this.row == row && this.clock == clock && this.nextId == nextId && this.hooked == hooked && begun == []
    {
      this.row, this.clock, this.nextId, this.hooked, this.begun := row, clock, nextId, hooked, [];
    }

    method Now() returns (now: int)
      modifies this`clock
      ensures now == clock && clock > old(clock)
    {
      clock := clock + 1;
      now := clock;
    }

    method NewId() returns (id: RequestId)
      modifies this`nextId
      ensures id == old(nextId) && nextId == id + 1
    {
      id := nextId;
      nextId := nextId + 1;
    }

    // ----- single transactions -----

    method CancelTransaction(reason: Option<string>, now: int) returns (raised: bool)
      modifies this`row
      ensures raised <==> Cancel(old(row), reason, now).Raised?
      ensures row == if raised then old(row) else Cancel(old(row), reason, now).value
    {
      var execution := new WorkflowExecution.Load(row);
      if execution.status.Cancelled? {
        return false;
      }
      if execution.status.Succeeded? || execution.status.Compensated? || execution.status.Failed? ||
          execution.status.DeadLettered? {
        return true;
      }
      execution.cancelReason := Some(Or(Stated(reason), Or(execution.cancelReason, ClientCancelled)));
      if execution.status.Compensating? {
        row := execution.Value();
        return false;
      }
      execution.WithdrawSteps(now);
      if AnySucceeded(execution.steps) {
        raised := execution.TransitionTo(WorkflowStatus.Compensating);
      } else {
        raised := execution.TransitionTo(WorkflowStatus.Cancelled);
      }
      if !raised {
        row := execution.Value();
      }
    }

    method EnforceDeadlineTransaction(now: int) returns (raised: bool)
      modifies this`row
      ensures raised <==> EnforceDeadline(old(row), now).Raised?
      ensures row == if raised then old(row) else EnforceDeadline(old(row), now).value
    {
      var execution := new WorkflowExecution.Load(row);
      if execution.status.IsTerminal() || execution.status.Compensating? || execution.status.ManualReview? ||
          execution.status.TimedOut? {
        if execution.deadlineProcessedAt.Some? {
          return false;
        }
      }
      if !IsPastDeadline(execution.Value(), now) {
        return false;
      }
      if execution.deadlineProcessedAt.Some? {
        return false;
      }
      execution.deadlineProcessedAt := Some(now);
      execution.ExpireSteps(now);
      raised := execution.TransitionTo(WorkflowStatus.TimedOut);
      if raised {
        return;
      }
      if AnySucceeded(execution.steps) {
        raised := execution.TransitionTo(WorkflowStatus.Compensating);
      } else {
        raised := execution.TransitionTo(WorkflowStatus.Cancelled);
        execution.cancelReason := Some(Or(execution.cancelReason, DeadlineExceeded));
      }
      row := execution.Value();
    }

    method AdvanceTransaction(done: set<RequestId>, now: int) returns (raised: bool)
      modifies this`row
      ensures raised <==> Advance(old(row), done, now).Raised?
      ensures row == if raised then old(row) else Advance(old(row), done, now).value
    {
      var execution := new WorkflowExecution.Load(row);
      if execution.status.IsTerminal() || execution.status.ManualReview? {
        return false;
      }
      if IsPastDeadline(execution.Value(), now) && execution.deadlineProcessedAt.None? &&
          !execution.status.Compensating? {
        return false;
      }
      if execution.status.Queued? {
        raised := execution.TransitionTo(WorkflowStatus.Running);
      }
      execution.ResumeWaiting(done, now);
      raised := execution.PromoteReadySteps(now);
      if raised {
        return;
      }
      raised := execution.RefreshStatus(now);
      if !raised {
        row := execution.Value();
      }
    }

    method HookTransaction(id: RequestId, status: RequestStatus, now: int) returns (raised: bool)
      modifies this`row
      ensures raised <==> Hook(old(row), id, status, now).Raised?
      ensures row == if raised then old(row) else Hook(old(row), id, status, now).value
    {
      var execution := new WorkflowExecution.Load(row);
      var found := StepForRequest(execution.steps, id);
      if found.None? || !IsHooked(status) {
        return false;
      }
      var i := found.value;
      var step := execution.steps[i];
      if step.status.Running? || step.status.Waiting? || step.status.Compensating? {
        if status.Succeeded? {
          if step.status.Compensating? {
            step := MoveStep(step.(compensationId := Some(id)), StepStatus.Compensated, now).value;
          } else {
            step := MoveStep(step.(requestId := Some(id)), StepStatus.Succeeded, now).value;
          }
        } else if status.Failed? || status.ManualReview? {
          if step.status.Compensating? {
            if execution.status.Compensating? {
              raised := execution.TransitionTo(WorkflowStatus.ManualReview);
            }
          } else {
            step := MoveStep(step, StepStatus.Failed, now).value;
          }
        } else {
          var moved := MoveStep(step, StepStatus.Cancelled, now);
          if moved.Raised? {
            return true;
          }
          step := moved.value;
        }
      }
      execution.steps := execution.steps[i := step];
      raised := execution.RefreshStatus(now);
      if !raised {
        row := execution.Value();
      }
    }

    /** The first transaction of `_run_forward_step`: at most one request is created, and only
        for a ready step of an execution that still runs forward. */
    method StartForwardTransaction(i: nat, now: int) returns (created: Option<RequestId>)
      requires i < |row.steps|
      modifies this`row, this`nextId
      ensures created.Some? <==> StartsForward(old(row), i, now)
      ensures created.Some? ==> created.value == old(nextId) && row == StartForward(old(row), i, created.value, now)
      ensures created.None? ==> row == old(row)
    {
      var step := row.steps[i];
      if !step.status.Ready? {
        return None;
      }
      if row.status.Cancelled? || row.status.Compensating? || row.status.ManualReview? || row.status.TimedOut? ||
          row.status.IsTerminal() {
        return None;
      }
      if IsPastDeadline(row, now) && row.deadlineProcessedAt.None? {
        return None;
      }
      var id := NewId();
      step := MoveStep(step.(attemptCount := step.attemptCount + 1), StepStatus.Running, now).value;
      row := row.(steps := row.steps[i := step.(requestId := Some(id))]);
      return Some(id);
    }

    // ----- the unwind -----

    /** `_continue_compensation`: begin the latest succeeded step and hand it to `CompensateStep`, or finish. With
        nothing interleaved it unwinds everything, in exactly the reverse of the completion order, up to the first
        failure. */
    method ContinueCompensation(answers: seq<RequestStatus>)
      requires Supplied(row, answers, nextId)
      modifies this
      ensures UnwoundTo(old(row), row, answers, hooked)
      ensures begun == old(begun) + Starts(old(row), answers)
      ensures Supplied(row, answers, nextId) && nextId >= old(nextId)
      decreases CountSucceeded(row.steps), 0
    {
      if !row.status.Compensating? {
        return;
      }
      ghost var before := row;
      var next := NextToCompensate(row.steps);
      if next.Some? {
        var i := next.value;
        BeginLatest(i, answers);
        ghost var mid := row;
        ghost var s := CompensateStep(i, answers);
        UnwoundThrough(before, mid, i, s, row, answers, hooked);
        Joined(old(begun), i, StartsAfter(mid, i, s, answers));
      } else {
        FinishUnwind();
        NothingBegins(before, row, answers, hooked);
      }
    }

    /** The transaction that marks the latest succeeded step as compensating. */
    method BeginLatest(i: nat, answers: seq<RequestStatus>)
      requires Supplied(row, answers, nextId) && NextToCompensate(row.steps) == Some(i)
      modifies this
      ensures nextId == old(nextId) && Supplied(row, answers, nextId)
      ensures i < |row.steps| && row == old(row).(steps := old(row).steps[i := row.steps[i]])
      ensures row.steps[i].status.Compensating? && SameTemplate(old(row).steps[i], row.steps[i])
      ensures begun == old(begun) + [i] && CountSucceeded(row.steps) == CountSucceeded(old(row).steps) - 1
    {
      var now := Now();
      var s := MoveStep(row.steps[i], StepStatus.Compensating, now).value;
      CountUpdate(row.steps, i, s);
      row := row.(steps := row.steps[i := s]);
      begun := begun + [i];
    }

    /** No succeeded step is left: the execution ends, cancelled or compensated, unless some step is still under way. */
    method FinishUnwind()
      requires row.status.Compensating? && NextToCompensate(row.steps).None?
      modifies this`row
      ensures forall now :: Continue(old(row), now) == Ok(row)
      ensures row == old(row).(status := Ended(old(row)))
    {
      if UnwindFinished(row.steps) {
        row := row.(status := if IsSet(row.cancelReason) then WorkflowStatus.Cancelled else WorkflowStatus.Compensated);
      }
    }

    /** `_compensate_step`: claim, dispatch, let the hook run if there is one, settle, and go on with the unwind. The
        settling transaction raises when the hook has settled the step or the execution first; then nothing more is
        committed here. */
    method CompensateStep(i: nat, answers: seq<RequestStatus>) returns (ghost s: Step)
      requires Supplied(row, answers, nextId) && i < |row.steps|
      requires row.status.Compensating? && row.steps[i].status.Compensating?
      modifies this
      ensures ComesOut(old(row).steps[i], s, answers[i], hooked)
      ensures Compensates(old(row), i, s, row, answers, hooked)
      ensures begun == old(begun) + StartsAfter(old(row), i, s, answers)
      ensures Supplied(row, answers, nextId) && nextId >= old(nextId)
      decreases CountSucceeded(row.steps), 4
    {
      if row.steps[i].compensateOperation.None? {
        s := CompensateAtOnce(i, answers);
        return;
      }
      s := CompensateByRequest(i, answers);
    }

    /** A step with a compensating operation: claim, dispatch, settle. */
    method CompensateByRequest(i: nat, answers: seq<RequestStatus>) returns (ghost s: Step)
      requires Supplied(row, answers, nextId) && i < |row.steps|
      requires row.status.Compensating? && row.steps[i].status.Compensating? && row.steps[i].compensateOperation.Some?
      modifies this
      ensures ComesOut(old(row).steps[i], s, answers[i], hooked)
      ensures Compensates(old(row), i, s, row, answers, hooked)
      ensures begun == old(begun) + StartsAfter(old(row), i, s, answers)
      ensures Supplied(row, answers, nextId) && nextId >= old(nextId)
      decreases CountSucceeded(row.steps), 3
    {
      ghost var before, soFar := row, begun;
      var id := Claim(i, answers);
      ghost var claimed := row;
      ghost var told := Notify(i, id, answers);
      ghost var middle := begun;
      s := SettleAndContinue(before, claimed, i, id, told, answers);
      StartedInAll(soFar, middle, begun, NotifiedStarts(claimed, i, told, answers, hooked),
                   StartsAfter(before, i, s, answers), Preempted(answers[i], hooked));
    }

    /** The settling transaction and the continuation after it, once the hook has had its say. */
    method SettleAndContinue(ghost before: Execution, ghost claimed: Execution, i: nat, id: RequestId, ghost told: Step,
                             answers: seq<RequestStatus>) returns (ghost s: Step)
      requires Supplied(row, answers, nextId) && id < nextId && i < |before.steps| == |row.steps|
      requires before.status.Compensating? && before.steps[i].status.Compensating?
      requires before.steps[i].compensateOperation.Some?
      requires claimed == Replaced(before, i, before.steps[i].(compensationId := Some(id)))
      requires CountSucceeded(claimed.steps) == CountSucceeded(before.steps)
      requires Notified(claimed, i, told, row, answers, hooked)
      modifies this
      ensures ComesOut(before.steps[i], s, answers[i], hooked)
      ensures Compensates(before, i, s, row, answers, hooked)
      ensures if Preempted(answers[i], hooked)
              then
                && begun == old(begun)
                && NotifiedStarts(claimed, i, told, answers, hooked) == StartsAfter(before, i, s, answers)
              else begun == old(begun) + StartsAfter(before, i, s, answers)
      ensures Supplied(row, answers, nextId) && nextId >= old(nextId)
      decreases CountSucceeded(before.steps), 1
    {
      var now := Now();
      NotifiedThenSettled(before, claimed, i, id, told, row, answers, hooked, now);
      SettleKeepsIds(row, i, id, answers[i], now, nextId);
      var raised := SettleTransaction(i, id, answers[i], now);
      if raised {
        s := told;
      } else {
        s := row.steps[i];
        SettledStarts(before, row, i, answers);
        ContinueCompensation(answers);
      }
    }

    /** A step without a compensating operation is compensated on the spot. */
    method CompensateAtOnce(i: nat, answers: seq<RequestStatus>) returns (ghost s: Step)
      requires Supplied(row, answers, nextId) && i < |row.steps|
      requires row.status.Compensating? && row.steps[i].status.Compensating? && row.steps[i].compensateOperation.None?
      modifies this
      ensures SameTemplate(old(row).steps[i], s) && s.status.Compensated?
      ensures UnwoundTo(Replaced(old(row), i, s), row, answers, hooked)
      ensures begun == old(begun) + Begun(Replaced(old(row), i, s), answers)
      ensures Supplied(row, answers, nextId) && nextId >= old(nextId)
      decreases CountSucceeded(row.steps), 1
    {
      var now := Now();
      var done := MoveStep(row.steps[i].(compensationId := None), StepStatus.Compensated, now).value;
      CountUpdate(row.steps, i, done);
      row := row.(steps := row.steps[i := done]);
      s := done;
      ContinueCompensation(answers);
    }

    /** The first transaction of a compensation: its request is created and recorded on the step. */
    method Claim(i: nat, answers: seq<RequestStatus>) returns (id: RequestId)
      requires Supplied(row, answers, nextId) && i < |row.steps|
      modifies this`row, this`nextId
      ensures id == old(nextId) && nextId == id + 1 && Supplied(row, answers, nextId)
      ensures row == Replaced(old(row), i, old(row).steps[i].(compensationId := Some(id)))
      ensures StepForRequest(row.steps, id) == Some(i)
      ensures CountSucceeded(row.steps) == CountSucceeded(old(row).steps)
    {
      id := NewId();
      var claimed := row.steps[i].(compensationId := Some(id));
      FindsClaimed(row.steps, i, claimed, id);
      CountUpdate(row.steps, i, claimed);
      row := row.(steps := row.steps[i := claimed]);
    }

    /** The last transaction of a compensation. */
    method SettleTransaction(i: nat, id: RequestId, status: RequestStatus, now: int) returns (raised: bool)
      requires i < |row.steps|
      modifies this`row
      ensures raised <==> SettleCompensation(old(row), i, id, status, now).Raised?
      ensures row == if raised then old(row) else SettleCompensation(old(row), i, id, status, now).value
    {
      var execution := new WorkflowExecution.Load(row);
      var step := execution.steps[i];
      if status.Succeeded? {
        var done := MoveStep(step.(compensationId := Some(id)), StepStatus.Compensated, now);
        if done.Raised? {
          return true;
        }
        execution.steps := execution.steps[i := done.value];
      } else if !status.Pending? {
        var failed := MoveStep(step, StepStatus.Failed, now);
        if failed.Raised? {
          return true;
        }
        execution.steps := execution.steps[i := failed.value];
        raised := execution.TransitionTo(WorkflowStatus.ManualReview);
        if raised {
          return;
        }
      }
      row := execution.Value();
      raised := false;
    }

    /** `on_request_terminal`: apply the report to the step that names the request, then go on with an unwind. When the
        execution runs forward again, advancing it is left to the caller. */
    method OnRequestTerminal(id: RequestId, status: RequestStatus, now: int, answers: seq<RequestStatus>)
      returns (advances: bool)
      requires Supplied(row, answers, nextId) && id < nextId
      modifies this
      ensures Supplied(row, answers, nextId) && nextId >= old(nextId)
      ensures Hook(old(row), id, status, now).Ok? ==> |Hook(old(row), id, status, now).value.steps| == |answers|
      ensures var h := Hook(old(row), id, status, now);
              if !Linked(old(row), id, status) || h.Raised? then row == old(row) && begun == old(begun) && !advances
              else
                && UnwoundTo(h.value, row, answers, hooked)
                && begun == old(begun) + Starts(h.value, answers)
                && (advances <==> h.value.status.Running?)
      decreases CountAfter(row, id, status, now), 1
    {
      HookKeepsIds(row, id, status, now, nextId);
      if !Linked(row, id, status) {
        return false;
      }
      var raised := HookTransaction(id, status, now);
      if raised {
        return false;
      }
      advances := row.status.Running?;
      ContinueCompensation(answers);
    }

    /** A hooked dispatcher tells how the compensation request ended before its caller settles it; an exception of the
        hook is logged and dropped. */
    method Notify(i: nat, id: RequestId, answers: seq<RequestStatus>) returns (ghost s: Step)
      requires Supplied(row, answers, nextId) && id < nextId && StepForRequest(row.steps, id) == Some(i)
      requires row.status.Compensating? && row.steps[i].status.Compensating? && row.steps[i].compensateOperation.Some?
      modifies this
      ensures Supplied(row, answers, nextId) && nextId >= old(nextId)
      ensures Notified(old(row), i, s, row, answers, hooked)
      ensures begun == old(begun) + NotifiedStarts(old(row), i, s, answers, hooked)
      decreases CountSucceeded(row.steps), 2
    {
      s := row.steps[i];
      if hooked {
        ghost var before := row;
        var now := Now();
        HookInUnwind(row, i, id, answers[i], now);
        HookKeepsCount(row, i, id, answers[i], now);
        var advances := OnRequestTerminal(id, answers[i], now, answers);
        if answers[i].Succeeded? {
          s := MoveStep(before.steps[i].(compensationId := Some(id)), StepStatus.Compensated, now).value;
        }
      }
    }
  }

  // ----- what the methods rely on -----

  /** An answer for each step's compensation, and identifiers that are still fresh. */
  predicate Supplied(e: Execution, answers: seq<RequestStatus>, nextId: nat) {
    |answers| == |e.steps| && IdsBelow(e.steps, nextId)
  }

  function Replaced(e: Execution, i: nat, s: Step): (r: Execution)
    requires i < |e.steps|
  {
    e.(steps := e.steps[i := s])
  }

  /** The report ends a request that some step names. */
  predicate Linked(e: Execution, id: RequestId, status: RequestStatus) {
    IsHooked(status) && StepForRequest(e.steps, id).Some?
  }

  function CountAfter(e: Execution, id: RequestId, status: RequestStatus, now: int): (r: nat)
  {
    var h := Hook(e, id, status, now);
    if h.Ok? then CountSucceeded(h.value.steps) else CountSucceeded(e.steps)
  }

  /** Step `i` came out of its compensation as `s`, and the rest was unwound from there unless it failed. */
  predicate Compensates(e: Execution, i: nat, s: Step, f: Execution, answers: seq<RequestStatus>, hooked: bool)
    requires i < |e.steps| == |answers|
  {
    if Fails(e.steps[i], answers[i]) then f == Replaced(e, i, s).(status := WorkflowStatus.ManualReview)
    else UnwoundTo(Replaced(e, i, s), f, answers, hooked)
  }

  /** What the hook has done by the time the caller settles: completed the step and unwound the rest, moved the
      execution to review, or nothing. */
  predicate Notified(e: Execution, i: nat, s: Step, f: Execution, answers: seq<RequestStatus>, hooked: bool)
    requires i < |e.steps| == |answers|
  {
    if hooked && answers[i].Succeeded? then
      && SameTemplate(e.steps[i], s) && s.status.Compensated?
      && UnwoundTo(Replaced(e, i, s), f, answers, hooked)
    else
      && s == e.steps[i]
      && f == if hooked && (answers[i].Failed? || answers[i].ManualReview?)
              then e.(status := WorkflowStatus.ManualReview) else e
  }

  lemma HookCompensates(s: Step, id: RequestId, now: int)
    requires s.status.Compensating?
    ensures HookStep(s, id, RequestStatus.Succeeded, now) ==
            MoveStep(s.(compensationId := Some(id)), StepStatus.Compensated, now)
    ensures HookStep(s, id, RequestStatus.Succeeded, now).Ok?
  {
  }

  lemma RefreshInUnwind(e: Execution, now: int)
    requires e.status.Compensating? || e.status.ManualReview?
    ensures Refresh(e, now) == Ok(e)
  {
  }

  lemma HookSucceeds(e: Execution, i: nat, id: RequestId, now: int)
    requires e.status.Compensating? && StepForRequest(e.steps, id) == Some(i) && e.steps[i].status.Compensating?
    ensures MoveStep(e.steps[i].(compensationId := Some(id)), StepStatus.Compensated, now).Ok?
    ensures Hook(e, id, RequestStatus.Succeeded, now) ==
            Ok(Replaced(e, i, MoveStep(e.steps[i].(compensationId := Some(id)), StepStatus.Compensated, now).value))
  {
    HookCompensates(e.steps[i], id, now);
    RefreshInUnwind(Replaced(e, i, HookStep(e.steps[i], id, RequestStatus.Succeeded, now).value), now);
  }

  lemma HookEscalatesUnwind(e: Execution, i: nat, id: RequestId, status: RequestStatus, now: int)
    requires e.status.Compensating? && StepForRequest(e.steps, id) == Some(i) && e.steps[i].status.Compensating?
    requires status.Failed? || status.ManualReview?
    ensures Hook(e, id, status, now) == Ok(e.(status := WorkflowStatus.ManualReview))
  {
    assert HookStep(e.steps[i], id, status, now) == Ok(e.steps[i]);
    assert e.steps[i := e.steps[i]] == e.steps;
    RefreshInUnwind(e.(status := WorkflowStatus.ManualReview), now);
  }

  lemma HookRefuses(e: Execution, i: nat, id: RequestId, status: RequestStatus, now: int)
    requires StepForRequest(e.steps, id) == Some(i) && e.steps[i].status.Compensating?
    requires !status.Succeeded? && !status.Failed? && !status.ManualReview?
    ensures Hook(e, id, status, now) == if status.Cancelled? then Raised else Ok(e)
  {
    if status.Cancelled? {
      assert HookStep(e.steps[i], id, status, now).Raised?;
    }
  }

  /** What a report about its compensation does to an execution that is unwinding. */
  lemma HookInUnwind(e: Execution, i: nat, id: RequestId, status: RequestStatus, now: int)
    requires e.status.Compensating? && StepForRequest(e.steps, id) == Some(i) && e.steps[i].status.Compensating?
    ensures MoveStep(e.steps[i].(compensationId := Some(id)), StepStatus.Compensated, now).Ok?
    ensures Hook(e, id, status, now) ==
            if status.Succeeded? then
              Ok(Replaced(e, i, MoveStep(e.steps[i].(compensationId := Some(id)), StepStatus.Compensated, now).value))
            else if status.Failed? || status.ManualReview? then Ok(e.(status := WorkflowStatus.ManualReview))
            else if status.Cancelled? then Raised
            else Ok(e)
  {
    HookSucceeds(e, i, id, now);
    if status.Failed? || status.ManualReview? {
      HookEscalatesUnwind(e, i, id, status, now);
    } else if !status.Succeeded? {
      HookRefuses(e, i, id, status, now);
    }
  }

  lemma HookKeepsCount(e: Execution, i: nat, id: RequestId, status: RequestStatus, now: int)
    requires e.status.Compensating? && StepForRequest(e.steps, id) == Some(i) && e.steps[i].status.Compensating?
    ensures CountAfter(e, id, status, now) == CountSucceeded(e.steps)
  {
    HookInUnwind(e, i, id, status, now);
    if status.Succeeded? {
      CountUpdate(e.steps, i, MoveStep(e.steps[i].(compensationId := Some(id)), StepStatus.Compensated, now).value);
    }
  }

  lemma RefreshKeepsIds(e: Execution, now: int, nextId: nat)
    requires Refresh(e, now).Ok? && IdsBelow(e.steps, nextId)
    ensures |Refresh(e, now).value.steps| == |e.steps| && IdsBelow(Refresh(e, now).value.steps, nextId)
  {
  }

  lemma HookKeepsIds(e: Execution, id: RequestId, status: RequestStatus, now: int, nextId: nat)
    requires IdsBelow(e.steps, nextId) && id < nextId
    ensures Hook(e, id, status, now).Ok? ==>
              |Hook(e, id, status, now).value.steps| == |e.steps| &&
              IdsBelow(Hook(e, id, status, now).value.steps, nextId)
  {
    var found := StepForRequest(e.steps, id);
    if Hook(e, id, status, now).Ok? && IsHooked(status) && found.Some? {
      var s := HookStep(e.steps[found.value], id, status, now).value;
      var moved := Replaced(e, found.value, s);
      if HookEscalates(e, e.steps[found.value], status) {
        moved := moved.(status := WorkflowStatus.ManualReview);
      }
      RefreshKeepsIds(moved, now, nextId);
    }
  }

  lemma SettleKeepsIds(e: Execution, i: nat, id: RequestId, status: RequestStatus, now: int, nextId: nat)
    requires i < |e.steps| && IdsBelow(e.steps, nextId) && id < nextId
    ensures var f := SettleCompensation(e, i, id, status, now);
            f.Ok? ==> |f.value.steps| == |e.steps| && IdsBelow(f.value.steps, nextId)
  {
  }

  /** The hook has settled the step, or the execution, before the caller does. */
  predicate Preempted(answer: RequestStatus, hooked: bool) {
    hooked && (answer.Succeeded? || answer.Failed? || answer.ManualReview?)
  }

  /** The steps the hook has begun. */
  function NotifiedStarts(e: Execution, i: nat, s: Step, answers: seq<RequestStatus>, hooked: bool): (r: seq<nat>)
    requires i < |e.steps| == |answers|
  {
    if hooked && answers[i].Succeeded? then Begun(Replaced(e, i, s), answers) else []
  }

  /** Settling a claimed step of an unwind goes through, and leaves what its answer says. */
  lemma SettledInUnwind(e: Execution, c: Execution, i: nat, id: RequestId, answer: RequestStatus, hooked: bool,
                        now: int)
    requires i < |e.steps| && e.status.Compensating? && e.steps[i].status.Compensating?
    requires e.steps[i].compensateOperation.Some? && c == Replaced(e, i, e.steps[i].(compensationId := Some(id)))
    requires !Preempted(answer, hooked)
    ensures SettleCompensation(c, i, id, answer, now).Ok?
    ensures var f := SettleCompensation(c, i, id, answer, now).value;
            && i < |f.steps| && ComesOut(e.steps[i], f.steps[i], answer, hooked)
            && f == Replaced(e, i, f.steps[i]).(
                 status := if Fails(e.steps[i], answer) then WorkflowStatus.ManualReview else e.status)
            && CountSucceeded(f.steps) == CountSucceeded(c.steps)
  {
    var s := c.steps[i];
    CountUpdate(c.steps, i, MoveStep(s.(compensationId := Some(id)), StepStatus.Compensated, now).value);
    CountUpdate(c.steps, i, MoveStep(s, StepStatus.Failed, now).value);
  }

  /** Once the hook has settled the step or the execution, settling raises. */
  lemma SettleRaises(f: Execution, i: nat, id: RequestId, answer: RequestStatus, now: int)
    requires i < |f.steps|
    requires (answer.Succeeded? && f.steps[i].status.Compensated?) ||
             ((answer.Failed? || answer.ManualReview?) && f.status.ManualReview?)
    ensures SettleCompensation(f, i, id, answer, now).Raised?
  {
  }

  lemma PreemptedComesOut(e: Execution, c: Execution, i: nat, s: Step, f: Execution, answers: seq<RequestStatus>)
    requires i < |e.steps| == |answers| && e.status.Compensating? && e.steps[i].status.Compensating?
    requires e.steps[i].compensateOperation.Some? && |c.steps| == |e.steps| && c == Replaced(e, i, c.steps[i])
    requires SameTemplate(e.steps[i], c.steps[i]) && c.steps[i].status.Compensating?
    requires Notified(c, i, s, f, answers, true) && Preempted(answers[i], true)
    ensures ComesOut(e.steps[i], s, answers[i], true) && Compensates(e, i, s, f, answers, true)
    ensures Replaced(c, i, s) == Replaced(e, i, s)
    ensures i < |f.steps| && (answers[i].Succeeded? ==> f.steps[i].status.Compensated?)
  {
    assert Replaced(c, i, s) == Replaced(e, i, s);
    if answers[i].Succeeded? && i in Begun(Replaced(c, i, s), answers) {
      BegunSucceeded(Replaced(c, i, s), answers, i);
    }
  }

  /** After settling, the continuation begins what is left to begin, and leaves a failed unwind alone. */
  lemma SettledStarts(e: Execution, f: Execution, i: nat, answers: seq<RequestStatus>)
    requires i < |e.steps| == |answers| == |f.steps| && e.status.Compensating?
    requires f == Replaced(e, i, f.steps[i]).(
               status := if Fails(e.steps[i], answers[i]) then WorkflowStatus.ManualReview else e.status)
    ensures Starts(f, answers) == StartsAfter(e, i, f.steps[i], answers)
    ensures forall g, hooked :: UnwoundTo(f, g, answers, hooked) ==> Compensates(e, i, f.steps[i], g, answers, hooked)
  {
    if !Fails(e.steps[i], answers[i]) {
      assert f == Replaced(e, i, f.steps[i]);
    }
  }

  /** What the settling transaction meets after the hook, and what it leaves. */
  lemma NotifiedThenSettled(e: Execution, c: Execution, i: nat, id: RequestId, s: Step, f: Execution,
                            answers: seq<RequestStatus>, hooked: bool, now: int)
    requires i < |e.steps| == |answers| && e.status.Compensating? && e.steps[i].status.Compensating?
    requires e.steps[i].compensateOperation.Some? && c == Replaced(e, i, e.steps[i].(compensationId := Some(id)))
    requires Notified(c, i, s, f, answers, hooked)
    ensures i < |f.steps|
    ensures var settled := SettleCompensation(f, i, id, answers[i], now);
            if Preempted(answers[i], hooked) then
              && settled.Raised? && ComesOut(e.steps[i], s, answers[i], hooked)
              && Compensates(e, i, s, f, answers, hooked)
              && NotifiedStarts(c, i, s, answers, hooked) == StartsAfter(e, i, s, answers)
            else
              && settled.Ok? && f == c && i < |settled.value.steps|
              && ComesOut(e.steps[i], settled.value.steps[i], answers[i], hooked)
              && settled.value == Replaced(e, i, settled.value.steps[i]).(
                   status := if Fails(e.steps[i], answers[i]) then WorkflowStatus.ManualReview else e.status)
              && CountSucceeded(settled.value.steps) == CountSucceeded(c.steps)
  {
    if Preempted(answers[i], hooked) {
      PreemptedComesOut(e, c, i, s, f, answers);
      SettleRaises(f, i, id, answers[i], now);
    } else {
      SettledInUnwind(e, c, i, id, answers[i], hooked, now);
    }
  }

  lemma FindsClaimed(steps: seq<Step>, i: nat, claimed: Step, id: RequestId)
    requires i < |steps| && IdsBelow(steps, id) && claimed == steps[i].(compensationId := Some(id))
    ensures StepForRequest(steps[i := claimed], id) == Some(i)
  {
    var t := steps[i := claimed];
    assert NamesRequest(t[i], id);
    assert forall j :: 0 <= j < |t| && j != i ==> !NamesRequest(t[j], id);
  }

  lemma StartedInAll(before: seq<nat>, middle: seq<nat>, after: seq<nat>, told: seq<nat>, all: seq<nat>,
                     preempted: bool)
    requires middle == before + told && (!preempted ==> told == [])
    requires if preempted then after == middle && told == all else after == middle + all
    ensures after == before + all
  {
  }

  lemma Joined(before: seq<nat>, i: nat, rest: seq<nat>)
    ensures before + [i] + rest == before + ([i] + rest)
  {
  }

  lemma NothingBegins(e: Execution, f: Execution, answers: seq<RequestStatus>, hooked: bool)
    requires e.status.Compensating? && NextToCompensate(e.steps).None? && |answers| == |e.steps|
    requires f == e.(status := Ended(e))
    ensures Starts(e, answers) == [] && UnwoundTo(e, f, answers, hooked)
  {
    assert UnwindOrder(e) == [];
    assert f.(status := e.status) == e;
  }

  /** How far the unwind gets depends only on the templates of the steps in the order. */
  lemma {:induction false} ReachSame(a: seq<Step>, b: seq<Step>, answers: seq<RequestStatus>, order: seq<nat>)
    requires |a| == |b| == |answers|
    requires forall i :: i in order && i < |a| ==> b[i].compensateOperation == a[i].compensateOperation
    ensures Reach(a, answers, order) == Reach(b, answers, order)
  {
    if order != [] {
      assert order[0] in order && forall i :: i in order[1..] ==> i in order;
      ReachSame(a, b, answers, order[1..]);
    }
  }

  /** The head begins; unless it fails the others begin as they would without it. */
  lemma BegunAfter(e: Execution, i: nat, s: Step, answers: seq<RequestStatus>)
    requires |answers| == |e.steps| && NextToCompensate(e.steps) == Some(i) && !s.status.Succeeded?
    requires s.compensateOperation == e.steps[i].compensateOperation
    ensures var g := Replaced(e, i, s);
            Begun(e, answers) == if Fails(e.steps[i], answers[i]) then [i] else [i] + Begun(g, answers)
    ensures UnwindOrder(e) == [i] + UnwindOrder(Replaced(e, i, s))
  {
    var rest := UnwindOrder(Replaced(e, i, s));
    NextTaken(e.steps, s);
    assert ([i] + rest)[1..] == rest;
    ReachSame(e.steps, e.steps[i := s], answers, rest);
    assert Reach(e.steps, answers, [i] + rest) ==
           if Fails(e.steps[i], answers[i]) then 1 else 1 + Reach(e.steps, answers, rest);
  }

  lemma HaltsAfter(e: Execution, i: nat, s: Step, answers: seq<RequestStatus>)
    requires |answers| == |e.steps| && NextToCompensate(e.steps) == Some(i) && !s.status.Succeeded?
    requires s.compensateOperation == e.steps[i].compensateOperation
    ensures Halts(e, answers) <==> Fails(e.steps[i], answers[i]) || Halts(Replaced(e, i, s), answers)
  {
    var g := Replaced(e, i, s);
    BegunAfter(e, i, s, answers);
    assert forall j :: j in UnwindOrder(e) <==> j == i || j in UnwindOrder(g);
    if Fails(e.steps[i], answers[i]) {
      assert i in UnwindOrder(e);
    } else if Halts(g, answers) {
      var j :| j in UnwindOrder(g) && j < |g.steps| && Fails(g.steps[j], answers[j]);
      assert j in UnwindOrder(e) && Fails(e.steps[j], answers[j]);
    }
  }

  lemma BegunSucceeded(e: Execution, answers: seq<RequestStatus>, j: nat)
    requires |answers| == |e.steps| && j in Begun(e, answers)
    ensures j < |e.steps| && e.steps[j].status.Succeeded?
  {
    assert j in UnwindOrder(e);
  }

  /** The latest succeeded step began and came out as `s`, and the rest was unwound from there. */
  lemma UnwoundFrom(e: Execution, i: nat, s: Step, f: Execution, answers: seq<RequestStatus>, hooked: bool)
    requires |answers| == |e.steps| && e.status.Compensating? && NextToCompensate(e.steps) == Some(i)
    requires ComesOut(e.steps[i], s, answers[i], hooked)
    requires Compensates(e, i, s, f, answers, hooked)
    ensures UnwoundTo(e, f, answers, hooked)
  {
    var g := Replaced(e, i, s);
    BegunAfter(e, i, s, answers);
    HaltsAfter(e, i, s, answers);
    forall j | 0 <= j < |e.steps|
      ensures if j in Begun(e, answers) then ComesOut(e.steps[j], f.steps[j], answers[j], hooked)
              else f.steps[j] == e.steps[j]
    {
      if !Fails(e.steps[i], answers[i]) && i in Begun(g, answers) {
        BegunSucceeded(g, answers, i);
      }
    }
  }

  /** The same, seen from before the step was marked as compensating. */
  lemma UnwoundThrough(e: Execution, mid: Execution, i: nat, s: Step, f: Execution, answers: seq<RequestStatus>,
                       hooked: bool)
    requires |answers| == |e.steps| == |mid.steps| && e.status.Compensating? && NextToCompensate(e.steps) == Some(i)
    requires mid == Replaced(e, i, mid.steps[i]) && SameTemplate(e.steps[i], mid.steps[i])
    requires ComesOut(mid.steps[i], s, answers[i], hooked) && Compensates(mid, i, s, f, answers, hooked)
    ensures UnwoundTo(e, f, answers, hooked)
    ensures Starts(e, answers) == [i] + StartsAfter(mid, i, s, answers)
  {
    assert Replaced(mid, i, s) == Replaced(e, i, s);
    BegunAfter(e, i, s, answers);
    UnwoundFrom(e, i, s, f, answers, hooked);
  }

  lemma {:induction false} ReachesAll(steps: seq<Step>, answers: seq<RequestStatus>, order: seq<nat>)
    requires |answers| == |steps| && forall i :: i in order && i < |steps| ==> !Fails(steps[i], answers[i])
    ensures Reach(steps, answers, order) == |order|
  {
    if order != [] {
      assert order[0] in order && forall i :: i in order[1..] ==> i in order;
      ReachesAll(steps, answers, order[1..]);
    }
  }

  /** When no compensation fails, every succeeded step begins; each is compensated, or still compensating if its request
      was left pending, every other step is as it was, and the execution ends unless some step is under way. */
  lemma UnwoundWithoutFailure(e: Execution, f: Execution, answers: seq<RequestStatus>, hooked: bool)
    requires |answers| == |e.steps| && e.status.Compensating? && UnwoundTo(e, f, answers, hooked)
    requires forall i :: 0 <= i < |e.steps| && e.steps[i].status.Succeeded? ==> !Fails(e.steps[i], answers[i])
    ensures Begun(e, answers) == UnwindOrder(e) && f.status == Ended(f.(status := e.status))
    ensures forall i :: 0 <= i < |e.steps| ==>
              if !e.steps[i].status.Succeeded? then f.steps[i] == e.steps[i]
              else if e.steps[i].compensateOperation.Some? && answers[i].Pending? then f.steps[i].status.Compensating?
              else f.steps[i].status.Compensated?
  {
    var order := UnwindOrder(e);
    ReachesAll(e.steps, answers, order);
    assert order[..|order|] == order;
    assert !Halts(e, answers);
  }
}
