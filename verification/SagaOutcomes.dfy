/** What each transaction of the orchestrator makes of an execution, stated on statuses, steps and reasons: exactly when
    it raises, which steps move where, and when the execution changes its status. */
module SagaOutcomes {
  import opened Common
  import opened WorkflowStates
  import opened RequestStates
  import opened Workflow
  import opened SagaTransactions
  import opened SagaMachine
  import opened SagaCoherence
  import opened SagaInvariants

  // ----- the status of an execution follows from its steps -----

  predicate Fits(e: Execution) {
    && (e.status.Compensating? <==> AnyFailed(e.steps))
    && (e.status.Waiting? <==> !AnyFailed(e.steps) && AnyWaiting(e.steps))
    && (e.status.Succeeded? <==> AllSucceeded(e.steps))
    && (e.status.Running? <==> !AnyFailed(e.steps) && !AnyWaiting(e.steps) && !AllSucceeded(e.steps))
  }

  /** A refresh gives a running or waiting execution the status its steps call for: compensating once one has failed,
      waiting while one waits, succeeded when all have succeeded, running otherwise. Steps change only when the
      execution stops waiting, and then by promotion. */
  lemma RefreshOutcome(e: Execution, now: int)
    requires (e.status.Running? || e.status.Waiting?) && Refresh(e, now).Ok?
    ensures var f := Refresh(e, now).value;
            && Fits(f) && f == e.(status := f.status, steps := f.steps)
            && f.steps == if e.status.Waiting? && !AnyWaiting(e.steps) && !AnyFailed(e.steps)
                          then Promoted(e.steps, now) else e.steps
  {
    var f := Refresh(e, now).value;
    if AnyFailed(e.steps) {
      var i :| 0 <= i < |e.steps| && e.steps[i].status.Failed?;
      assert !AllSucceeded(f.steps);
    } else if AnyWaiting(e.steps) {
      var i :| 0 <= i < |e.steps| && e.steps[i].status.Waiting?;
      assert !AllSucceeded(f.steps);
    } else {
      forall i | 0 <= i < |f.steps| ensures !f.steps[i].status.Failed? && !f.steps[i].status.Waiting? {
        assert !e.steps[i].status.Failed? && !e.steps[i].status.Waiting?;
      }
    }
  }

  predicate StatusFits(e: Execution) {
    e.status.Running? || e.status.Waiting? ==> Fits(e)
  }

  lemma RefreshedFits(e: Execution, now: int)
    requires (e.status.IsForward() || RefreshIdle(e)) && Refresh(e, now).Ok?
    requires e.status.Queued? ==> forall i :: 0 <= i < |e.steps| ==> Untouched(e.steps[i])
    ensures StatusFits(Refresh(e, now).value)
  {
    if e.status.Running? || e.status.Waiting? {
      RefreshOutcome(e, now);
    }
  }

  predicate RefreshIdle(e: Execution) {
    e.status.Compensating? || e.status.Compensated? || e.status.Succeeded? || e.status.Cancelled? ||
    e.status.ManualReview?
  }

  lemma AdvanceFits(e: Execution, done: set<RequestId>, now: int)
    requires Coherent(e) && StatusFits(e) && Advance(e, done, now).Ok?
    ensures StatusFits(Advance(e, done, now).value)
  {
    if Advances(e, now) {
      var status := if e.status.Queued? then WorkflowStatus.Running else e.status;
      RefreshedFits(e.(status := status, steps := Promoted(ResumeSteps(e.steps, done, now), now)), now);
    }
  }

  lemma LaunchFits(e: Execution, i: nat, id: RequestId, now: int)
    requires StatusFits(e) && StartsForward(e, i, now)
    ensures StatusFits(StartForward(e, i, id, now))
  {
    var f := StartForward(e, i, id, now);
    assert forall j :: 0 <= j < |e.steps| && j != i ==> f.steps[j] == e.steps[j];
    assert !f.steps[i].status.Succeeded? && !e.steps[i].status.Succeeded?;
    assert AnyFailed(f.steps) <==> AnyFailed(e.steps) by { SameAnywhere(e.steps, f.steps, i); }
    assert AnyWaiting(f.steps) <==> AnyWaiting(e.steps) by { SameAnywhere(e.steps, f.steps, i); }
  }

  lemma SameAnywhere(a: seq<Step>, b: seq<Step>, i: nat)
    requires i < |a| == |b| && forall j :: 0 <= j < |a| && j != i ==> b[j] == a[j]
    requires !a[i].status.Failed? && !b[i].status.Failed? && !a[i].status.Waiting? && !b[i].status.Waiting?
    ensures AnyFailed(a) <==> AnyFailed(b)
    ensures AnyWaiting(a) <==> AnyWaiting(b)
  {
    if AnyFailed(a) { var j :| 0 <= j < |a| && a[j].status.Failed?; assert b[j].status.Failed?; }
    if AnyFailed(b) { var j :| 0 <= j < |b| && b[j].status.Failed?; assert a[j].status.Failed?; }
    if AnyWaiting(a) { var j :| 0 <= j < |a| && a[j].status.Waiting?; assert b[j].status.Waiting?; }
    if AnyWaiting(b) { var j :| 0 <= j < |b| && b[j].status.Waiting?; assert a[j].status.Waiting?; }
  }

  lemma SettleForwardFits(e: Execution, i: nat, id: RequestId, status: RequestStatus, now: int)
    requires Coherent(e) && i < |e.steps| && !Untouched(e.steps[i]) && SettleForward(e, i, id, status, now).Ok?
    ensures StatusFits(SettleForward(e, i, id, status, now).value)
  {
    assert CoherentStep(e.status, e.steps[i]);
    RefreshedFits(e.(steps := e.steps[i := SettleForwardStep(e.steps[i], id, status, now).value]), now);
  }

  lemma HookFits(e: Execution, id: RequestId, status: RequestStatus, now: int)
    requires Coherent(e) && StatusFits(e) && Hook(e, id, status, now).Ok?
    ensures StatusFits(Hook(e, id, status, now).value)
  {
    var found := StepForRequest(e.steps, id);
    if IsHooked(status) && found.Some? {
      var i := found.value;
      assert CoherentStep(e.status, e.steps[i]);
      var moved := e.(steps := e.steps[i := HookStep(e.steps[i], id, status, now).value]);
      if HookEscalates(e, e.steps[i], status) {
        moved := moved.(status := WorkflowStatus.ManualReview);
      }
      RefreshedFits(moved, now);
    }
  }

  lemma UnwindFits(s: Saga, a: Action)
    requires Inv(s) && StatusFits(s.execution)
    requires a.ContinueAction? || a.StartCompensationAction? || a.SettleCompensationAction?
    ensures StatusFits(Apply(s, a).execution)
  {
    var e := s.execution;
    if a.StartCompensationAction? && a.step in s.owed {
      assert BookOk(s, a.step) && CoherentStep(e.status, e.steps[a.step]);
    } else if a.SettleCompensationAction? && CompensationRequest(a.step, a.id) in s.created {
      CompensationCreated(s, a.step, a.id);
      assert CoherentStep(e.status, e.steps[a.step]);
    }
  }

  lemma ApplyKeepsFit(s: Saga, a: Action)
    requires Inv(s) && StatusFits(s.execution)
    ensures StatusFits(Apply(s, a).execution)
  {
    var e := s.execution;
    match a
    case AdvanceAction(done, now) => if Advance(e, done, now).Ok? { AdvanceFits(e, done, now); }
    case RefreshAction(now) => if Refresh(e, now).Ok? { RefreshedFits(e, now); }
    case StartForwardAction(i, id, now) => if StartsForward(e, i, now) { LaunchFits(e, i, id, now); }
    case SettleForwardAction(i, id, status, now) =>
      if i < |e.steps| && ForwardRequest(i, id) in s.created && SettleForward(e, i, id, status, now).Ok? {
        ForwardCreated(s, i, id);
        SettleForwardFits(e, i, id, status, now);
      }
    case HookAction(id, status, now) => if Hook(e, id, status, now).Ok? { HookFits(e, id, status, now); }
    case CancelAction(_, _) =>
    case DeadlineAction(_) =>
    case _ => UnwindFits(s, a);
  }

  lemma {:induction false} RunKeepsFit(s: Saga, actions: seq<Action>)
    requires Inv(s) && StatusFits(s.execution)
    ensures StatusFits(Run(s, actions).execution)
  {
    if actions != [] {
      RunKeepsFit(s, actions[..|actions| - 1]);
      RunKeepsInv(s, actions[..|actions| - 1]);
      ApplyKeepsFit(Run(s, actions[..|actions| - 1]), actions[|actions| - 1]);
    }
  }

  /** In every committed state a running execution has no step failed or waiting and one that has not succeeded, and a
      waiting one has a step waiting and none failed: no success and no failure goes unnoticed. */
  lemma StatusAlwaysFits(s: Saga, actions: seq<Action>)
    requires Started(s)
    ensures StatusFits(Run(s, actions).execution)
  {
    StartedInv(s);
    RunKeepsFit(s, actions);
  }

  // ----- start and advance -----

  /** A fresh execution is queued; the steps without dependencies are ready and all others pending. It is refused
      exactly when the first dependency of some step is no step. */
  lemma StartOutcome(steps: seq<Step>, deadlineAt: Option<int>, now: int)
    requires forall i :: 0 <= i < |steps| ==> FreshStep(steps[i])
    ensures Start(steps, deadlineAt, now).Raised? <==>
            exists i :: 0 <= i < |steps| && steps[i].dependsOn != [] && StepByKey(steps, steps[i].dependsOn[0]).None?
    ensures Start(steps, deadlineAt, now).Ok? ==>
              var e := Start(steps, deadlineAt, now).value;
              && e.status.Queued? && e.deadlineAt == deadlineAt && e.deadlineProcessedAt.None? && e.cancelReason.None?
              && |e.steps| == |steps|
              && forall i :: 0 <= i < |steps| ==>
                   e.steps[i] == if steps[i].dependsOn == []
                                 then steps[i].(status := StepStatus.Ready, updatedAt := now) else steps[i]
  {
    forall i | 0 <= i < |steps|
      ensures CheckDependencies(steps, steps[i].dependsOn).Satisfied? <==> steps[i].dependsOn == []
      ensures CheckDependencies(steps, steps[i].dependsOn).UnknownKey? <==>
              steps[i].dependsOn != [] && StepByKey(steps, steps[i].dependsOn[0]).None?
    {
      FreshCheck(steps, steps[i].dependsOn);
    }
  }

  lemma FreshCheck(steps: seq<Step>, keys: seq<string>)
    requires forall i :: 0 <= i < |steps| ==> FreshStep(steps[i])
    ensures CheckDependencies(steps, keys).Satisfied? <==> keys == []
    ensures CheckDependencies(steps, keys).UnknownKey? <==> keys != [] && StepByKey(steps, keys[0]).None?
  {
  }

  /** What an advance makes of one step: a waiting one whose request succeeded has succeeded, a pending one is ready
      exactly when its dependencies have succeeded by then, and every other one stays. */
  predicate Advanced(s: Step, t: Step, after: seq<Step>, done: set<RequestId>, now: int) {
    if s.status.Waiting? && s.requestId.Some? && s.requestId.value in done then
      t == s.(status := StepStatus.Succeeded, updatedAt := now, completedAt := Some(now))
    else if s.status.Pending? && CheckDependencies(after, s.dependsOn).Satisfied? then
      t == s.(status := StepStatus.Ready, updatedAt := now)
    else t == s
  }

  /** An advance is held back, and leaves the execution as it is, exactly when the execution has ended or is under
      review, or its deadline has come and is not dealt with while it goes forward. */
  lemma AdvanceHeldBackExactlyWhen(e: Execution, done: set<RequestId>, now: int)
    requires Coherent(e)
    ensures var due := e.deadlineAt.Some? && e.deadlineAt.value <= now && e.deadlineProcessedAt.None?;
            && (!Advances(e, now) <==>
                (e.status.IsForward() && due) || !(e.status.IsForward() || e.status.Compensating?))
            && (!Advances(e, now) ==> Advance(e, done, now) == Ok(e))
  {
  }

  /** A listed step is launched, and a request created for it, exactly when it is ready, the execution goes forward and
      no deadline waits to be dealt with; nothing else changes. */
  lemma LaunchExactlyWhen(s: Saga, i: nat, id: RequestId, now: int)
    requires Inv(s) && i in s.listed && Fresh(s, id)
    ensures var e, r := s.execution, Apply(s, StartForwardAction(i, id, now));
            var due := e.deadlineAt.Some? && e.deadlineAt.value <= now && e.deadlineProcessedAt.None?;
            if i < |e.steps| && e.steps[i].status.Ready? && e.status.IsForward() && !due then
              && r.created == s.created + [ForwardRequest(i, id)]
              && r.execution == e.(steps := e.steps[i := e.steps[i].(
                   status := StepStatus.Running, attemptCount := 1, updatedAt := now, requestId := Some(id))])
            else r == s
  {
    if i < |s.execution.steps| { assert BookOk(s, i); }
  }

  lemma AdvanceOutcome(e: Execution, done: set<RequestId>, now: int)
    requires Coherent(e) && Advances(e, now) && Advance(e, done, now).Ok?
    ensures var f := Advance(e, done, now).value;
            && f == e.(status := f.status, steps := f.steps) && |f.steps| == |e.steps|
            && (e.status.IsForward() ==> Fits(f)) && (!e.status.IsForward() ==> f.status == e.status)
            && forall i :: 0 <= i < |e.steps| ==> Advanced(e.steps[i], f.steps[i], f.steps, done, now)
  {
    var f := Advance(e, done, now).value;
    var resumed := ResumeSteps(e.steps, done, now);
    var status := if e.status.Queued? then WorkflowStatus.Running else e.status;
    var promoted := e.(status := status, steps := Promoted(resumed, now));
    PromotedTwice(resumed, now);
    if e.status.IsForward() {
      RefreshOutcome(promoted, now);
    } else {
      RefreshIdles(promoted, now);
    }
    forall i | 0 <= i < |e.steps| ensures Advanced(e.steps[i], f.steps[i], f.steps, done, now) {
      PromotionKeepsChecks(resumed, now, e.steps[i].dependsOn);
      assert resumed[i] == ResumeStep(e.steps[i], done, now);
      assert f.steps[i] == PromotedStep(resumed, i, now);
    }
  }

  // ----- cancel and deadline -----

  predicate Open(s: Step) {
    s.status.Pending? || s.status.Ready? || s.status.Running? || s.status.Waiting? || s.status.RetryScheduled?
  }

  predicate Ends(s: Step, t: Step, status: StepStatus, now: int) {
    t == s.(status := status, updatedAt := now, completedAt := Some(now))
  }

  /** A cancel command is refused exactly on an execution that has succeeded or been compensated, and does nothing to
      one that is cancelled. Otherwise it records the reason (the one given, or the one there is, or its own); and
      unless the execution is compensating it cancels every open step and begins to compensate exactly if some step has
      succeeded. */
  lemma CancelOutcome(e: Execution, reason: Option<string>, now: int)
    requires Coherent(e)
    ensures Cancel(e, reason, now).Raised? <==> e.status.Succeeded? || e.status.Compensated?
    ensures e.status.Cancelled? ==> Cancel(e, reason, now) == Ok(e)
    ensures Cancel(e, reason, now).Ok? && !e.status.Cancelled? ==>
      var f := Cancel(e, reason, now).value;
      && f == e.(status := f.status, steps := f.steps, cancelReason := f.cancelReason) && |f.steps| == |e.steps|
      && f.cancelReason == Some(if reason.Some? && reason.value != "" then Words(reason.value)
                                else if IsSet(e.cancelReason) then e.cancelReason.value else ClientCancelled)
      && (if e.status.Compensating? then f.status == e.status && f.steps == e.steps
          else
            && f.status == (if AnySucceeded(e.steps) then WorkflowStatus.Compensating else WorkflowStatus.Cancelled)
            && forall i :: 0 <= i < |e.steps| ==>
                 if Open(e.steps[i]) then Ends(e.steps[i], f.steps[i], StepStatus.Cancelled, now)
                 else f.steps[i] == e.steps[i])
  {
    var swept := CancelSteps(e.steps, now);
    assert AnySucceeded(swept) <==> AnySucceeded(e.steps) by { SweptSuccess(e.steps, swept); }
    assert e.status.Queued? ==> !AnySucceeded(e.steps);
  }

  lemma SweptSuccess(a: seq<Step>, b: seq<Step>)
    requires |a| == |b| && forall i :: 0 <= i < |a| ==> (b[i].status.Succeeded? <==> a[i].status.Succeeded?)
    ensures AnySucceeded(a) <==> AnySucceeded(b)
  {
  }

  /** A deadline is enforced exactly once, when its time has come. An execution that is no longer going forward refuses;
      a forward one has its unstarted steps cancelled and its steps in flight failed, and begins to compensate exactly
      if some step has succeeded; otherwise it is cancelled, for that reason unless it has another. */
  lemma DeadlineOutcome(e: Execution, now: int)
    requires Coherent(e)
    ensures var due := e.deadlineAt.Some? && e.deadlineAt.value <= now && e.deadlineProcessedAt.None?;
            && (!due ==> EnforceDeadline(e, now) == Ok(e))
            && (due ==> (EnforceDeadline(e, now).Ok? <==> e.status.IsForward()))
            && (due && e.status.IsForward() ==>
                  var f := EnforceDeadline(e, now).value;
                  && f == e.(status := f.status, steps := f.steps, deadlineProcessedAt := Some(now),
                             cancelReason := f.cancelReason) && |f.steps| == |e.steps|
                  && f.status ==
                     (if AnySucceeded(e.steps) then WorkflowStatus.Compensating else WorkflowStatus.Cancelled)
                  && f.cancelReason == (if AnySucceeded(e.steps) || IsSet(e.cancelReason) then e.cancelReason
                                        else Some(DeadlineExceeded))
                  && forall i :: 0 <= i < |e.steps| ==>
                       if Untouched(e.steps[i]) then Ends(e.steps[i], f.steps[i], StepStatus.Cancelled, now)
                       else if Active(e.steps[i]) then Ends(e.steps[i], f.steps[i], StepStatus.Failed, now)
                       else f.steps[i] == e.steps[i])
  {
    var swept := SagaTransactions.ExpireSteps(e.steps, now);
    assert AnySucceeded(swept) <==> AnySucceeded(e.steps) by { SweptSuccess(e.steps, swept); }
    assert e.status.Queued? ==> !AnySucceeded(e.steps);
  }

  // ----- answers about forward work -----

  /** What the answer to the call of a step makes of the step. A success counts only while the step runs or waits, and
      is refused otherwise; a failure fails it, also while it compensates, unless it is done; a pending answer makes a
      running step wait; a scheduled retry is noted on a running step only. */
  lemma AnswerOutcome(s: Step, id: RequestId, status: RequestStatus, now: int)
    requires s.requestId == Some(id)
    ensures var r := SettleForwardStep(s, id, status, now);
            match status
            case Succeeded =>
              if s.status.Running? || s.status.Waiting? then r.Ok? && Ends(s, r.value, StepStatus.Succeeded, now)
              else r.Raised?
            case Failed | ManualReview =>
              if s.status.Failed? || s.status.Cancelled? || s.status.Succeeded? then r == Ok(s)
              else if Active(s) || s.status.Compensating? then r.Ok? && Ends(s, r.value, StepStatus.Failed, now)
              else r.Raised?
            case Pending =>
              if s.status.Running? then r == Ok(s.(status := StepStatus.Waiting, updatedAt := now))
              else if s.status.Waiting? then r.Raised?
              else r == Ok(s)
            case RetryScheduled =>
              if s.status.Running? then r == Ok(s.(status := StepStatus.RetryScheduled, updatedAt := now))
              else r == Ok(s)
            case _ => r == Ok(s)
  {
  }

  /** What the report of a finished request makes of the step that names it. */
  lemma ReportedStepOutcome(s: Step, id: RequestId, status: RequestStatus, now: int)
    requires NamesRequest(s, id) && IsHooked(status)
    ensures var r := HookStep(s, id, status, now);
            if s.status.Running? || s.status.Waiting? then
              match status
              case Succeeded => r.Ok? && Ends(s.(requestId := Some(id)), r.value, StepStatus.Succeeded, now)
              case Failed | ManualReview => r.Ok? && Ends(s, r.value, StepStatus.Failed, now)
              case _ => r.Ok? && Ends(s, r.value, StepStatus.Cancelled, now)
            else if s.status.Compensating? then
              match status
              case Succeeded => r.Ok? && Ends(s.(compensationId := Some(id)), r.value, StepStatus.Compensated, now)
              case Failed | ManualReview => r == Ok(s)
              case _ => r.Raised?
            else r == Ok(s)
  {
  }

  /** The execution around a step that an answer or a report has moved: going forward it takes the status its steps call
      for, otherwise it keeps its own. */
  predicate Around(e: Execution, f: Execution, i: nat, t: Step) {
    && i < |e.steps| == |f.steps| && f.steps[i] == t && f == e.(status := f.status, steps := f.steps)
    && (if e.status.Running? || e.status.Waiting? then Fits(f)
        else f.status == e.status && f.steps == e.steps[i := t])
    && forall j :: 0 <= j < |e.steps| && j != i ==>
         f.steps[j] == e.steps[j] || (e.steps[j].status.Pending? && f.steps[j].status.Ready? && f.status.Running?)
  }

  lemma SettleForwardOutcome(e: Execution, i: nat, id: RequestId, status: RequestStatus, now: int)
    requires Coherent(e) && i < |e.steps| && !Untouched(e.steps[i]) && SettleForward(e, i, id, status, now).Ok?
    ensures SettleForwardStep(e.steps[i], id, status, now).Ok?
    ensures Around(e, SettleForward(e, i, id, status, now).value, i,
                   SettleForwardStep(e.steps[i], id, status, now).value)
  {
    assert CoherentStep(e.status, e.steps[i]);
    var t := SettleForwardStep(e.steps[i], id, status, now).value;
    AroundRefreshed(e, i, t, now);
  }

  lemma AroundRefreshed(e: Execution, i: nat, t: Step, now: int)
    requires i < |e.steps| && !t.status.Pending? && (e.status.Running? || e.status.Waiting? || RefreshIdle(e))
    requires Refresh(e.(steps := e.steps[i := t]), now).Ok?
    ensures Around(e, Refresh(e.(steps := e.steps[i := t]), now).value, i, t)
  {
    var moved := e.(steps := e.steps[i := t]);
    if RefreshIdle(e) {
      RefreshIdles(moved, now);
    } else {
      RefreshOutcome(moved, now);
    }
  }

  /** A report changes nothing unless it says that the request of some step is finished. If it does, the step moves as
      it says; and a compensation reported failed sends a compensating execution to review. */
  lemma HookOutcome(e: Execution, id: RequestId, status: RequestStatus, now: int)
    requires Coherent(e) && Hook(e, id, status, now).Ok?
    ensures var found, f := StepForRequest(e.steps, id), Hook(e, id, status, now).value;
            if !IsHooked(status) || found.None? then f == e
            else
              var s := e.steps[found.value];
              && HookStep(s, id, status, now).Ok?
              && (if s.status.Compensating? && (status.Failed? || status.ManualReview?) && e.status.Compensating?
                  then f == e.(status := WorkflowStatus.ManualReview)
                  else if s.status.Pending? || e.status.Queued? then f == e || Fits(f)
                  else Around(e, f, found.value, HookStep(s, id, status, now).value))
  {
    var found := StepForRequest(e.steps, id);
    if IsHooked(status) && found.Some? {
      var i := found.value;
      assert CoherentStep(e.status, e.steps[i]);
      var t := HookStep(e.steps[i], id, status, now).value;
      if HookEscalates(e, e.steps[i], status) {
        assert e.steps[i := t] == e.steps;
        RefreshIdles(e.(status := WorkflowStatus.ManualReview), now);
      } else if e.status.Queued? || e.steps[i].status.Pending? {
        assert e.steps[i := t] == e.steps;
        if e.status.Running? || e.status.Waiting? { RefreshOutcome(e, now); }
      } else {
        AroundRefreshed(e, i, t, now);
      }
    }
  }

  // ----- the unwind -----

  /** A continuation of a compensating execution begins the latest succeeded step if there is one; otherwise it ends the
      execution exactly when every step is at rest, cancelled if a reason was given and compensated if not. */
  lemma ContinueOutcome(e: Execution, now: int)
    requires e.status.Compensating?
    ensures Continue(e, now).Ok?
    ensures var f := Continue(e, now).value;
            if AnySucceeded(e.steps) then
              var i := NextToCompensate(e.steps).value;
              f == e.(steps := e.steps[i := e.steps[i].(status := StepStatus.Compensating, updatedAt := now)])
            else if forall i :: 0 <= i < |e.steps| ==> AtRest(e.steps[i]) || e.steps[i].status.Skipped? then
              f == e.(status := if e.cancelReason.Some? && e.cancelReason.value != Words("")
                                then WorkflowStatus.Cancelled else WorkflowStatus.Compensated)
            else f == e
  {
    var f := Continue(e, now).value;
    if !AnySucceeded(e.steps) {
      assert UnwindFinished(e.steps) <==>
             forall i :: 0 <= i < |e.steps| ==> AtRest(e.steps[i]) || e.steps[i].status.Skipped?;
    }
  }

  /** A claim links a request to a step that has an operation to undo it, and completes one that has none. */
  lemma ClaimOutcome(e: Execution, i: nat, id: RequestId, now: int)
    requires i < |e.steps|
    ensures var s, r := e.steps[i], StartCompensation(e, i, id, now);
            if s.compensateOperation.Some? then r == Ok(e.(steps := e.steps[i := s.(compensationId := Some(id))]))
            else if s.status.Compensating? then
              && r.Ok? && |r.value.steps| == |e.steps| && r.value == e.(steps := e.steps[i := r.value.steps[i]])
              && Ends(s.(compensationId := None), r.value.steps[i], StepStatus.Compensated, now)
            else r.Raised?
  {
  }

  /** The answer to a compensation: a success completes a compensating step, a pending answer changes nothing, and
      anything else fails the step and sends the execution to review. */
  lemma CompensationOutcome(e: Execution, i: nat, id: RequestId, status: RequestStatus, now: int)
    requires Coherent(e) && i < |e.steps| && Unwound(e.steps[i])
    ensures var s, r := e.steps[i], SettleCompensation(e, i, id, status, now);
            if status.Pending? then r == Ok(e)
            else if status.Succeeded? then
              && (r.Ok? <==> s.status.Compensating?)
              && (r.Ok? ==> |r.value.steps| == |e.steps| && r.value == e.(steps := e.steps[i := r.value.steps[i]]) &&
                            Ends(s.(compensationId := Some(id)), r.value.steps[i], StepStatus.Compensated, now))
            else
              && (r.Ok? <==> s.status.Compensating? && e.status.Compensating?)
              && (r.Ok? ==> |r.value.steps| == |e.steps| && Ends(s, r.value.steps[i], StepStatus.Failed, now) &&
                            r.value == e.(status := WorkflowStatus.ManualReview,
                                          steps := e.steps[i := r.value.steps[i]]))
  {
    assert CoherentStep(e.status, e.steps[i]);
  }

  // ----- the two tables, read by their targets -----

  /** From where each execution status can be reached. */
  lemma WorkflowSources(current: WorkflowStatus, next: WorkflowStatus)
    ensures WorkflowAllowed(current, next) <==>
      match next
      case Created => false
      case Queued => current.Created?
      case Running =>
        current.Created? || current.Queued? || current.Waiting? || current.RetryScheduled? || current.ManualReview?
      case Waiting => current.Running?
      case RetryScheduled => current.Running?
      case Compensating =>
        current.Running? || current.Waiting? || current.RetryScheduled? || current.TimedOut? || current.ManualReview?
      case Compensated => current.Compensating?
      case Succeeded => current.Running?
      case Failed =>
        current.Queued? || current.Running? || current.Waiting? || current.RetryScheduled? || current.TimedOut? ||
        current.Compensating?
      case Cancelled =>
        current.Created? || current.Queued? || current.Running? || current.Waiting? || current.RetryScheduled? ||
        current.TimedOut? || current.Compensating? || current.ManualReview?
      case ManualReview =>
        current.Running? || current.Waiting? || current.RetryScheduled? || current.TimedOut? ||
        current.Compensating? || current.Failed?
      case DeadLettered => current.Compensating? || current.ManualReview?
      case TimedOut => current.Queued? || current.Running? || current.Waiting? || current.RetryScheduled?
  {
  }

  /** From where each step status can be reached. */
  lemma StepSources(current: StepStatus, next: StepStatus)
    ensures StepAllowed(current, next) <==>
      match next
      case Pending => false
      case Ready => current.Pending? || current.RetryScheduled?
      case Running => current.Ready? || current.Waiting? || current.RetryScheduled?
      case Waiting => current.Running?
      case RetryScheduled => current.Running? || current.Compensating?
      case Succeeded => current.Running? || current.Waiting?
      case Failed => current.Running? || current.Waiting? || current.RetryScheduled? || current.Compensating?
      case Skipped => current.Pending? || current.Ready?
      case Compensating => current.Succeeded?
      case Compensated => current.Compensating?
      case Cancelled =>
        current.Pending? || current.Ready? || current.Running? || current.Waiting? || current.RetryScheduled? ||
        current.Succeeded?
      case DeadLettered => current.Failed? || current.Compensating?
  {
  }

  /** The statuses without a way out: the terminal ones, save that a failed execution can be reviewed, and a step that
      has succeeded or failed can still be compensated or dead-lettered. */
  lemma EndsOfTheTables(execution: WorkflowStatus, step: StepStatus)
    ensures (forall next :: !WorkflowAllowed(execution, next)) <==> execution.IsTerminal() && !execution.Failed?
    ensures (forall next :: !StepAllowed(step, next)) <==> step.IsTerminal() && !step.Succeeded? && !step.Failed?
  {
    if !execution.IsTerminal() || execution.Failed? {
      assert WorkflowAllowed(execution, WorkflowStatus.Cancelled) ||
             WorkflowAllowed(execution, WorkflowStatus.ManualReview);
    }
    if !step.IsTerminal() || step.Succeeded? || step.Failed? {
      assert StepAllowed(step, StepStatus.Cancelled) || StepAllowed(step, StepStatus.DeadLettered);
    }
  }
}
