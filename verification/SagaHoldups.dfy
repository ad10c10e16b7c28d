/** An unwind should end. It does not when a step is left ready or scheduled for a retry: nothing starts or retries a
    step of a compensating execution, and the unwind finishes only over steps that are at rest. */
module SagaHoldups {
  import opened Common
  import opened WorkflowStates
  import opened RequestStates
  import opened Workflow
  import opened SagaTransactions
  import opened SagaMachine
  import opened SagaCoherence
  import opened SagaInvariants
  import opened SagaTheorems
  import opened SagaLinks
  import opened SagaLateReports

  predicate Stalled(s: Step) {
    s.status.Ready? || s.status.RetryScheduled?
  }

  predicate HeldUp(e: Execution) {
    exists i :: 0 <= i < |e.steps| && Stalled(e.steps[i])
  }

  /** `_run_forward_step` settles each request it dispatched once. */
  predicate AnsweredOnce(actions: seq<Action>) {
    forall k, l :: 0 <= k < l < |actions| && actions[k].SettleForwardAction? && actions[l].SettleForwardAction? ==>
      actions[k].id != actions[l].id
  }

  /** The run never takes the execution to manual review. */
  predicate Unreviewed(s: Saga, actions: seq<Action>) {
    forall n :: 0 <= n <= |actions| ==> !Run(s, actions[..n]).execution.status.ManualReview?
  }

  predicate Ended(s: Saga) {
    s.execution.status.Compensated? || s.execution.status.Cancelled?
  }

  lemma RunLast(s: Saga, actions: seq<Action>)
    requires actions != []
    ensures Run(s, actions) == Apply(Run(s, actions[..|actions| - 1]), actions[|actions| - 1])
  {
  }

  lemma {:induction false} RunsCompose(s: Saga, first: seq<Action>, rest: seq<Action>)
    ensures Run(s, first + rest) == Run(Run(s, first), rest)
  {
    if rest == [] {
      assert first + rest == first;
    } else {
      var n, all := |rest| - 1, first + rest;
      RunsCompose(s, first, rest[..n]);
      assert all[..|all| - 1] == first + rest[..n] && all[|all| - 1] == rest[n];
      RunLast(s, all);
      RunLast(Run(s, first), rest);
    }
  }

  // ----- a stalled step stays stalled -----

  /** The answer to the call that step `i` was launched with. */
  predicate AnswersStep(a: Action, e: Execution, i: nat) {
    a.SettleForwardAction? && a.step == i && i < |e.steps| && e.steps[i].requestId == Some(a.id)
  }

  lemma AdvanceKeepsStalled(e: Execution, done: set<RequestId>, now: int, i: nat)
    requires e.status.Compensating? && i < |e.steps| && Stalled(e.steps[i]) && Advance(e, done, now).Ok?
    ensures var f := Advance(e, done, now).value;
            f.status.Compensating? && |f.steps| == |e.steps| && f.steps[i] == e.steps[i]
  {
  }

  lemma SettleForwardKeepsStalled(e: Execution, j: nat, id: RequestId, status: RequestStatus, now: int, i: nat)
    requires e.status.Compensating? && i < |e.steps| && Stalled(e.steps[i]) && i != j
    requires j < |e.steps| && SettleForward(e, j, id, status, now).Ok?
    ensures var f := SettleForward(e, j, id, status, now).value;
            f.status.Compensating? && |f.steps| == |e.steps| && f.steps[i] == e.steps[i]
  {
  }

  lemma HookKeepsStalled(e: Execution, id: RequestId, status: RequestStatus, now: int, i: nat)
    requires e.status.Compensating? && i < |e.steps| && Stalled(e.steps[i]) && Hook(e, id, status, now).Ok?
    ensures var f := Hook(e, id, status, now).value;
            (f.status.Compensating? || f.status.ManualReview?) && |f.steps| == |e.steps| && f.steps[i] == e.steps[i]
  {
  }

  lemma ContinueKeepsStalled(e: Execution, now: int, i: nat)
    requires e.status.Compensating? && i < |e.steps| && Stalled(e.steps[i]) && Continue(e, now).Ok?
    ensures var f := Continue(e, now).value;
            f.status.Compensating? && |f.steps| == |e.steps| && f.steps[i] == e.steps[i]
  {
  }

  lemma UnwindKeepsStalled(s: Saga, a: Action, i: nat)
    requires Inv(s) && s.execution.status.Compensating? && i < |s.execution.steps| && Stalled(s.execution.steps[i])
    requires a.StartCompensationAction? || a.SettleCompensationAction?
    ensures var f := Apply(s, a).execution;
            (f.status.Compensating? || f.status.ManualReview?) && |f.steps| == |s.execution.steps| &&
            f.steps[i] == s.execution.steps[i]
  {
    assert BookOk(s, i);
    if a.SettleCompensationAction? && a.step < |s.execution.steps| && CompensationRequest(a.step, a.id) in s.created {
      CompensationCreated(s, a.step, a.id);
    }
  }

  /** While the execution compensates, no transaction moves a ready step, and only the answer to its own call moves one
      that is scheduled for a retry. */
  lemma StalledStays(s: Saga, a: Action, i: nat)
    requires Inv(s) && s.execution.status.Compensating? && i < |s.execution.steps| && Stalled(s.execution.steps[i])
    requires s.execution.steps[i].status.RetryScheduled? ==> !AnswersStep(a, s.execution, i)
    ensures var f := Apply(s, a).execution;
            (f.status.Compensating? || f.status.ManualReview?) && |f.steps| == |s.execution.steps| &&
            f.steps[i] == s.execution.steps[i]
  {
    var e := s.execution;
    match a
    case CancelAction(reason, now) =>
    case DeadlineAction(now) =>
    case AdvanceAction(done, now) => if Advance(e, done, now).Ok? { AdvanceKeepsStalled(e, done, now, i); }
    case RefreshAction(now) =>
    case StartForwardAction(_, _, _) =>
    case SettleForwardAction(j, id, status, now) =>
      if j < |e.steps| && ForwardRequest(j, id) in s.created && SettleForward(e, j, id, status, now).Ok? {
        ForwardCreated(s, j, id);
        SettleForwardKeepsStalled(e, j, id, status, now, i);
      }
    case HookAction(id, status, now) => if Hook(e, id, status, now).Ok? { HookKeepsStalled(e, id, status, now, i); }
    case ContinueAction(now) => if Continue(e, now).Ok? { ContinueKeepsStalled(e, now, i); }
    case _ => UnwindKeepsStalled(s, a, i);
  }

  // ----- a scheduled retry has had its answer -----

  predicate TurnsRetry(e: Execution, f: Execution, i: nat) {
    i < |e.steps| && i < |f.steps| && f.steps[i].status.RetryScheduled? && f.steps[i] != e.steps[i]
  }

  lemma SweepsRetryNone(e: Execution, reason: Option<string>, now: int, i: nat)
    ensures Cancel(e, reason, now).Ok? ==> !TurnsRetry(e, Cancel(e, reason, now).value, i)
    ensures EnforceDeadline(e, now).Ok? ==> !TurnsRetry(e, EnforceDeadline(e, now).value, i)
  {
  }

  lemma RefreshRetriesNone(e: Execution, now: int, i: nat)
    requires Refresh(e, now).Ok?
    ensures !TurnsRetry(e, Refresh(e, now).value, i)
    ensures i < |e.steps| && i < |Refresh(e, now).value.steps| && !e.steps[i].status.Pending? ==>
            Refresh(e, now).value.steps[i] == e.steps[i]
  {
  }

  lemma AdvanceRetriesNone(e: Execution, done: set<RequestId>, now: int, i: nat)
    requires Advance(e, done, now).Ok?
    ensures !TurnsRetry(e, Advance(e, done, now).value, i)
  {
    if Advances(e, now) {
      var status := if e.status.Queued? then WorkflowStatus.Running else e.status;
      RefreshRetriesNone(e.(status := status, steps := Promoted(ResumeSteps(e.steps, done, now), now)), now, i);
    }
  }

  lemma HookRetriesNone(e: Execution, id: RequestId, status: RequestStatus, now: int, i: nat)
    requires Hook(e, id, status, now).Ok?
    ensures !TurnsRetry(e, Hook(e, id, status, now).value, i)
  {
    var found := StepForRequest(e.steps, id);
    if IsHooked(status) && found.Some? {
      var s := HookStep(e.steps[found.value], id, status, now).value;
      var moved := e.(steps := e.steps[found.value := s]);
      if HookEscalates(e, e.steps[found.value], status) {
        moved := moved.(status := WorkflowStatus.ManualReview);
      }
      RefreshRetriesNone(moved, now, i);
    }
  }

  lemma SettleForwardRetries(e: Execution, j: nat, id: RequestId, status: RequestStatus, now: int, i: nat)
    requires j < |e.steps| && SettleForward(e, j, id, status, now).Ok?
    requires TurnsRetry(e, SettleForward(e, j, id, status, now).value, i)
    ensures i == j && status.RetryScheduled? && e.steps[i].status.Running?
  {
    var s := SettleForwardStep(e.steps[j], id, status, now).value;
    RefreshRetriesNone(e.(steps := e.steps[j := s]), now, i);
  }

  lemma UnwindRetriesNone(s: Saga, a: Action, i: nat)
    requires Inv(s) && (a.ContinueAction? || a.StartCompensationAction? || a.SettleCompensationAction?)
    ensures !TurnsRetry(s.execution, Apply(s, a).execution, i)
  {
    if a.StartCompensationAction? && a.step in s.owed {
      assert BookOk(s, a.step);
    }
  }

  lemma RetryOnlyByAnswer(s: Saga, a: Action, i: nat)
    requires Inv(s) && TurnsRetry(s.execution, Apply(s, a).execution, i)
    ensures AnswersStep(a, s.execution, i) && a.status.RetryScheduled? && s.execution.steps[i].status.Running?
  {
    var e := s.execution;
    match a
    case CancelAction(reason, now) => SweepsRetryNone(e, reason, now, i);
    case DeadlineAction(now) => SweepsRetryNone(e, None, now, i);
    case AdvanceAction(done, now) => AdvanceRetriesNone(e, done, now, i);
    case RefreshAction(now) => RefreshRetriesNone(e, now, i);
    case StartForwardAction(_, _, _) =>
    case SettleForwardAction(j, id, status, now) =>
      ForwardCreated(s, j, id);
      SettleForwardRetries(e, j, id, status, now, i);
    case HookAction(id, status, now) => HookRetriesNone(e, id, status, now, i);
    case _ => UnwindRetriesNone(s, a, i);
  }

  lemma StartedRetriesNone(s: Saga, i: nat)
    requires Started(s) && i < |s.execution.steps|
    ensures !s.execution.steps[i].status.RetryScheduled?
  {
    StartedInv(s);
    assert CoherentStep(s.execution.status, s.execution.steps[i]);
  }

  /** Whatever is scheduled for a retry got there by the one answer to its call. */
  lemma {:induction false} RetryWasAnswered(s: Saga, actions: seq<Action>, i: nat) returns (k: nat)
    requires Started(s) && i < |Run(s, actions).execution.steps|
    requires Run(s, actions).execution.steps[i].status.RetryScheduled?
    ensures k < |actions| && AnswersStep(actions[k], Run(s, actions).execution, i)
  {
    StartedInv(s);
    if actions == [] {
      StartedRetriesNone(s, i);
      assert false;
    } else {
      var before, a := actions[..|actions| - 1], actions[|actions| - 1];
      RunKeepsInv(s, before);
      var r := Run(s, before);
      ApplyKeepsInv(r, a);
      if TurnsRetry(r.execution, Apply(r, a).execution, i) {
        RetryOnlyByAnswer(r, a, i);
        assert Follows(r.execution, Apply(r, a).execution, r.execution.steps[i], Apply(r, a).execution.steps[i], a.now);
        k := |before|;
      } else {
        k := RetryWasAnswered(s, before, i);
        assert actions[k] == before[k];
      }
    }
  }

  // ----- held up until review -----

  lemma UnreviewedBefore(s: Saga, actions: seq<Action>)
    requires actions != [] && Unreviewed(s, actions)
    ensures Unreviewed(s, actions[..|actions| - 1]) && !Run(s, actions).execution.status.ManualReview?
  {
    var before := actions[..|actions| - 1];
    assert actions[..|actions|] == actions;
    forall n | 0 <= n <= |before| ensures !Run(s, before[..n]).execution.status.ManualReview? {
      assert before[..n] == actions[..n];
    }
  }

  /** The last transaction of a continuation, after the rest of it. */
  lemma LastOfMore(s: Saga, history: seq<Action>, more: seq<Action>)
    requires more != [] && AnsweredOnce(history + more)
    ensures var before, a := history + more[..|more| - 1], more[|more| - 1];
            AnsweredOnce(before) && AnsweredOnce(before + [a]) && Run(s, history + more) == Apply(Run(s, before), a)
  {
    var before, a, all := history + more[..|more| - 1], more[|more| - 1], history + more;
    assert before + [a] == all && all[..|all| - 1] == before;
    assert forall k :: 0 <= k < |before| ==> before[k] == all[k];
    RunLast(s, all);
  }

  /** From a reachable compensating execution with a stalled step, whatever arrives, the execution stays compensating
      and the step stalled until something sends the execution to manual review. */
  lemma {:induction false} HeldUntilReviewed(s: Saga, history: seq<Action>, more: seq<Action>, i: nat)
    requires Started(s) && AnsweredOnce(history + more) && Unreviewed(Run(s, history), more)
    requires Run(s, history).execution.status.Compensating?
    requires i < |Run(s, history).execution.steps| && Stalled(Run(s, history).execution.steps[i])
    ensures var f := Run(s, history + more).execution;
            f.status.Compensating? && i < |f.steps| && f.steps[i] == Run(s, history).execution.steps[i]
  {
    if more == [] {
      assert history + more == history;
    } else {
      var before, a := more[..|more| - 1], more[|more| - 1];
      UnreviewedBefore(Run(s, history), more);
      LastOfMore(s, history, more);
      HeldUntilReviewed(s, history, before, i);
      StalledOnce(s, history + before, a, i);
      RunsCompose(s, history, more);
    }
  }

  lemma StalledOnce(s: Saga, before: seq<Action>, a: Action, i: nat)
    requires Started(s) && AnsweredOnce(before + [a]) && Run(s, before).execution.status.Compensating?
    requires i < |Run(s, before).execution.steps| && Stalled(Run(s, before).execution.steps[i])
    ensures var f := Apply(Run(s, before), a).execution;
            (f.status.Compensating? || f.status.ManualReview?) && i < |f.steps| &&
            f.steps[i] == Run(s, before).execution.steps[i]
  {
    StartedInv(s);
    RunKeepsInv(s, before);
    var r := Run(s, before);
    if r.execution.steps[i].status.RetryScheduled? {
      var k := RetryWasAnswered(s, before, i);
      assert (before + [a])[k] == before[k] && (before + [a])[|before|] == a;
    }
    StalledStays(r, a, i);
  }

  // ----- everything else can be cleared -----

  predicate Replaces(e: Execution, f: Execution, i: nat, t: Step) {
    i < |e.steps| && f == e.(steps := e.steps[i := t])
  }

  /** A report about its request ends forward work that is running or waiting. */
  lemma ReportClears(s: Saga, i: nat) returns (a: Action)
    requires Linked(s) && s.execution.status.Compensating? && i < |s.execution.steps|
    requires s.execution.steps[i].status.Running? || s.execution.steps[i].status.Waiting?
    ensures var r := Apply(s, a); var t := MoveStep(s.execution.steps[i], StepStatus.Failed, 0).value;
            !a.SettleForwardAction? && Replaces(s.execution, r.execution, i, t) && r.owed == s.owed
  {
    var e := s.execution;
    assert LinkedStep(s, i);
    var id := e.steps[i].requestId.value;
    LinkedIdsDistinct(s);
    FindsOwner(e.steps, i, id);
    a := HookAction(id, RequestStatus.Failed, 0);
    FailedReport(e, i, id);
  }

  lemma FailedReport(e: Execution, i: nat, id: RequestId)
    requires e.status.Compensating? && StepForRequest(e.steps, id) == Some(i)
    requires e.steps[i].status.Running? || e.steps[i].status.Waiting?
    ensures Hook(e, id, RequestStatus.Failed, 0) ==
            Ok(e.(steps := e.steps[i := MoveStep(e.steps[i], StepStatus.Failed, 0).value]))
  {
    HookMoves(e, id, RequestStatus.Failed, i, MoveStep(e.steps[i], StepStatus.Failed, 0).value);
  }

  /** A success report about its compensation request ends a compensation that has been claimed. */
  lemma ReportCompensates(s: Saga, i: nat) returns (a: Action)
    requires Linked(s) && s.execution.status.Compensating? && i < |s.execution.steps| && i !in s.owed
    requires s.execution.steps[i].status.Compensating?
    ensures var r := Apply(s, a); var t := MoveStep(s.execution.steps[i], StepStatus.Compensated, 0).value;
            !a.SettleForwardAction? && Replaces(s.execution, r.execution, i, t) && r.owed == s.owed
  {
    var e := s.execution;
    assert LinkedStep(s, i);
    var id := e.steps[i].compensationId.value;
    LinkedIdsDistinct(s);
    FindsOwner(e.steps, i, id);
    a := HookAction(id, RequestStatus.Succeeded, 0);
    CompensatedByHook(e.steps[i], id);
    HookMoves(e, id, RequestStatus.Succeeded, i, MoveStep(e.steps[i], StepStatus.Compensated, 0).value);
  }

  lemma CompensatedByHook(s: Step, id: RequestId)
    requires s.status.Compensating? && s.compensationId == Some(id)
    ensures HookStep(s, id, RequestStatus.Succeeded, 0) == MoveStep(s, StepStatus.Compensated, 0)
  {
    assert s.(compensationId := Some(id)) == s;
  }

  lemma HookMoves(e: Execution, id: RequestId, status: RequestStatus, i: nat, t: Step)
    requires e.status.Compensating? && IsHooked(status) && StepForRequest(e.steps, id) == Some(i)
    requires HookStep(e.steps[i], id, status, 0) == Ok(t) && !HookEscalates(e, e.steps[i], status)
    ensures Hook(e, id, status, 0) == Ok(e.(steps := e.steps[i := t]))
  {
  }

  /** A claim that is owed can be made. */
  lemma ClaimGoesAhead(s: Saga, i: nat) returns (a: Action)
    requires i < |s.execution.steps| && i in s.owed && s.execution.steps[i].status.Compensating?
    ensures !a.SettleForwardAction? && Apply(s, a).owed == s.owed - {i}
    ensures |Apply(s, a).execution.steps| == |s.execution.steps|
    ensures var t := Apply(s, a).execution.steps[i];
            Replaces(s.execution, Apply(s, a).execution, i, t) && (t.status.Compensating? || t.status.Compensated?)
  {
    var id := FreshIdExists(s.created, 0);
    a := StartCompensationAction(i, id, 0);
  }

  /** The steps still running or waiting, those to be compensated, and those being compensated. */
  function Busy(e: Execution): (r: set<nat>) {
    set i: nat | i < |e.steps| && (e.steps[i].status.Running? || e.steps[i].status.Waiting?)
  }

  function Due(e: Execution): (r: set<nat>) {
    set i: nat | i < |e.steps| && e.steps[i].status.Succeeded?
  }

  function Begun(e: Execution): (r: set<nat>) {
    set i: nat | i < |e.steps| && e.steps[i].status.Compensating?
  }

  lemma BeginsNext(s: Saga)
    requires s.execution.status.Compensating? && Due(s.execution) != {}
    ensures var r := Apply(s, ContinueAction(0));
            exists i: nat ::
              && i < |s.execution.steps| && s.execution.steps[i].status.Succeeded?
              && Replaces(s.execution, r.execution, i,
                          MoveStep(s.execution.steps[i], StepStatus.Compensating, 0).value)
  {
    var e := s.execution;
    var j :| j in Due(e);
    assert AnySucceeded(e.steps);
    var i := NextToCompensate(e.steps).value;
    var t := MoveStep(e.steps[i], StepStatus.Compensating, 0).value;
    assert Replaces(e, Apply(s, ContinueAction(0)).execution, i, t);
  }

  lemma FinishesAtRest(s: Saga)
    requires Inv(s) && s.execution.status.Compensating? && !HeldUp(s.execution)
    requires Busy(s.execution) == {} && Due(s.execution) == {} && Begun(s.execution) == {}
    ensures Ended(Apply(s, ContinueAction(0)))
  {
    var e := s.execution;
    forall i | 0 <= i < |e.steps| ensures AtRest(e.steps[i]) {
      assert CoherentStep(e.status, e.steps[i]) && !Stalled(e.steps[i]);
      assert i !in Busy(e) && i !in Due(e) && i !in Begun(e);
    }
    assert NextToCompensate(e.steps).None?;
    assert UnwindFinished(e.steps);
  }

  /** One more transaction on the way to the end: fewer steps busy, then fewer due, then fewer owed, then fewer
      begun. */
  lemma ClearsOne(s: Saga) returns (a: Action)
    requires Inv(s) && Linked(s) && s.execution.status.Compensating? && !HeldUp(s.execution)
    requires Busy(s.execution) + Due(s.execution) + Begun(s.execution) != {}
    ensures !a.SettleForwardAction?
    ensures var e, r := s.execution, Apply(s, a);
            && r.execution.status.Compensating? && !HeldUp(r.execution)
            && (Busy(r.execution) < Busy(e) ||
                (Busy(r.execution) == Busy(e) && Due(r.execution) < Due(e)) ||
                (Busy(r.execution) == Busy(e) && Due(r.execution) == Due(e) && r.owed < s.owed) ||
                (Busy(r.execution) == Busy(e) && Due(r.execution) == Due(e) && r.owed == s.owed &&
                 Begun(r.execution) < Begun(e)))
  {
    var e := s.execution;
    if Busy(e) != {} {
      var i :| i in Busy(e);
      a := ReportClears(s, i);
      LeavesBusy(e, Apply(s, a).execution, i, MoveStep(e.steps[i], StepStatus.Failed, 0).value);
    } else if Due(e) != {} {
      a := ContinueAction(0);
      BeginsNext(s);
      var i: nat :|
        && i < |e.steps| && e.steps[i].status.Succeeded?
        && Replaces(e, Apply(s, a).execution, i, MoveStep(e.steps[i], StepStatus.Compensating, 0).value);
      LeavesDue(e, Apply(s, a).execution, i, MoveStep(e.steps[i], StepStatus.Compensating, 0).value);
    } else {
      var i :| i in Begun(e);
      if i in s.owed {
        a := ClaimGoesAhead(s, i);
        StaysBegun(e, Apply(s, a).execution, i, Apply(s, a).execution.steps[i]);
        assert i in s.owed && i !in Apply(s, a).owed;
      } else {
        a := ReportCompensates(s, i);
        LeavesBegun(e, Apply(s, a).execution, i, MoveStep(e.steps[i], StepStatus.Compensated, 0).value);
      }
    }
  }

  lemma ReplacedStaysClear(e: Execution, f: Execution, i: nat, t: Step)
    requires Replaces(e, f, i, t) && !HeldUp(e) && !Stalled(t)
    ensures !HeldUp(f)
  {
    forall j | 0 <= j < |f.steps| ensures !Stalled(f.steps[j]) {
      assert j != i ==> f.steps[j] == e.steps[j] && !Stalled(e.steps[j]);
    }
  }

  lemma LeavesBusy(e: Execution, f: Execution, i: nat, t: Step)
    requires Replaces(e, f, i, t) && !HeldUp(e) && i in Busy(e) && t.status.Failed?
    ensures !HeldUp(f) && Busy(f) < Busy(e)
  {
    ReplacedStaysClear(e, f, i, t);
    assert Busy(f) == Busy(e) - {i};
  }

  lemma LeavesDue(e: Execution, f: Execution, i: nat, t: Step)
    requires Replaces(e, f, i, t) && !HeldUp(e) && i in Due(e) && t.status.Compensating?
    ensures !HeldUp(f) && Busy(f) == Busy(e) && Due(f) < Due(e)
  {
    ReplacedStaysClear(e, f, i, t);
    assert Busy(f) == Busy(e);
    assert Due(f) == Due(e) - {i};
  }

  lemma StaysBegun(e: Execution, f: Execution, i: nat, t: Step)
    requires Replaces(e, f, i, t) && !HeldUp(e) && i in Begun(e) && (t.status.Compensating? || t.status.Compensated?)
    ensures !HeldUp(f) && Busy(f) == Busy(e) && Due(f) == Due(e)
  {
    ReplacedStaysClear(e, f, i, t);
    assert Busy(f) == Busy(e);
    assert Due(f) == Due(e);
  }

  lemma LeavesBegun(e: Execution, f: Execution, i: nat, t: Step)
    requires Replaces(e, f, i, t) && !HeldUp(e) && i in Begun(e) && t.status.Compensated?
    ensures !HeldUp(f) && Busy(f) == Busy(e) && Due(f) == Due(e) && Begun(f) < Begun(e)
  {
    StaysBegun(e, f, i, t);
    assert Begun(f) == Begun(e) - {i};
  }

  predicate NoAnswers(actions: seq<Action>) {
    forall k :: 0 <= k < |actions| ==> !actions[k].SettleForwardAction?
  }

  lemma Prepends(s: Saga, a: Action, rest: seq<Action>)
    requires !s.execution.status.ManualReview? && Unreviewed(Apply(s, a), rest) && Ended(Run(Apply(s, a), rest))
    requires !a.SettleForwardAction? && NoAnswers(rest)
    ensures Unreviewed(s, [a] + rest) && Ended(Run(s, [a] + rest)) && NoAnswers([a] + rest)
  {
    RunOne(s, a);
    RunsCompose(s, [a], rest);
    var all := [a] + rest;
    forall n | 0 <= n <= |all| ensures !Run(s, all[..n]).execution.status.ManualReview? {
      if n == 0 {
        assert all[..0] == [];
      } else {
        assert all[..n] == [a] + rest[..n - 1];
        RunsCompose(s, [a], rest[..n - 1]);
      }
    }
  }

  lemma RunOne(s: Saga, a: Action)
    ensures Run(s, [a]) == Apply(s, a)
  {
    RunLast(s, [a]);
    assert [a][..0] == [];
  }

  /** With no step stalled the unwind can end without a review, and without any further answer to a forward call. */
  lemma {:induction false} UnwindCanEnd(s: Saga) returns (more: seq<Action>)
    requires Inv(s) && Linked(s) && s.execution.status.Compensating? && !HeldUp(s.execution)
    ensures Unreviewed(s, more) && Ended(Run(s, more)) && NoAnswers(more)
    decreases Busy(s.execution), Due(s.execution), s.owed, Begun(s.execution)
  {
    var a: Action;
    var rest: seq<Action>;
    if Busy(s.execution) + Due(s.execution) + Begun(s.execution) == {} {
      a, rest := ContinueAction(0), [];
      FinishesAtRest(s);
      assert Unreviewed(Apply(s, a), rest);
    } else {
      a := ClearsOne(s);
      ApplyKeepsInv(s, a);
      ApplyKeepsLinks(s, a);
      rest := UnwindCanEnd(Apply(s, a));
    }
    Prepends(s, a, rest);
    more := [a] + rest;
  }

  /** `more` is a continuation of the run in which no call is answered twice and no review intervenes. */
  predicate Continues(s: Saga, history: seq<Action>, more: seq<Action>) {
    AnsweredOnce(history + more) && Unreviewed(Run(s, history), more)
  }

  /** A reachable unwind can end without a review exactly when it has no step ready or scheduled for a retry. */
  lemma UnwindEndsExactlyWhen(s: Saga, history: seq<Action>)
    requires Started(s) && AnsweredOnce(history) && Run(s, history).execution.status.Compensating?
    ensures (exists more :: Continues(s, history, more) && Ended(Run(s, history + more))) <==>
            !HeldUp(Run(s, history).execution)
  {
    var r := Run(s, history);
    if HeldUp(r.execution) {
      var i :| 0 <= i < |r.execution.steps| && Stalled(r.execution.steps[i]);
      forall more | Continues(s, history, more) ensures !Ended(Run(s, history + more)) {
        HeldUntilReviewed(s, history, more, i);
      }
    } else {
      StartedLinked(s);
      RunKeepsLinks(s, history);
      var more := UnwindCanEnd(r);
      RunsCompose(s, history, more);
      assert AnsweredOnce(history + more);
      assert Continues(s, history, more) && Ended(Run(s, history + more));
    }
  }

  // ----- nobody takes over a compensation -----

  /** The compensation of step `i` has begun and its claim is still to come. */
  predicate Unclaimed(s: Saga, i: nat) {
    && i < |s.execution.steps| && i in s.owed
    && s.execution.steps[i].status.Compensating? && s.execution.steps[i].compensationId.None?
  }

  /** The claim of step `i`, or an answer or report about its forward request. */
  predicate Concerns(a: Action, e: Execution, i: nat) {
    || (a.StartCompensationAction? && a.step == i)
    || ((a.SettleForwardAction? || a.HookAction?) && i < |e.steps| && e.steps[i].requestId == Some(a.id))
  }

  lemma CompensatingAdvance(e: Execution, done: set<RequestId>, now: int)
    requires e.status.Compensating?
    ensures var resumed := ResumeSteps(e.steps, done, now);
            Advance(e, done, now) ==
              if Promotes(resumed) then Ok(e.(steps := Promoted(resumed, now))) else Raised
  {
    var resumed := ResumeSteps(e.steps, done, now);
    RefreshIdles(e.(steps := Promoted(resumed, now)), now);
  }

  lemma HookPassesBy(e: Execution, id: RequestId, status: RequestStatus, now: int, i: nat)
    requires e.status.Compensating? && i < |e.steps| && !NamesRequest(e.steps[i], id) && !e.steps[i].status.Pending?
    requires Hook(e, id, status, now).Ok?
    ensures var f := Hook(e, id, status, now).value;
            (f.status.Compensating? || f.status.ManualReview?) && |f.steps| == |e.steps| && f.steps[i] == e.steps[i]
  {
  }

  lemma OthersPassBy(s: Saga, a: Action, i: nat)
    requires Inv(s) && s.execution.status.Compensating? && Unclaimed(s, i) && !Concerns(a, s.execution, i)
    requires a.StartCompensationAction? || a.SettleCompensationAction? || a.ContinueAction?
    ensures var f := Apply(s, a).execution;
            (f.status.Compensating? || f.status.ManualReview?) && |f.steps| == |s.execution.steps| &&
            f.steps[i] == s.execution.steps[i]
  {
    assert BookOk(s, i);
    if a.SettleCompensationAction? && CompensationRequest(a.step, a.id) in s.created {
      var k :| 0 <= k < |s.created| && s.created[k] == CompensationRequest(a.step, a.id);
    }
  }

  lemma UnclaimedStays(s: Saga, a: Action, i: nat)
    requires Inv(s) && s.execution.status.Compensating? && Unclaimed(s, i) && !Concerns(a, s.execution, i)
    ensures var r := Apply(s, a);
            (r.execution.status.Compensating? || r.execution.status.ManualReview?) && Unclaimed(r, i) &&
            r.execution.steps[i] == s.execution.steps[i]
  {
    var e := s.execution;
    match a
    case AdvanceAction(done, now) => CompensatingAdvance(e, done, now);
    case RefreshAction(now) => RefreshIdles(e, now);
    case SettleForwardAction(j, id, status, now) =>
      if j < |e.steps| && ForwardRequest(j, id) in s.created && SettleForward(e, j, id, status, now).Ok? {
        ForwardCreated(s, j, id);
        RefreshIdles(e.(steps := e.steps[j := SettleForwardStep(e.steps[j], id, status, now).value]), now);
      }
    case HookAction(id, status, now) => if Hook(e, id, status, now).Ok? { HookPassesBy(e, id, status, now, i); }
    case StartForwardAction(_, _, _) =>
    case CancelAction(_, _) =>
    case DeadlineAction(_) =>
    case _ => OthersPassBy(s, a, i);
  }

  /** Only the process that began a compensation goes on with it: if it never makes its claim, and nothing arrives about
      the step's forward request, then whatever else happens the unwind does not end without a review. */
  lemma {:induction false} UnclaimedUntilReviewed(s: Saga, actions: seq<Action>, i: nat)
    requires Inv(s) && s.execution.status.Compensating? && Unclaimed(s, i) && Unreviewed(s, actions)
    requires forall k :: 0 <= k < |actions| ==> !Concerns(actions[k], s.execution, i)
    ensures var r := Run(s, actions);
            r.execution.status.Compensating? && Unclaimed(r, i) && r.execution.steps[i] == s.execution.steps[i]
  {
    if actions != [] {
      var before, a := actions[..|actions| - 1], actions[|actions| - 1];
      UnreviewedBefore(s, actions);
      UnclaimedUntilReviewed(s, before, i);
      RunKeepsInv(s, before);
      UnclaimedStays(Run(s, before), a, i);
      RunLast(s, actions);
    }
  }

  /** Such a state is reached, by a run in which the only succeeded step begins to compensate after the deadline. */
  lemma UnclaimedIsReached()
    ensures exists s ::
      && Started(s) && Run(s, EARLY_REPORT[..6]).execution.status.Compensating?
      && Unclaimed(Run(s, EARLY_REPORT[..6]), 0)
  {
    EarlyStart();
    EarlySix();
    assert Started(EARLY_0);
  }

  // ----- the only way out -----

  /** Under review, or on the way out by a cancel command. */
  predicate LeavesByCancel(e: Execution) {
    e.status.ManualReview? || (IsSet(e.cancelReason) && (e.status.Compensating? || e.status.Cancelled?))
  }

  lemma HookKeepsLeaving(e: Execution, id: RequestId, status: RequestStatus, now: int)
    requires LeavesByCancel(e) && Hook(e, id, status, now).Ok?
    ensures LeavesByCancel(Hook(e, id, status, now).value)
  {
  }

  lemma StaysLeaving(s: Saga, a: Action)
    requires LeavesByCancel(s.execution)
    ensures LeavesByCancel(Apply(s, a).execution)
  {
    if a.HookAction? && Hook(s.execution, a.id, a.status, a.now).Ok? {
      HookKeepsLeaving(s.execution, a.id, a.status, a.now);
    }
  }

  /** An unwind that is held up never ends compensated: it can only end cancelled, by a cancel command that finds the
      execution in manual review. */
  lemma {:induction false} HeldNeverCompensated(s: Saga, history: seq<Action>, more: seq<Action>, i: nat)
    requires Started(s) && AnsweredOnce(history + more) && Run(s, history).execution.status.Compensating?
    requires i < |Run(s, history).execution.steps| && Stalled(Run(s, history).execution.steps[i])
    ensures var f := Run(s, history + more).execution;
            LeavesByCancel(f) ||
            (f.status.Compensating? && i < |f.steps| && f.steps[i] == Run(s, history).execution.steps[i])
  {
    if more == [] {
      assert history + more == history;
    } else {
      var before, a := more[..|more| - 1], more[|more| - 1];
      LastOfMore(s, history, more);
      HeldNeverCompensated(s, history, before, i);
      var r := Run(s, history + before);
      if LeavesByCancel(r.execution) {
        StaysLeaving(r, a);
      } else {
        StalledOnce(s, history + before, a, i);
      }
    }
  }

  // ----- exactly what holds an unwind up -----

  /** An `advance` that finds the execution compensating promotes a pending step, or a forward call is answered with a
      scheduled retry. */
  predicate HoldsUp(s: Saga, a: Action) {
    var steps := s.execution.steps;
    || (a.AdvanceAction? &&
        var resumed := ResumeSteps(steps, a.done, a.now);
        Promotes(resumed) && exists i :: 0 <= i < |resumed| && Promotable(resumed, i))
    || (a.SettleForwardAction? && a.status.RetryScheduled? && a.step < |steps| &&
        ForwardRequest(a.step, a.id) in s.created && steps[a.step].status.Running?)
  }

  predicate TurnsReady(e: Execution, f: Execution, i: nat) {
    i < |e.steps| && i < |f.steps| && f.steps[i].status.Ready? && !e.steps[i].status.Ready?
  }

  lemma HookReadiesNone(e: Execution, id: RequestId, status: RequestStatus, now: int, i: nat)
    requires e.status.Compensating? && Hook(e, id, status, now).Ok?
    ensures !TurnsReady(e, Hook(e, id, status, now).value, i)
  {
  }

  lemma SettleForwardReadiesNone(e: Execution, j: nat, id: RequestId, status: RequestStatus, now: int, i: nat)
    requires e.status.Compensating? && j < |e.steps| && SettleForward(e, j, id, status, now).Ok?
    ensures !TurnsReady(e, SettleForward(e, j, id, status, now).value, i)
  {
  }

  lemma OthersReadyNone(s: Saga, a: Action, i: nat)
    requires Inv(s) && s.execution.status.Compensating? && !a.AdvanceAction?
    ensures !TurnsReady(s.execution, Apply(s, a).execution, i)
  {
    var e := s.execution;
    match a
    case RefreshAction(now) => RefreshIdles(e, now);
    case SettleForwardAction(j, id, status, now) =>
      if j < |e.steps| && SettleForward(e, j, id, status, now).Ok? {
        SettleForwardReadiesNone(e, j, id, status, now, i);
      }
    case HookAction(id, status, now) => if Hook(e, id, status, now).Ok? { HookReadiesNone(e, id, status, now, i); }
    case StartCompensationAction(j, _, _) => if j in s.owed { assert BookOk(s, j); }
    case _ =>
  }

  lemma StallsOnlyIfHoldsUp(s: Saga, a: Action, i: nat)
    requires Inv(s) && s.execution.status.Compensating? && !HeldUp(s.execution)
    requires i < |s.execution.steps| == |Apply(s, a).execution.steps|
    ensures Stalled(Apply(s, a).execution.steps[i]) ==> HoldsUp(s, a)
  {
    var e := s.execution;
    assert !Stalled(e.steps[i]);
    if Stalled(Apply(s, a).execution.steps[i]) {
      if Apply(s, a).execution.steps[i].status.RetryScheduled? {
        RetryOnlyByAnswer(s, a, i);
        RetryNeedsCall(s, a);
      } else if a.AdvanceAction? {
        CompensatingAdvance(e, a.done, a.now);
        assert Promotable(ResumeSteps(e.steps, a.done, a.now), i);
      } else {
        OthersReadyNone(s, a, i);
      }
    }
  }

  lemma RetryNeedsCall(s: Saga, a: Action)
    requires a.SettleForwardAction? && Apply(s, a).execution != s.execution
    ensures a.step < |s.execution.steps| && ForwardRequest(a.step, a.id) in s.created
  {
  }

  lemma HoldupStalls(s: Saga, a: Action)
    requires Inv(s) && s.execution.status.Compensating? && HoldsUp(s, a)
    ensures Apply(s, a).execution.status.Compensating? && HeldUp(Apply(s, a).execution)
  {
    var e := s.execution;
    if a.AdvanceAction? {
      CompensatingAdvance(e, a.done, a.now);
      var resumed := ResumeSteps(e.steps, a.done, a.now);
      var i :| 0 <= i < |resumed| && Promotable(resumed, i);
      assert Stalled(Apply(s, a).execution.steps[i]);
    } else {
      var t := MoveStep(e.steps[a.step], StepStatus.RetryScheduled, a.now).value;
      RefreshIdles(e.(steps := e.steps[a.step := t]), a.now);
      assert Stalled(Apply(s, a).execution.steps[a.step]);
    }
  }

  /** A transaction holds up an unwind exactly when it is such a promotion or such an answer. */
  lemma HeldUpExactlyBy(s: Saga, a: Action)
    requires Inv(s) && s.execution.status.Compensating? && !HeldUp(s.execution)
    ensures HeldUp(Apply(s, a).execution) <==> HoldsUp(s, a)
  {
    ApplyKeepsInv(s, a);
    if HoldsUp(s, a) {
      HoldupStalls(s, a);
    } else {
      forall i | 0 <= i < |Apply(s, a).execution.steps| ensures !Stalled(Apply(s, a).execution.steps[i]) {
        StallsOnlyIfHoldsUp(s, a, i);
      }
    }
  }

  /** An execution that begins to compensate again out of a review has had its open steps cancelled. */
  lemma ReopenedClear(s: Saga, a: Action)
    requires Inv(s) && !s.execution.status.IsForward() && !s.execution.status.Compensating?
    requires Apply(s, a).execution.status.Compensating?
    ensures !HeldUp(Apply(s, a).execution)
  {
    var e := s.execution;
    ReviewedByCancelOnly(s, a);
    var f := Cancel(e, a.reason, a.now).value;
    forall i | 0 <= i < |f.steps| ensures !Stalled(f.steps[i]) {
      assert f.steps[i] == CancelStep(e.steps[i], a.now);
    }
  }

  lemma ReviewedByCancelOnly(s: Saga, a: Action)
    requires Inv(s) && !s.execution.status.IsForward() && !s.execution.status.Compensating?
    requires Apply(s, a).execution.status.Compensating?
    ensures s.execution.status.ManualReview? && a.CancelAction?
  {
    if s.execution.status.ManualReview? && a.HookAction? {
      ReviewedHook(s.execution, a.id, a.status, a.now);
    }
  }

  lemma ReviewedHook(e: Execution, id: RequestId, status: RequestStatus, now: int)
    requires e.status.ManualReview?
    ensures Hook(e, id, status, now).Ok? ==> Hook(e, id, status, now).value.status.ManualReview?
  {
  }

  predicate NeverHeldUp(s: Saga, actions: seq<Action>) {
    forall k :: 0 <= k <= |actions| ==>
      var e := Run(s, actions[..k]).execution; e.status.Compensating? ==> !HeldUp(e)
  }

  predicate NothingHoldsUp(s: Saga, actions: seq<Action>) {
    forall k :: 0 <= k < |actions| ==>
      var r := Run(s, actions[..k]); r.execution.status.Compensating? ==> !HoldsUp(r, actions[k])
  }

  lemma {:induction false} ClearWithoutHoldups(s: Saga, actions: seq<Action>, k: nat)
    requires Inv(s) && s.execution.status.Compensating? && !HeldUp(s.execution)
    requires NothingHoldsUp(s, actions) && k <= |actions|
    ensures var e := Run(s, actions[..k]).execution;
            !e.status.IsForward() && (e.status.Compensating? ==> !HeldUp(e))
  {
    if k == 0 {
      assert actions[..0] == [];
    } else {
      ClearWithoutHoldups(s, actions, k - 1);
      RunKeepsInv(s, actions[..k - 1]);
      RunStep(s, actions, k - 1);
      var r, a := Run(s, actions[..k - 1]), actions[k - 1];
      NoWayBackStep(r, a);
      if r.execution.status.Compensating? {
        HeldUpExactlyBy(r, a);
      } else if Apply(r, a).execution.status.Compensating? {
        ReopenedClear(r, a);
      }
    }
  }

  /** Throughout a run the unwind is free to end exactly when no such promotion and no such answer hits it. */
  lemma FreeThroughoutExactlyWhen(s: Saga, actions: seq<Action>)
    requires Inv(s) && s.execution.status.Compensating? && !HeldUp(s.execution)
    ensures NeverHeldUp(s, actions) <==> NothingHoldsUp(s, actions)
  {
    if NeverHeldUp(s, actions) {
      forall k | 0 <= k < |actions|
        ensures Run(s, actions[..k]).execution.status.Compensating? ==> !HoldsUp(Run(s, actions[..k]), actions[k])
      {
        var r := Run(s, actions[..k]);
        RunKeepsInv(s, actions[..k]);
        RunStep(s, actions, k);
        assert Run(s, actions[..k + 1]).execution.status.Compensating? ==> !HeldUp(Run(s, actions[..k + 1]).execution);
        if r.execution.status.Compensating? && HoldsUp(r, actions[k]) {
          HoldupStalls(r, actions[k]);
        }
      }
    } else if NothingHoldsUp(s, actions) {
      forall k | 0 <= k <= |actions|
        ensures Run(s, actions[..k]).execution.status.Compensating? ==> !HeldUp(Run(s, actions[..k]).execution)
      {
        ClearWithoutHoldups(s, actions, k);
      }
    }
  }

  // ----- a run that is held up -----

  /** Two independent steps are ready; the first one fails before the second is started. */
  const HELD_RUN: seq<Action> := EARLY_REPORT[..2] + [SettleForwardAction(0, 10, RequestStatus.Failed, 3)]

  const HELD_3 := Early(WorkflowStatus.Compensating, StepA(StepStatus.Failed, 3).(completedAt := Some(3)), READY_B,
                        None, {}, FORWARD_A, map[], 3)

  lemma HeldFails()
    ensures Apply(EARLY_2, SettleForwardAction(0, 10, RequestStatus.Failed, 3)) == HELD_3
  {
    assert ForwardRequest(0, 10) in EARLY_2.created;
    var steps := HELD_3.execution.steps;
    assert EARLY_2.execution.steps[0 := steps[0]] == steps;
    assert AnyFailed(steps) by { assert steps[0].status.Failed?; }
    assert SettleForward(EARLY_2.execution, 0, 10, RequestStatus.Failed, 3) == Ok(HELD_3.execution);
  }

  lemma HeldReached()
    ensures Run(EARLY_0, HELD_RUN) == HELD_3
  {
    var a := HELD_RUN;
    assert a[..0] == [] && a[..3] == a;
    assert a[0] == EARLY_REPORT[0] && a[1] == EARLY_REPORT[1];
    RunStep(EARLY_0, a, 0);
    EarlyAdvance();
    RunStep(EARLY_0, a, 1);
    EarlyLaunch();
    RunStep(EARLY_0, a, 2);
    HeldFails();
  }

  /** A run from a started saga after which the execution compensates for ever, unless it is sent to review. */
  lemma UnwindThatCannotEnd()
    ensures exists s ::
      && Started(s) && Run(s, HELD_RUN).execution.status.Compensating?
      && forall more :: Continues(s, HELD_RUN, more) ==> Run(s, HELD_RUN + more).execution.status.Compensating?
  {
    EarlyStart();
    HeldReached();
    assert Stalled(HELD_3.execution.steps[1]);
    forall more | Continues(EARLY_0, HELD_RUN, more)
      ensures Run(EARLY_0, HELD_RUN + more).execution.status.Compensating?
    {
      HeldUntilReviewed(EARLY_0, HELD_RUN, more, 1);
    }
    assert Started(EARLY_0);
  }
}
