/** A step with a compensating operation should only count as compensated once that
    operation has been requested. It does, except that the terminal hook does not
    distinguish a step's two requests: a late success report about the forward request
    marks a compensating step as compensated. */
module SagaLateReports {
  import opened Common
  import opened WorkflowStates
  import opened RequestStates
  import opened Workflow
  import opened SagaTransactions
  import opened SagaMachine
  import opened SagaCoherence
  import opened SagaInvariants

  /** Every compensated step that has a compensating operation has requested it. */
  predicate Honest(s: Saga) {
    forall i :: 0 <= i < |s.execution.steps| ==> HonestStep(s, i)
  }

  predicate HonestStep(s: Saga, i: nat)
    requires i < |s.execution.steps|
  {
    s.execution.steps[i].status.Compensated? && s.execution.steps[i].compensateOperation.Some? ==>
      !NoCompensation(s.created, i)
  }

  /** The hook reports success for a request whose step is compensating, has an operation to
      run, and has not created its compensation request yet. */
  predicate PrematureReport(s: Saga, a: Action) {
    && a.HookAction? && a.status.Succeeded?
    && var found := StepForRequest(s.execution.steps, a.id);
       && found.Some?
       && s.execution.steps[found.value].status.Compensating?
       && s.execution.steps[found.value].compensateOperation.Some?
       && NoCompensation(s.created, found.value)
  }

  lemma CreatedGrows(s: Saga, a: Action, i: nat)
    requires !NoCompensation(s.created, i)
    ensures !NoCompensation(Apply(s, a).created, i)
  {
    var k :| 0 <= k < |s.created| && s.created[k].CompensationRequest? && s.created[k].step == i;
    assert Apply(s, a).created[k] == s.created[k];
  }

  /** Step `i` turns compensated between `e` and `f`. */
  predicate TurnsCompensated(e: Execution, f: Execution, i: nat) {
    i < |e.steps| && i < |f.steps| && !e.steps[i].status.Compensated? && f.steps[i].status.Compensated?
  }

  lemma SweepsCompensateNone(e: Execution, reason: Option<string>, now: int, i: nat)
    ensures Cancel(e, reason, now).Ok? ==> !TurnsCompensated(e, Cancel(e, reason, now).value, i)
    ensures EnforceDeadline(e, now).Ok? ==> !TurnsCompensated(e, EnforceDeadline(e, now).value, i)
  {
  }

  lemma RefreshCompensatesNone(e: Execution, now: int, i: nat)
    requires Refresh(e, now).Ok?
    ensures !TurnsCompensated(e, Refresh(e, now).value, i)
  {
  }

  lemma AdvanceCompensatesNone(e: Execution, done: set<RequestId>, now: int, i: nat)
    requires Advance(e, done, now).Ok?
    ensures !TurnsCompensated(e, Advance(e, done, now).value, i)
  {
    if Advances(e, now) {
      var status := if e.status.Queued? then WorkflowStatus.Running else e.status;
      RefreshCompensatesNone(e.(status := status, steps := Promoted(ResumeSteps(e.steps, done, now), now)), now, i);
    }
  }

  lemma SettleForwardCompensatesNone(e: Execution, j: nat, id: RequestId, status: RequestStatus, now: int, i: nat)
    requires j < |e.steps| && SettleForward(e, j, id, status, now).Ok?
    ensures !TurnsCompensated(e, SettleForward(e, j, id, status, now).value, i)
  {
    var s := SettleForwardStep(e.steps[j], id, status, now).value;
    RefreshCompensatesNone(e.(steps := e.steps[j := s]), now, i);
  }

  lemma ContinueCompensatesNone(e: Execution, now: int, i: nat)
    requires Continue(e, now).Ok?
    ensures !TurnsCompensated(e, Continue(e, now).value, i)
  {
  }

  lemma HookCompensatesReported(e: Execution, id: RequestId, status: RequestStatus, now: int, i: nat)
    requires Hook(e, id, status, now).Ok? && TurnsCompensated(e, Hook(e, id, status, now).value, i)
    ensures StepForRequest(e.steps, id) == Some(i) && e.steps[i].status.Compensating? && status.Succeeded?
  {
  }

  /** A step turns compensated only through its own compensation, or through the hook. */
  lemma CompensatedOnlyBy(s: Saga, a: Action, i: nat)
    requires TurnsCompensated(s.execution, Apply(s, a).execution, i) && s.execution.steps[i].compensateOperation.Some?
    ensures !NoCompensation(s.created, i) || PrematureReport(s, a)
  {
    var e := s.execution;
    match a
    case CancelAction(reason, now) => SweepsCompensateNone(e, reason, now, i);
    case DeadlineAction(now) => SweepsCompensateNone(e, None, now, i);
    case AdvanceAction(done, now) => AdvanceCompensatesNone(e, done, now, i);
    case RefreshAction(now) => RefreshCompensatesNone(e, now, i);
    case StartForwardAction(_, _, _) =>
    case SettleForwardAction(j, id, status, now) => SettleForwardCompensatesNone(e, j, id, status, now, i);
    case HookAction(id, status, now) => HookCompensatesReported(e, id, status, now, i);
    case ContinueAction(now) => ContinueCompensatesNone(e, now, i);
    case StartCompensationAction(_, _, _) =>
    case SettleCompensationAction(j, id, status, now) =>
      var k :| 0 <= k < |s.created| && s.created[k] == CompensationRequest(j, id);
      assert !NoCompensation(s.created, j);
  }

  lemma PrematureReportCommits(s: Saga, a: Action)
    requires Inv(s) && PrematureReport(s, a)
    ensures !Honest(Apply(s, a))
  {
    var e := s.execution;
    var i := StepForRequest(e.steps, a.id).value;
    assert CoherentStep(e.status, e.steps[i]);
    var done := HookStep(e.steps[i], a.id, a.status, a.now).value;
    var moved := e.(steps := e.steps[i := done]);
    assert done.status.Compensated?;
    assert Refresh(moved, a.now) == Ok(moved);
    assert !HonestStep(Apply(s, a), i);
  }

  /** A transaction keeps the saga honest exactly when it is not a premature report. */
  lemma HonestUnlessPremature(s: Saga, a: Action)
    requires Inv(s) && Honest(s)
    ensures Honest(Apply(s, a)) <==> !PrematureReport(s, a)
  {
    var r := Apply(s, a);
    if PrematureReport(s, a) {
      PrematureReportCommits(s, a);
    } else {
      ApplyKeepsInv(s, a);
      forall i | 0 <= i < |r.execution.steps| ensures HonestStep(r, i) {
        assert HonestStep(s, i);
        assert SameTemplate(s.execution.steps[i], r.execution.steps[i]);
        if r.execution.steps[i].status.Compensated? && r.execution.steps[i].compensateOperation.Some? {
          if !s.execution.steps[i].status.Compensated? { CompensatedOnlyBy(s, a, i); }
          CreatedGrows(s, a, i);
        }
      }
    }
  }

  predicate NeverPremature(s: Saga, actions: seq<Action>) {
    forall k :: 0 <= k < |actions| ==> !PrematureReport(Run(s, actions[..k]), actions[k])
  }

  /** In a run without premature reports, compensated always means compensation requested. */
  lemma {:induction false} HonestRuns(s: Saga, actions: seq<Action>)
    requires Inv(s) && Honest(s) && NeverPremature(s, actions)
    ensures Honest(Run(s, actions))
  {
    if actions != [] {
      var before := actions[..|actions| - 1];
      forall k | 0 <= k < |before| ensures !PrematureReport(Run(s, before[..k]), before[k]) {
        assert before[..k] == actions[..k];
      }
      HonestRuns(s, before);
      RunKeepsInv(s, before);
      HonestUnlessPremature(Run(s, before), actions[|actions| - 1]);
    }
  }

  // ----- a run that reports too early -----

  function RootStep(key: string): (r: Step)
  {
    Step(key, [], Some("undo"), StepStatus.Pending, 0, None, None, 0, None)
  }

  /** Step "a" waits for its webhook; a worker sees the request succeeded and resumes the
      step; the deadline passes and the unwind begins with "a"; only then does the hook of
      the forward request run. */
  const EARLY_REPORT: seq<Action> := [
    AdvanceAction({}, 1),
    StartForwardAction(0, 10, 2),
    SettleForwardAction(0, 10, RequestStatus.Pending, 3),
    AdvanceAction({10}, 4),
    DeadlineAction(5),
    ContinueAction(6),
    HookAction(10, RequestStatus.Succeeded, 7),
    ContinueAction(8)]

  function StepA(status: StepStatus, updatedAt: int): (r: Step)
  {
    RootStep("a").(status := status, updatedAt := updatedAt, attemptCount := 1, requestId := Some(10))
  }

  const READY_B := RootStep("b").(status := StepStatus.Ready)
  const EXPIRED_B := RootStep("b").(status := StepStatus.Cancelled, updatedAt := 5, completedAt := Some(5))
  const FORWARD_A := [ForwardRequest(0, 10)]

  function Early(status: WorkflowStatus, a: Step, b: Step, processed: Option<int>, owed: set<nat>,
                 created: seq<Creation>, stamps: map<nat, int>, clock: int): (r: Saga)
  {
    Saga(Execution(status, [a, b], Some(5), processed, None), if clock == 0 then {} else {0, 1},
         owed, created, stamps, clock)
  }

  const EARLY_0 := Early(WorkflowStatus.Queued, RootStep("a").(status := StepStatus.Ready), READY_B, None, {}, [],
                         map[], 0)
  const EARLY_1 := Early(WorkflowStatus.Running, RootStep("a").(status := StepStatus.Ready), READY_B, None, {}, [],
                         map[], 1)
  const EARLY_2 := Early(WorkflowStatus.Running, StepA(StepStatus.Running, 2), READY_B, None, {}, FORWARD_A, map[], 2)
  const EARLY_3 := Early(WorkflowStatus.Waiting, StepA(StepStatus.Waiting, 3), READY_B, None, {}, FORWARD_A, map[], 3)
  const EARLY_4 := Early(WorkflowStatus.Running, StepA(StepStatus.Succeeded, 4).(completedAt := Some(4)), READY_B,
                         None, {}, FORWARD_A, map[0 := 4], 4)
  const EARLY_5 := Early(WorkflowStatus.Compensating, StepA(StepStatus.Succeeded, 4).(completedAt := Some(4)),
                         EXPIRED_B, Some(5), {}, FORWARD_A, map[0 := 4], 5)
  const EARLY_6 := Early(WorkflowStatus.Compensating, StepA(StepStatus.Compensating, 6).(completedAt := Some(4)),
                         EXPIRED_B, Some(5), {0}, FORWARD_A, map[0 := 4], 6)
  const EARLY_7 := Early(WorkflowStatus.Compensating,
                         StepA(StepStatus.Compensated, 7).(completedAt := Some(7), compensationId := Some(10)),
                         EXPIRED_B, Some(5), {0}, FORWARD_A, map[0 := 4], 7)
  const EARLY_8 := EARLY_7.(execution := EARLY_7.execution.(status := WorkflowStatus.Compensated), clock := 8)

  lemma EarlyStart()
    ensures Started(EARLY_0)
  {
    var steps := [RootStep("a"), RootStep("b")];
    assert Promoted(steps, 0) == EARLY_0.execution.steps;
    assert Start(steps, Some(5), 0) == Ok(EARLY_0.execution);
  }

  lemma EarlyAdvance()
    ensures Apply(EARLY_0, EARLY_REPORT[0]) == EARLY_1
  {
    var e := EARLY_0.execution;
    assert ResumeSteps(e.steps, {}, 1) == e.steps && Promoted(e.steps, 1) == e.steps;
    var f := EARLY_1.execution;
    assert f == e.(status := WorkflowStatus.Running);
    assert !AllSucceeded(f.steps) by { assert !f.steps[0].status.Succeeded?; }
    assert Advance(e, {}, 1) == Ok(f);
  }

  lemma EarlyLaunch()
    ensures Apply(EARLY_1, EARLY_REPORT[1]) == EARLY_2
  {
    assert StartForward(EARLY_1.execution, 0, 10, 2) == EARLY_2.execution;
  }

  lemma EarlyWait()
    ensures Apply(EARLY_2, EARLY_REPORT[2]) == EARLY_3
  {
    assert ForwardRequest(0, 10) in EARLY_2.created;
    var steps := EARLY_3.execution.steps;
    assert EARLY_2.execution.steps[0 := steps[0]] == steps;
    assert AnyWaiting(steps) by { assert steps[0].status.Waiting?; }
    assert SettleForward(EARLY_2.execution, 0, 10, RequestStatus.Pending, 3) == Ok(EARLY_3.execution);
  }

  lemma EarlyResumedSteps()
    ensures ResumeSteps(EARLY_3.execution.steps, {10}, 4) == EARLY_4.execution.steps
    ensures Promoted(EARLY_4.execution.steps, 4) == EARLY_4.execution.steps
  {
  }

  lemma EarlyResume()
    ensures Apply(EARLY_3, EARLY_REPORT[3]) == EARLY_4
  {
    var e, f := EARLY_3.execution, EARLY_4.execution;
    assert Advances(e, 4);
    EarlyResumedSteps();
    assert !AllSucceeded(f.steps) by { assert !f.steps[1].status.Succeeded?; }
    assert Advance(e, {10}, 4) == Ok(f);
  }

  lemma EarlyExpire()
    ensures Apply(EARLY_4, EARLY_REPORT[4]) == EARLY_5
  {
    assert ExpireSteps(EARLY_4.execution.steps, 5) == EARLY_5.execution.steps;
    assert AnySucceeded(EARLY_5.execution.steps) by { assert EARLY_5.execution.steps[0].status.Succeeded?; }
  }

  lemma EarlyBegin()
    ensures Apply(EARLY_5, EARLY_REPORT[5]) == EARLY_6
  {
    var steps := EARLY_5.execution.steps;
    assert AnySucceeded(steps) by { assert steps[0].status.Succeeded?; }
    assert NextToCompensate(steps) == Some(0);
    assert steps[0 := EARLY_6.execution.steps[0]] == EARLY_6.execution.steps;
    assert Continue(EARLY_5.execution, 6) == Ok(EARLY_6.execution);
  }

  lemma EarlyHook()
    ensures Apply(EARLY_6, EARLY_REPORT[6]) == EARLY_7
  {
    assert StepForRequest(EARLY_6.execution.steps, 10) == Some(0);
    assert EARLY_6.execution.steps[0 := EARLY_7.execution.steps[0]] == EARLY_7.execution.steps;
    assert Hook(EARLY_6.execution, 10, RequestStatus.Succeeded, 7) == Ok(EARLY_7.execution);
  }

  lemma EarlyFinish()
    ensures Apply(EARLY_7, EARLY_REPORT[7]) == EARLY_8
  {
    assert UnwindFinished(EARLY_7.execution.steps);
    assert Continue(EARLY_7.execution, 8) == Ok(EARLY_8.execution);
  }

  lemma RunStep(s: Saga, actions: seq<Action>, k: nat)
    requires k < |actions|
    ensures Run(s, actions[..k + 1]) == Apply(Run(s, actions[..k]), actions[k])
  {
    assert actions[..k + 1][..k] == actions[..k];
  }

  lemma EarlySix()
    ensures Run(EARLY_0, EARLY_REPORT[..6]) == EARLY_6
  {
    var a := EARLY_REPORT;
    assert a[..0] == [];
    RunStep(EARLY_0, a, 0);
    EarlyAdvance();
    RunStep(EARLY_0, a, 1);
    EarlyLaunch();
    RunStep(EARLY_0, a, 2);
    EarlyWait();
    RunStep(EARLY_0, a, 3);
    EarlyResume();
    RunStep(EARLY_0, a, 4);
    EarlyExpire();
    RunStep(EARLY_0, a, 5);
    EarlyBegin();
  }

  lemma EarlyRun()
    ensures Run(EARLY_0, EARLY_REPORT) == EARLY_8
  {
    var a := EARLY_REPORT;
    assert a[..8] == a;
    EarlySix();
    RunStep(EARLY_0, a, 6);
    EarlyHook();
    RunStep(EARLY_0, a, 7);
    EarlyFinish();
  }

  /** The execution is compensated, its first step's compensation was never requested, and
      the process that owes it may still request it. */
  predicate CompensatedUnrequested(r: Saga) {
    && r.execution.status.Compensated? && |r.execution.steps| == 2
    && r.execution.steps[0].status.Compensated? && r.execution.steps[0].compensateOperation.Some?
    && NoCompensation(r.created, 0)
    && Apply(r, StartCompensationAction(0, 11, 9)).created == r.created + [CompensationRequest(0, 11)]
  }

  lemma EarlyOutcome()
    ensures CompensatedUnrequested(EARLY_8)
  {
  }

  /** A run from a started saga that ends compensated with no compensation requested. */
  lemma CompensatedWithoutCompensation()
    ensures exists s :: Started(s) && CompensatedUnrequested(Run(s, EARLY_REPORT))
  {
    EarlyStart();
    EarlyRun();
    EarlyOutcome();
    assert Started(EARLY_0) && CompensatedUnrequested(Run(EARLY_0, EARLY_REPORT));
  }
}
