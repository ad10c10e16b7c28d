/** What a finished unwind owes: every step that ever succeeded and has a compensating operation should have had it
    requested. Two late answers about the forward request break this: a success report and a failed settlement. */
module SagaRepayment {
  import opened Common
  import opened WorkflowStates
  import opened RequestStates
  import opened Workflow
  import opened SagaTransactions
  import opened SagaMachine
  import opened SagaCoherence
  import opened SagaInvariants
  import opened SagaLateReports

  /** Step `i` once succeeded, has an operation to undo it, and is neither succeeded nor being compensated any more. */
  predicate Closed(s: Saga, i: nat)
    requires i < |s.execution.steps|
  {
    var t := s.execution.steps[i];
    i in s.succeededAt && t.compensateOperation.Some? && !t.status.Succeeded? && !t.status.Compensating?
  }

  predicate RepaidStep(s: Saga, i: nat)
    requires i < |s.execution.steps|
  {
    Closed(s, i) ==> !NoCompensation(s.created, i)
  }

  /** Every such step has had its compensation requested. */
  predicate Repaid(s: Saga) {
    forall i :: 0 <= i < |s.execution.steps| ==> RepaidStep(s, i)
  }

  /** The forward request of a compensating step settles as failed before its compensation has been requested. */
  predicate StaleFailure(s: Saga, a: Action) {
    && a.SettleForwardAction? && (a.status.Failed? || a.status.ManualReview?)
    && a.step < |s.execution.steps| && ForwardRequest(a.step, a.id) in s.created
    && s.execution.steps[a.step].status.Compensating? && s.execution.steps[a.step].compensateOperation.Some?
    && NoCompensation(s.created, a.step)
  }

  predicate Defaults(s: Saga, a: Action) {
    PrematureReport(s, a) || StaleFailure(s, a)
  }

  // ----- a compensating step fails only when it is settled -----

  predicate TurnsFailed(e: Execution, f: Execution, i: nat) {
    i < |e.steps| && i < |f.steps| && e.steps[i].status.Compensating? && f.steps[i].status.Failed?
  }

  lemma SweepsFailNone(e: Execution, reason: Option<string>, now: int, i: nat)
    ensures Cancel(e, reason, now).Ok? ==> !TurnsFailed(e, Cancel(e, reason, now).value, i)
    ensures EnforceDeadline(e, now).Ok? ==> !TurnsFailed(e, EnforceDeadline(e, now).value, i)
  {
  }

  lemma RefreshFailsNone(e: Execution, now: int, i: nat)
    requires Refresh(e, now).Ok?
    ensures !TurnsFailed(e, Refresh(e, now).value, i)
    ensures i < |e.steps| && i < |Refresh(e, now).value.steps| && Refresh(e, now).value.steps[i].status.Failed? ==>
            e.steps[i].status.Failed?
  {
  }

  lemma AdvanceFailsNone(e: Execution, done: set<RequestId>, now: int, i: nat)
    requires Advance(e, done, now).Ok?
    ensures !TurnsFailed(e, Advance(e, done, now).value, i)
  {
    if Advances(e, now) {
      var status := if e.status.Queued? then WorkflowStatus.Running else e.status;
      RefreshFailsNone(e.(status := status, steps := Promoted(ResumeSteps(e.steps, done, now), now)), now, i);
    }
  }

  lemma ContinueFailsNone(e: Execution, now: int, i: nat)
    requires Continue(e, now).Ok?
    ensures !TurnsFailed(e, Continue(e, now).value, i)
  {
  }

  lemma HookFailsNone(e: Execution, id: RequestId, status: RequestStatus, now: int, i: nat)
    requires Hook(e, id, status, now).Ok?
    ensures !TurnsFailed(e, Hook(e, id, status, now).value, i)
  {
    var found := StepForRequest(e.steps, id);
    if IsHooked(status) && found.Some? {
      var s := HookStep(e.steps[found.value], id, status, now).value;
      var moved := e.(steps := e.steps[found.value := s]);
      if HookEscalates(e, e.steps[found.value], status) {
        moved := moved.(status := WorkflowStatus.ManualReview);
      }
      RefreshFailsNone(moved, now, i);
    }
  }

  lemma SettleForwardFails(e: Execution, j: nat, id: RequestId, status: RequestStatus, now: int, i: nat)
    requires j < |e.steps| && SettleForward(e, j, id, status, now).Ok?
    requires TurnsFailed(e, SettleForward(e, j, id, status, now).value, i)
    ensures i == j && (status.Failed? || status.ManualReview?)
  {
    var s := SettleForwardStep(e.steps[j], id, status, now).value;
    RefreshFailsNone(e.(steps := e.steps[j := s]), now, i);
  }

  lemma FailedOnlyBy(s: Saga, a: Action, i: nat)
    requires TurnsFailed(s.execution, Apply(s, a).execution, i) && s.execution.steps[i].compensateOperation.Some?
    ensures !NoCompensation(s.created, i) || StaleFailure(s, a)
  {
    var e := s.execution;
    match a
    case CancelAction(reason, now) => SweepsFailNone(e, reason, now, i);
    case DeadlineAction(now) => SweepsFailNone(e, None, now, i);
    case AdvanceAction(done, now) => AdvanceFailsNone(e, done, now, i);
    case RefreshAction(now) => RefreshFailsNone(e, now, i);
    case StartForwardAction(_, _, _) =>
    case SettleForwardAction(j, id, status, now) => SettleForwardFails(e, j, id, status, now, i);
    case HookAction(id, status, now) => HookFailsNone(e, id, status, now, i);
    case ContinueAction(now) => ContinueFailsNone(e, now, i);
    case StartCompensationAction(_, _, _) =>
    case SettleCompensationAction(j, id, status, now) =>
      var k :| 0 <= k < |s.created| && s.created[k] == CompensationRequest(j, id);
      assert !NoCompensation(s.created, j);
  }

  // ----- one transaction -----

  lemma StepStaysRepaid(s: Saga, a: Action, i: nat)
    requires Inv(s) && Repaid(s) && !Defaults(s, a) && i < |s.execution.steps|
    ensures i < |Apply(s, a).execution.steps| && RepaidStep(Apply(s, a), i)
  {
    var r := Apply(s, a);
    ApplyKeepsInv(s, a);
    assert HistoryOk(s, i) && HistoryOk(r, i) && RepaidStep(s, i);
    assert SameTemplate(s.execution.steps[i], r.execution.steps[i]);
    if Closed(r, i) {
      assert i in s.succeededAt;
      if Closed(s, i) {
        CreatedGrows(s, a, i);
      } else {
        LeftOpen(s, a, i);
        CreatedGrows(s, a, i);
      }
    }
  }

  /** A step that was still open and no longer is: something was requested for it. */
  lemma LeftOpen(s: Saga, a: Action, i: nat)
    requires Inv(s) && !Defaults(s, a) && i < |s.execution.steps| && i < |Apply(s, a).execution.steps|
    requires i in s.succeededAt && !Closed(s, i) && Closed(Apply(s, a), i)
    requires s.execution.steps[i].compensateOperation.Some?
    ensures !NoCompensation(s.created, i)
  {
    var e, f := s.execution, Apply(s, a).execution;
    ApplyKeepsInv(s, a);
    assert HistoryOk(Apply(s, a), i) && Moves(s, Apply(s, a), a.now);
    assert Follows(e, f, e.steps[i], f.steps[i], a.now);
    if f.steps[i].status.Compensated? {
      CompensatedOnlyBy(s, a, i);
    } else {
      FailedOnlyBy(s, a, i);
    }
  }

  lemma StaleFailureCommits(s: Saga, a: Action)
    requires Inv(s) && StaleFailure(s, a)
    ensures !Repaid(Apply(s, a))
  {
    var e, i := s.execution, a.step;
    assert CoherentStep(e.status, e.steps[i]) && HistoryOk(s, i);
    var failed := SettleForwardStep(e.steps[i], a.id, a.status, a.now).value;
    var moved := e.(steps := e.steps[i := failed]);
    assert Refresh(moved, a.now) == Ok(moved);
    assert !RepaidStep(Apply(s, a), i);
  }

  lemma PrematureReportDefaults(s: Saga, a: Action)
    requires Inv(s) && PrematureReport(s, a)
    ensures !Repaid(Apply(s, a))
  {
    var e := s.execution;
    var i := StepForRequest(e.steps, a.id).value;
    assert CoherentStep(e.status, e.steps[i]) && HistoryOk(s, i);
    var done := HookStep(e.steps[i], a.id, a.status, a.now).value;
    var moved := e.(steps := e.steps[i := done]);
    assert Refresh(moved, a.now) == Ok(moved);
    assert !RepaidStep(Apply(s, a), i);
  }

  /** A transaction leaves some step unpaid exactly when it is one of the two late answers. */
  lemma RepaidUnlessDefault(s: Saga, a: Action)
    requires Inv(s) && Repaid(s)
    ensures Repaid(Apply(s, a)) <==> !Defaults(s, a)
  {
    if StaleFailure(s, a) {
      StaleFailureCommits(s, a);
    } else if PrematureReport(s, a) {
      PrematureReportDefaults(s, a);
    } else {
      ApplyKeepsInv(s, a);
      forall i | 0 <= i < |Apply(s, a).execution.steps| ensures RepaidStep(Apply(s, a), i) {
        StepStaysRepaid(s, a, i);
      }
    }
  }

  // ----- whole runs -----

  predicate AlwaysRepaid(s: Saga, actions: seq<Action>) {
    forall k :: 0 <= k <= |actions| ==> Repaid(Run(s, actions[..k]))
  }

  predicate NeverDefaults(s: Saga, actions: seq<Action>) {
    forall k :: 0 <= k < |actions| ==> !Defaults(Run(s, actions[..k]), actions[k])
  }

  lemma {:induction false} RepaidWithoutDefaults(s: Saga, actions: seq<Action>, k: nat)
    requires Inv(s) && Repaid(s) && NeverDefaults(s, actions) && k <= |actions|
    ensures Repaid(Run(s, actions[..k]))
  {
    if k == 0 {
      assert actions[..0] == [];
    } else {
      RepaidWithoutDefaults(s, actions, k - 1);
      RunKeepsInv(s, actions[..k - 1]);
      RunStep(s, actions, k - 1);
      RepaidUnlessDefault(Run(s, actions[..k - 1]), actions[k - 1]);
    }
  }

  /** Throughout a run every closed step has had its compensation requested exactly when neither late answer occurs. */
  lemma RepaidThroughoutExactlyWhen(s: Saga, actions: seq<Action>)
    requires Inv(s) && Repaid(s)
    ensures AlwaysRepaid(s, actions) <==> NeverDefaults(s, actions)
  {
    if AlwaysRepaid(s, actions) {
      forall k | 0 <= k < |actions| ensures !Defaults(Run(s, actions[..k]), actions[k]) {
        assert Repaid(Run(s, actions[..k])) && Repaid(Run(s, actions[..k + 1]));
        RunKeepsInv(s, actions[..k]);
        RunStep(s, actions, k);
        RepaidUnlessDefault(Run(s, actions[..k]), actions[k]);
      }
    } else if NeverDefaults(s, actions) {
      forall k | 0 <= k <= |actions| ensures Repaid(Run(s, actions[..k])) {
        RepaidWithoutDefaults(s, actions, k);
      }
    }
  }

  /** In a run without them, a compensated execution has requested the compensation of every step that ever succeeded
      and has one. */
  lemma CompensatedExecutionsRepaid(s: Saga, actions: seq<Action>, i: nat)
    requires Started(s) && NeverDefaults(s, actions)
    requires var r := Run(s, actions);
      r.execution.status.Compensated? && i in r.succeededAt && i < |r.execution.steps| &&
      r.execution.steps[i].compensateOperation.Some?
    ensures !NoCompensation(Run(s, actions).created, i)
  {
    var r := Run(s, actions);
    StartedInv(s);
    RunKeepsInv(s, actions);
    assert s.succeededAt == map[];
    RepaidWithoutDefaults(s, actions, |actions|);
    assert actions[..|actions|] == actions;
    assert CoherentStep(r.execution.status, r.execution.steps[i]) && RepaidStep(r, i);
  }

  /** The unwind of the execution ends in this transaction, compensated or cancelled. */
  predicate EndsUnwind(s: Saga, a: Action) {
    s.execution.status.Compensating? && (Apply(s, a).execution.status.Compensated? ||
                                         Apply(s, a).execution.status.Cancelled?)
  }

  lemma HookEndsNone(e: Execution, id: RequestId, status: RequestStatus, now: int)
    requires e.status.Compensating? && Hook(e, id, status, now).Ok?
    ensures !Hook(e, id, status, now).value.status.Compensated? && !Hook(e, id, status, now).value.status.Cancelled?
  {
  }

  lemma EndsFinished(s: Saga, a: Action)
    requires EndsUnwind(s, a)
    ensures a.ContinueAction? && UnwindFinished(Apply(s, a).execution.steps)
  {
    if a.HookAction? && Hook(s.execution, a.id, a.status, a.now).Ok? {
      HookEndsNone(s.execution, a.id, a.status, a.now);
    }
  }

  lemma {:induction false} CreatedGrowsOn(s: Saga, actions: seq<Action>, k: nat, i: nat)
    requires k <= |actions| && !NoCompensation(Run(s, actions[..k]).created, i)
    ensures !NoCompensation(Run(s, actions).created, i)
    decreases |actions| - k
  {
    if k == |actions| {
      assert actions[..k] == actions;
    } else {
      RunStep(s, actions, k);
      CreatedGrows(Run(s, actions[..k]), actions[k], i);
      CreatedGrowsOn(s, actions, k + 1, i);
    }
  }

  /** Likewise however the unwind ends, and so also when it ends cancelled: from then on every step that had succeeded
      and has a compensation has had it requested. */
  lemma UnwoundExecutionsRepaid(s: Saga, actions: seq<Action>, k: nat, i: nat)
    requires Started(s) && NeverDefaults(s, actions)
    requires k < |actions| && EndsUnwind(Run(s, actions[..k]), actions[k])
    requires var r := Run(s, actions[..k + 1]);
      i in r.succeededAt && i < |r.execution.steps| && r.execution.steps[i].compensateOperation.Some?
    ensures !NoCompensation(Run(s, actions).created, i)
  {
    var r := Run(s, actions[..k + 1]);
    StartedInv(s);
    RunKeepsInv(s, actions[..k + 1]);
    RunStep(s, actions, k);
    EndsFinished(Run(s, actions[..k]), actions[k]);
    RepaidWithoutDefaults(s, actions, k + 1);
    assert HistoryOk(r, i) && RepaidStep(r, i);
    CreatedGrowsOn(s, actions, k + 1, i);
  }

  // ----- a run with a stale failure -----

  const STALE_RUN: seq<Action> :=
    EARLY_REPORT[..6] + [SettleForwardAction(0, 10, RequestStatus.ManualReview, 7), ContinueAction(8)]

  const STALE_7 := Early(WorkflowStatus.Compensating, StepA(StepStatus.Failed, 7).(completedAt := Some(7)), EXPIRED_B,
                         Some(5), {0}, FORWARD_A, map[0 := 4], 7)
  const STALE_8 := STALE_7.(execution := STALE_7.execution.(status := WorkflowStatus.Compensated), clock := 8)

  lemma StaleSettles()
    ensures Apply(EARLY_6, SettleForwardAction(0, 10, RequestStatus.ManualReview, 7)) == STALE_7
  {
    assert ForwardRequest(0, 10) in EARLY_6.created;
    assert EARLY_6.execution.steps[0 := STALE_7.execution.steps[0]] == STALE_7.execution.steps;
    assert SettleForward(EARLY_6.execution, 0, 10, RequestStatus.ManualReview, 7) == Ok(STALE_7.execution);
  }

  lemma StaleFinishes()
    ensures Apply(STALE_7, ContinueAction(8)) == STALE_8
  {
    assert UnwindFinished(STALE_7.execution.steps);
    assert Continue(STALE_7.execution, 8) == Ok(STALE_8.execution);
  }

  lemma StaleRun()
    ensures Run(EARLY_0, STALE_RUN) == STALE_8
  {
    var a := STALE_RUN;
    assert a[..6] == EARLY_REPORT[..6] && a[..8] == a;
    EarlySix();
    RunStep(EARLY_0, a, 6);
    StaleSettles();
    RunStep(EARLY_0, a, 7);
    StaleFinishes();
  }

  /** A run from a started saga that ends compensated although the only step that succeeded was never compensated. */
  lemma FailedWithoutCompensation()
    ensures exists s ::
      && Started(s) && Run(s, STALE_RUN).execution.status.Compensated?
      && 0 in Run(s, STALE_RUN).succeededAt && NoCompensation(Run(s, STALE_RUN).created, 0)
  {
    EarlyStart();
    StaleRun();
    assert Started(EARLY_0);
  }

  // ----- compensated because the compensation succeeded -----

  /** A success of the compensation request of the compensating step `i` arrives. */
  predicate ReportsCompensation(s: Saga, a: Action, i: nat) {
    && i < |s.execution.steps| && s.execution.steps[i].status.Compensating?
    && ((a.SettleCompensationAction? && a.step == i && a.status.Succeeded? &&
        CompensationRequest(i, a.id) in s.created) ||
        (a.HookAction? && a.status.Succeeded? && StepForRequest(s.execution.steps, a.id) == Some(i) &&
         CompensationRequest(i, a.id) in s.created))
  }

  /** The hook takes the success of another request, in fact the forward one, for that of the compensation. */
  predicate Misattributed(s: Saga, a: Action) {
    && a.HookAction? && a.status.Succeeded?
    && var found := StepForRequest(s.execution.steps, a.id);
       && found.Some?
       && s.execution.steps[found.value].status.Compensating?
       && s.execution.steps[found.value].compensateOperation.Some?
       && CompensationRequest(found.value, a.id) !in s.created
  }

  lemma CompensatedByReport(s: Saga, a: Action, i: nat)
    requires Inv(s)
    requires TurnsCompensated(s.execution, Apply(s, a).execution, i) && s.execution.steps[i].compensateOperation.Some?
    ensures ReportsCompensation(s, a, i) || Misattributed(s, a)
  {
    var e := s.execution;
    match a
    case CancelAction(reason, now) => SweepsCompensateNone(e, reason, now, i);
    case DeadlineAction(now) => SweepsCompensateNone(e, None, now, i);
    case AdvanceAction(done, now) => AdvanceCompensatesNone(e, done, now, i);
    case RefreshAction(now) => RefreshCompensatesNone(e, now, i);
    case StartForwardAction(_, _, _) =>
    case SettleForwardAction(j, id, status, now) => SettleForwardCompensatesNone(e, j, id, status, now, i);
    case HookAction(id, status, now) => HookCompensatesReported(e, id, status, now, i);
    case ContinueAction(now) => ContinueCompensatesNone(e, now, i);
    case StartCompensationAction(_, _, _) =>
    case SettleCompensationAction(j, id, status, now) =>
      CompensationCreated(s, j, id);
      assert CoherentStep(e.status, e.steps[i]);
  }

  lemma MisattributedCompensates(s: Saga, a: Action)
    requires Inv(s) && Misattributed(s, a)
    ensures var i := StepForRequest(s.execution.steps, a.id).value;
            TurnsCompensated(s.execution, Apply(s, a).execution, i) && !ReportsCompensation(s, a, i)
  {
    var e := s.execution;
    var i := StepForRequest(e.steps, a.id).value;
    assert CoherentStep(e.status, e.steps[i]);
    var done := HookStep(e.steps[i], a.id, a.status, a.now).value;
    var moved := e.(steps := e.steps[i := done]);
    assert Refresh(moved, a.now) == Ok(moved);
  }

  /** Some step turns compensated without its own compensation being reported successful. */
  ghost predicate CompensatesUnreported(s: Saga, a: Action) {
    exists i: nat ::
      && TurnsCompensated(s.execution, Apply(s, a).execution, i)
      && s.execution.steps[i].compensateOperation.Some? && !ReportsCompensation(s, a, i)
  }

  /** That happens exactly on a misattributed report. */
  lemma UnreportedExactlyWhenMisattributed(s: Saga, a: Action)
    requires Inv(s)
    ensures CompensatesUnreported(s, a) <==> Misattributed(s, a)
  {
    if Misattributed(s, a) {
      MisattributedCompensates(s, a);
    } else if CompensatesUnreported(s, a) {
      var i: nat :|
        && TurnsCompensated(s.execution, Apply(s, a).execution, i)
        && s.execution.steps[i].compensateOperation.Some? && !ReportsCompensation(s, a, i);
      CompensatedByReport(s, a, i);
      assert false;
    }
  }

  /** The success of step `i`'s compensation was reported at some point of the run. */
  ghost predicate Vouched(s: Saga, actions: seq<Action>, i: nat) {
    exists k :: 0 <= k < |actions| && ReportsCompensation(Run(s, actions[..k]), actions[k], i)
  }

  predicate NeverMisattributed(s: Saga, actions: seq<Action>) {
    forall k :: 0 <= k < |actions| ==> !Misattributed(Run(s, actions[..k]), actions[k])
  }

  /** In every run without such reports, a step with a compensating operation is compensated only after the success of
      that compensation was reported. */
  lemma {:induction false} CompensatedMeansReported(s: Saga, actions: seq<Action>, n: nat, i: nat)
    requires Inv(s) && NeverMisattributed(s, actions) && n <= |actions| && i < |s.execution.steps|
    requires !s.execution.steps[i].status.Compensated? && s.execution.steps[i].compensateOperation.Some?
    ensures var steps := Run(s, actions[..n]).execution.steps;
            && |steps| == |s.execution.steps| && SameTemplate(s.execution.steps[i], steps[i])
            && (steps[i].status.Compensated? ==> Vouched(s, actions, i))
  {
    if n == 0 {
      assert actions[..0] == [];
    } else {
      var before, a := Run(s, actions[..n - 1]), actions[n - 1];
      CompensatedMeansReported(s, actions, n - 1, i);
      RunKeepsInv(s, actions[..n - 1]);
      RunStep(s, actions, n - 1);
      ApplyKeepsInv(before, a);
      if TurnsCompensated(before.execution, Apply(before, a).execution, i) {
        CompensatedByReport(before, a, i);
        assert ReportsCompensation(Run(s, actions[..n - 1]), actions[n - 1], i);
      }
    }
  }
}
