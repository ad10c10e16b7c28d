/** Every transaction moves each step along a known edge and keeps the step statuses
    coherent with the execution status. */
module SagaCoherence {
  import opened Common
  import opened WorkflowStates
  import opened RequestStates
  import opened Workflow
  import opened SagaTransactions
  import opened SagaMachine

  predicate Untouched(s: Step) {
    s.status.Pending? || s.status.Ready?
  }

  predicate Unwound(s: Step) {
    s.status.Failed? || s.status.Compensating? || s.status.Compensated?
  }

  predicate AtRest(s: Step) {
    s.status.Compensated? || s.status.Failed? || s.status.Cancelled? || s.status.Pending?
  }

  /** The unwind is done with the step. */
  predicate Undone(s: Step) {
    s.status.Compensated? || s.status.Failed?
  }

  /** Which step statuses each execution status allows, in every committed state. */
  predicate Coherent(e: Execution) {
    && (e.status.IsForward() || e.status.Compensating? || e.status.Compensated? || e.status.Succeeded? ||
        e.status.Cancelled? || e.status.ManualReview?)
    && forall i :: 0 <= i < |e.steps| ==> CoherentStep(e.status, e.steps[i])
  }

  predicate CoherentStep(status: WorkflowStatus, s: Step) {
    && !s.status.Skipped? && !s.status.DeadLettered?
    && (status.Queued? ==> Untouched(s))
    && (status.IsForward() ==> !Unwound(s))
    && (status.Succeeded? ==> s.status.Succeeded?)
    && (status.Compensated? ==> AtRest(s))
  }

  /** Only a step that is unwinding or unwound carries a compensation request. */
  predicate CompensationIdsOk(e: Execution) {
    forall i :: 0 <= i < |e.steps| && e.steps[i].compensationId.Some? ==> Unwound(e.steps[i])
  }

  lemma CancelEvolves(e: Execution, reason: Option<string>, now: int)
    requires Coherent(e) && Cancel(e, reason, now).Ok?
    ensures var f := Cancel(e, reason, now).value; Evolves(e, f, now) && Coherent(f)
  {
  }

  lemma ExpiredStepFollows(e: Execution, f: Execution, s: Step, now: int)
    requires CoherentStep(e.status, s) && !f.status.IsForward()
    ensures Follows(e, f, s, ExpireStep(s, now), now)
    ensures f.status.Compensating? || f.status.Cancelled? ==> CoherentStep(f.status, ExpireStep(s, now))
  {
  }

  lemma DeadlineEvolves(e: Execution, now: int)
    requires Coherent(e) && EnforceDeadline(e, now).Ok?
    ensures var f := EnforceDeadline(e, now).value; Evolves(e, f, now) && Coherent(f)
  {
    var f := EnforceDeadline(e, now).value;
    if f != e {
      assert f.status.Compensating? || f.status.Cancelled?;
      assert f.steps == ExpireSteps(e.steps, now);
      forall j | 0 <= j < |e.steps|
        ensures Follows(e, f, e.steps[j], f.steps[j], now) && CoherentStep(f.status, f.steps[j])
      {
        ExpiredStepFollows(e, f, e.steps[j], now);
      }
    }
  }

  lemma ContinueEvolves(e: Execution, now: int)
    requires Coherent(e) && Continue(e, now).Ok?
    ensures var f := Continue(e, now).value; Evolves(e, f, now) && Coherent(f)
  {
    var f := Continue(e, now).value;
    forall j | 0 <= j < |e.steps|
      ensures Follows(e, f, e.steps[j], f.steps[j], now) && CoherentStep(f.status, f.steps[j])
    {
      assert CoherentStep(e.status, e.steps[j]);
    }
  }

  lemma StartForwardEvolves(e: Execution, i: nat, id: RequestId, now: int)
    requires Coherent(e) && StartsForward(e, i, now)
    requires !e.status.Queued?
    ensures var f := StartForward(e, i, id, now); Evolves(e, f, now) && Coherent(f)
  {
  }

  lemma StartCompensationEvolves(e: Execution, i: nat, id: RequestId, now: int)
    requires Coherent(e) && i < |e.steps| && Unwound(e.steps[i]) && StartCompensation(e, i, id, now).Ok?
    ensures var f := StartCompensation(e, i, id, now).value; Evolves(e, f, now) && Coherent(f)
  {
  }

  lemma SettleCompensationEvolves(e: Execution, i: nat, id: RequestId, status: RequestStatus, now: int)
    requires Coherent(e) && i < |e.steps| && Unwound(e.steps[i]) && SettleCompensation(e, i, id, status, now).Ok?
    ensures var f := SettleCompensation(e, i, id, status, now).value; Evolves(e, f, now) && Coherent(f)
  {
  }

  // ----- transactions that end in a refresh -----

  /** Coherent, except that forward work may have just failed. */
  predicate NearlyCoherent(e: Execution) {
    && (e.status.IsForward() || e.status.Compensating? || e.status.Compensated? || e.status.Succeeded? ||
        e.status.Cancelled? || e.status.ManualReview?)
    && forall i :: 0 <= i < |e.steps| ==>
         CoherentStep(e.status, e.steps[i]) ||
         (e.status.IsForward() && !e.status.Queued? && e.steps[i].status.Failed?)
  }

  /** A refresh restores coherence and changes steps only by promoting them. */
  lemma RefreshRestores(e: Execution, now: int)
    requires NearlyCoherent(e) && Refresh(e, now).Ok?
    ensures var f := Refresh(e, now).value;
            Coherent(f) && (f.steps == e.steps || f.steps == Promoted(e.steps, now))
  {
  }

  /** Outside forward work a refresh changes nothing. */
  lemma RefreshIdles(e: Execution, now: int)
    requires e.status.Compensating? || e.status.Compensated? || e.status.Succeeded? || e.status.Cancelled? ||
             e.status.ManualReview?
    ensures Refresh(e, now) == Ok(e)
  {
  }

  /** Promotion reads only which steps have succeeded, and does not change that. */
  lemma PromotionKeepsChecks(steps: seq<Step>, now: int, keys: seq<string>)
    ensures CheckDependencies(Promoted(steps, now), keys) == CheckDependencies(steps, keys)
  {
    CheckReadsOnlySuccess(steps, Promoted(steps, now), keys);
  }

  lemma PromotedTwice(steps: seq<Step>, now: int)
    ensures Promoted(Promoted(steps, now), now) == Promoted(steps, now)
  {
    var once := Promoted(steps, now);
    forall i | 0 <= i < |steps| ensures PromotedStep(once, i, now) == once[i] {
      PromotionKeepsChecks(steps, now, steps[i].dependsOn);
    }
  }

  lemma PromotedStepFollows(e: Execution, f: Execution, steps: seq<Step>, j: nat, now: int)
    requires j < |steps| && f.steps == Promoted(steps, now)
    ensures Follows(e, f, steps[j], f.steps[j], now)
  {
    PromotionKeepsChecks(steps, now, steps[j].dependsOn);
  }

  lemma RefreshEvolves(e: Execution, now: int)
    requires Coherent(e) && Refresh(e, now).Ok?
    ensures var f := Refresh(e, now).value; Evolves(e, f, now) && Coherent(f)
  {
    RefreshRestores(e, now);
    var f := Refresh(e, now).value;
    if f.steps != e.steps {
      forall j | 0 <= j < |e.steps| ensures Follows(e, f, e.steps[j], f.steps[j], now) {
        PromotedStepFollows(e, f, e.steps, j, now);
      }
    }
  }

  lemma AdvanceEvolves(e: Execution, done: set<RequestId>, now: int)
    requires Coherent(e) && Advance(e, done, now).Ok?
    ensures var f := Advance(e, done, now).value; Evolves(e, f, now) && Coherent(f)
    ensures Advances(e, now) ==> !Advance(e, done, now).value.status.Queued?
  {
    var f := Advance(e, done, now).value;
    if Advances(e, now) {
      var resumed := ResumeSteps(e.steps, done, now);
      var status := if e.status.Queued? then WorkflowStatus.Running else e.status;
      var promoted := e.(status := status, steps := Promoted(resumed, now));
      assert NearlyCoherent(promoted);
      RefreshRestores(promoted, now);
      PromotedTwice(resumed, now);
      forall j | 0 <= j < |e.steps| ensures Follows(e, f, e.steps[j], f.steps[j], now) {
        PromotedStepFollows(e, f, resumed, j, now);
        assert resumed[j] == ResumeStep(e.steps[j], done, now);
      }
    }
  }

  /** One step moved outside the unwind, then the execution was refreshed. */
  lemma MovedThenRefreshed(e: Execution, moved: Execution, i: nat, s: Step, now: int)
    requires Coherent(e) && i < |e.steps|
    requires moved.steps == e.steps[i := s] && NearlyCoherent(moved) && Refresh(moved, now).Ok?
    requires !s.status.Pending?
    requires forall f :: Coherent(f) && i < |f.steps| && f.steps[i] == s ==> Follows(e, f, e.steps[i], s, now)
    ensures var f := Refresh(moved, now).value; Evolves(e, f, now) && Coherent(f)
  {
    RefreshRestores(moved, now);
    var f := Refresh(moved, now).value;
    forall j | 0 <= j < |e.steps| ensures Follows(e, f, e.steps[j], f.steps[j], now) {
      if f.steps != moved.steps {
        PromotedStepFollows(e, f, moved.steps, j, now);
      }
    }
  }

  lemma SettleForwardEvolves(e: Execution, i: nat, id: RequestId, status: RequestStatus, now: int)
    requires Coherent(e) && i < |e.steps|
    requires !Untouched(e.steps[i]) && e.steps[i].requestId == Some(id)
    requires SettleForward(e, i, id, status, now).Ok?
    ensures var f := SettleForward(e, i, id, status, now).value; Evolves(e, f, now) && Coherent(f)
  {
    var s := SettleForwardStep(e.steps[i], id, status, now).value;
    MovedThenRefreshed(e, e.(steps := e.steps[i := s]), i, s, now);
  }

  /** The step a report moves, wherever the refresh after it leaves the execution. */
  lemma HookedStepFollows(e: Execution, f: Execution, s: Step, id: RequestId, status: RequestStatus, now: int)
    requires CoherentStep(e.status, s) && (s.compensationId.Some? ==> Unwound(s)) && HookStep(s, id, status, now).Ok?
    requires s.requestId == Some(id) || s.compensationId == Some(id)
    requires CoherentStep(f.status, HookStep(s, id, status, now).value)
    ensures Follows(e, f, s, HookStep(s, id, status, now).value, now)
  {
  }

  lemma HookedNearlyCoherent(e: Execution, i: nat, id: RequestId, status: RequestStatus, now: int)
    requires Coherent(e) && i < |e.steps| && HookStep(e.steps[i], id, status, now).Ok?
    ensures var moved := e.(steps := e.steps[i := HookStep(e.steps[i], id, status, now).value]);
            && NearlyCoherent(moved)
            && (HookEscalates(e, e.steps[i], status) ==> NearlyCoherent(moved.(status := WorkflowStatus.ManualReview)))
  {
    assert CoherentStep(e.status, e.steps[i]);
  }

  lemma HookEvolves(e: Execution, id: RequestId, status: RequestStatus, now: int)
    requires Coherent(e) && CompensationIdsOk(e)
    requires Hook(e, id, status, now).Ok?
    ensures var f := Hook(e, id, status, now).value; Evolves(e, f, now) && Coherent(f)
  {
    var found := StepForRequest(e.steps, id);
    if IsHooked(status) && found.Some? {
      var i := found.value;
      var s := HookStep(e.steps[i], id, status, now).value;
      var moved := e.(steps := e.steps[i := s]);
      if HookEscalates(e, e.steps[i], status) {
        moved := moved.(status := WorkflowStatus.ManualReview);
      }
      if s.status.Pending? {
        assert moved.steps == e.steps;
        RefreshEvolves(e, now);
      } else {
        HookedNearlyCoherent(e, i, id, status, now);
        forall f | Coherent(f) && i < |f.steps| && f.steps[i] == s ensures Follows(e, f, e.steps[i], s, now) {
          HookedStepFollows(e, f, e.steps[i], id, status, now);
        }
        MovedThenRefreshed(e, moved, i, s, now);
      }
    }
  }
}
