/** What every run of the saga keeps: coherence, request bookkeeping, dependency
    history and, under a strictly increasing clock, completion times. */
module SagaInvariants {
  import opened Common
  import opened WorkflowStates
  import opened RequestStates
  import opened Workflow
  import opened SagaTransactions
  import opened SagaMachine
  import opened SagaCoherence

  predicate NoForward(created: seq<Creation>, i: nat) {
    forall k :: 0 <= k < |created| && created[k].ForwardRequest? ==> created[k].step != i
  }

  predicate NoCompensation(created: seq<Creation>, i: nat) {
    forall k :: 0 <= k < |created| && created[k].CompensationRequest? ==> created[k].step != i
  }

  /** No step has two forward requests or two compensation requests. */
  predicate OnePerStep(created: seq<Creation>) {
    forall k, l :: 0 <= k < l < |created| && created[k].ForwardRequest? == created[l].ForwardRequest? ==>
      created[k].step != created[l].step
  }

  predicate CreatedOk(s: Saga) {
    && OnePerStep(s.created)
    && (forall k :: 0 <= k < |s.created| ==> s.created[k].step < |s.execution.steps|)
    && (forall k :: 0 <= k < |s.created| && s.created[k].ForwardRequest? ==>
          s.execution.steps[s.created[k].step].requestId == Some(s.created[k].id))
  }

  /** Requests, attempts and owed compensations agree with the status of step `i`. */
  predicate BookOk(s: Saga, i: nat)
    requires i < |s.execution.steps|
  {
    var t := s.execution.steps[i];
    && t.attemptCount <= 1
    && (Untouched(t) ==> t.attemptCount == 0 && t.requestId.None? && NoForward(s.created, i))
    && (t.compensationId.Some? || i in s.owed || !NoCompensation(s.created, i) ==> Unwound(t))
    && (i in s.owed ==> NoCompensation(s.created, i))
  }

  /** Step `i` has been promoted: at that moment its dependencies had all succeeded. */
  predicate WasPromoted(s: Saga, i: nat)
    requires i < |s.execution.steps|
  {
    i in s.succeededAt || s.execution.steps[i].status.Ready? || Active(s.execution.steps[i])
  }

  ghost predicate DependenciesSucceeded(s: Saga, i: nat)
    requires i < |s.execution.steps|
  {
    forall j: nat :: DependsOn(s.execution.steps, i, j) ==> j in s.succeededAt
  }

  ghost predicate HistoryOk(s: Saga, i: nat)
    requires i < |s.execution.steps|
  {
    var t := s.execution.steps[i];
    && (t.status.Succeeded? || t.status.Compensating? || t.status.Compensated? ==> i in s.succeededAt)
    && (i in s.succeededAt ==> t.status.Succeeded? || Unwound(t))
    && (WasPromoted(s, i) ==> DependenciesSucceeded(s, i))
  }

  ghost predicate Inv(s: Saga) {
    && Coherent(s.execution)
    && CreatedOk(s)
    && (s.execution.status.Queued? ==> s.listed == {})
    && (forall i :: i in s.succeededAt ==> i < |s.execution.steps|)
    && (forall i :: i in s.owed ==> i < |s.execution.steps|)
    && (forall i :: 0 <= i < |s.execution.steps| ==> BookOk(s, i))
    && (forall i :: 0 <= i < |s.execution.steps| ==> HistoryOk(s, i))
  }

  // ----- one transaction -----

  /** The transaction either changed nothing in the store or committed at `now`. */
  predicate Moves(s: Saga, r: Saga, now: int) {
    || (r.execution == s.execution && r.succeededAt == s.succeededAt && r.clock == s.clock)
    || (Evolves(s.execution, r.execution, now) && r.succeededAt == Stamp(s, r.execution, now) && r.clock == now)
  }

  lemma EvolvedShape(e: Execution, f: Execution, now: int)
    requires Evolves(e, f, now)
    ensures SameShape(e.steps, f.steps)
  {
  }

  lemma HistoryKept(s: Saga, f: Execution, i: nat, now: int)
    requires Inv(s) && Evolves(s.execution, f, now) && Coherent(f) && i < |f.steps|
    ensures HistoryOk(Commit(s, f, now), i)
  {
    var r := Commit(s, f, now);
    var e := s.execution;
    EvolvedShape(e, f, now);
    assert Follows(e, f, e.steps[i], f.steps[i], now) && BookOk(s, i) && HistoryOk(s, i);
    if WasPromoted(r, i) {
      forall j: nat | DependsOn(f.steps, i, j) ensures j in r.succeededAt {
        ShapeFixesDependencies(e.steps, f.steps, i, j);
        if WasPromoted(s, i) {
          assert j in s.succeededAt;
        } else {
          assert EdgeOf(e.steps[i], f.steps[i]).Promote?;
          SatisfiedStepDependencies(f.steps, i, j);
        }
      }
    }
  }

  /** A transaction that creates nothing and begins nothing keeps the books. */
  lemma BookKept(s: Saga, f: Execution, i: nat, now: int)
    requires Inv(s) && Evolves(s.execution, f, now) && i < |f.steps|
    requires !EdgeOf(s.execution.steps[i], f.steps[i]).Launch? && !EdgeOf(s.execution.steps[i], f.steps[i]).Begin?
    ensures BookOk(Commit(s, f, now), i)
  {
    assert Follows(s.execution, f, s.execution.steps[i], f.steps[i], now) && BookOk(s, i);
  }

  predicate Quiet(e: Execution, f: Execution) {
    |e.steps| == |f.steps| &&
    forall i :: 0 <= i < |e.steps| ==> !EdgeOf(e.steps[i], f.steps[i]).Launch? && !EdgeOf(e.steps[i], f.steps[i]).Begin?
  }

  lemma QuietCommitKeepsInv(s: Saga, f: Execution, now: int)
    requires Inv(s) && Evolves(s.execution, f, now) && Coherent(f) && Quiet(s.execution, f)
    requires f.status.Queued? ==> s.execution.status.Queued?
    ensures Inv(Commit(s, f, now))
  {
    var r := Commit(s, f, now);
    forall i | 0 <= i < |f.steps| ensures BookOk(r, i) && HistoryOk(r, i) {
      BookKept(s, f, i, now);
      HistoryKept(s, f, i, now);
    }
    forall k | 0 <= k < |r.created| && r.created[k].ForwardRequest?
      ensures f.steps[r.created[k].step].requestId == Some(r.created[k].id)
    {
      var i := r.created[k].step;
      assert Follows(s.execution, f, s.execution.steps[i], f.steps[i], now);
    }
  }

  lemma InvIdsOk(s: Saga)
    requires Inv(s)
    ensures CompensationIdsOk(s.execution)
  {
    forall i | 0 <= i < |s.execution.steps| && s.execution.steps[i].compensationId.Some?
      ensures Unwound(s.execution.steps[i])
    {
      assert BookOk(s, i);
    }
  }

  lemma ForwardCreated(s: Saga, i: nat, id: RequestId)
    requires Inv(s) && ForwardRequest(i, id) in s.created
    ensures i < |s.execution.steps| && !Untouched(s.execution.steps[i]) && s.execution.steps[i].requestId == Some(id)
  {
    var k :| 0 <= k < |s.created| && s.created[k] == ForwardRequest(i, id);
    assert BookOk(s, i);
  }

  lemma CompensationCreated(s: Saga, i: nat, id: RequestId)
    requires Inv(s) && CompensationRequest(i, id) in s.created
    ensures i < |s.execution.steps| && Unwound(s.execution.steps[i])
  {
    var k :| 0 <= k < |s.created| && s.created[k] == CompensationRequest(i, id);
    assert BookOk(s, i) && !NoCompensation(s.created, i);
  }

  lemma StartForwardKeepsInv(s: Saga, i: nat, id: RequestId, now: int)
    requires Inv(s) && i in s.listed && StartsForward(s.execution, i, now) && Fresh(s, id)
    ensures Inv(Apply(s, StartForwardAction(i, id, now))) && Moves(s, Apply(s, StartForwardAction(i, id, now)), now)
  {
    var e := s.execution;
    var f := StartForward(e, i, id, now);
    StartForwardEvolves(e, i, id, now);
    var r := Commit(s, f, now).(created := s.created + [ForwardRequest(i, id)]);
    assert BookOk(s, i);
    forall j | 0 <= j < |f.steps| ensures BookOk(r, j) && HistoryOk(r, j) {
      HistoryKept(s, f, j, now);
      assert HistoryOk(Commit(s, f, now), j) && BookOk(s, j);
      assert r.succeededAt == Commit(s, f, now).succeededAt;
    }
    assert CreatedOk(r);
  }

  lemma ContinueKeepsInv(s: Saga, now: int)
    requires Inv(s)
    ensures Inv(Apply(s, ContinueAction(now))) && Moves(s, Apply(s, ContinueAction(now)), now)
  {
    var e := s.execution;
    if Continue(e, now).Ok? {
      var f := Continue(e, now).value;
      ContinueEvolves(e, now);
      if BeginsCompensation(e) {
        var r := Apply(s, ContinueAction(now));
        forall j | 0 <= j < |f.steps| ensures BookOk(r, j) && HistoryOk(r, j) {
          HistoryKept(s, f, j, now);
          assert HistoryOk(Commit(s, f, now), j) && BookOk(s, j);
        }
        assert CreatedOk(r);
      } else {
        QuietCommitKeepsInv(s, f, now);
      }
    }
  }

  lemma CompensationListed(s: Saga, i: nat, id: RequestId)
    requires CreatedOk(s) && i < |s.execution.steps| && NoCompensation(s.created, i)
    ensures CreatedOk(s.(created := s.created + [CompensationRequest(i, id)]))
    ensures forall j :: NoForward(s.created, j) ==> NoForward(s.created + [CompensationRequest(i, id)], j)
    ensures forall j :: NoCompensation(s.created, j) && j != i ==>
              NoCompensation(s.created + [CompensationRequest(i, id)], j)
  {
  }

  /** The claim commits: its request is listed and the step is owed nothing more. */
  lemma ClaimedKeepsInv(s: Saga, i: nat, id: RequestId, now: int)
    requires Inv(s) && i in s.owed && i < |s.execution.steps| && Fresh(s, id) &&
             StartCompensation(s.execution, i, id, now).Ok?
    ensures Inv(Apply(s, StartCompensationAction(i, id, now)))
  {
    var e := s.execution;
    var f := StartCompensation(e, i, id, now).value;
    assert BookOk(s, i);
    StartCompensationEvolves(e, i, id, now);
    QuietCommitKeepsInv(s, f, now);
    var mid := Commit(s, f, now);
    var r := Apply(s, StartCompensationAction(i, id, now));
    CompensationListed(mid, i, id);
    forall j | 0 <= j < |f.steps| ensures BookOk(r, j) && HistoryOk(r, j) {
      assert BookOk(mid, j) && HistoryOk(mid, j);
    }
  }

  lemma StartCompensationKeepsInv(s: Saga, i: nat, id: RequestId, now: int)
    requires Inv(s) && i in s.owed && Fresh(s, id)
    ensures Inv(Apply(s, StartCompensationAction(i, id, now)))
    ensures Moves(s, Apply(s, StartCompensationAction(i, id, now)), now)
  {
    var e := s.execution;
    assert BookOk(s, i);
    if StartCompensation(e, i, id, now).Ok? {
      StartCompensationEvolves(e, i, id, now);
      ClaimedKeepsInv(s, i, id, now);
    } else {
      var r := Apply(s, StartCompensationAction(i, id, now));
      forall j | 0 <= j < |e.steps| ensures BookOk(r, j) && HistoryOk(r, j) {
        assert BookOk(s, j) && HistoryOk(s, j);
      }
    }
  }

  /** The actions that only move statuses. */
  lemma QuietActionKeepsInv(s: Saga, outcome: Outcome<Execution>, now: int)
    requires Inv(s)
    requires outcome.Ok? ==>
      && Evolves(s.execution, outcome.value, now) && Coherent(outcome.value) && Quiet(s.execution, outcome.value)
      && (outcome.value.status.Queued? ==> s.execution.status.Queued?)
    ensures Inv(CommitOrAbort(s, outcome, now)) && Moves(s, CommitOrAbort(s, outcome, now), now)
  {
    if outcome.Ok? {
      QuietCommitKeepsInv(s, outcome.value, now);
    }
  }

  lemma AdvanceKeepsInv(s: Saga, done: set<RequestId>, now: int)
    requires Inv(s)
    ensures Inv(Apply(s, AdvanceAction(done, now))) && Moves(s, Apply(s, AdvanceAction(done, now)), now)
  {
    var e := s.execution;
    if Advance(e, done, now).Ok? {
      var f := Advance(e, done, now).value;
      AdvanceEvolves(e, done, now);
      AdvanceQuiet(e, done, now);
      QuietCommitKeepsInv(s, f, now);
      var mid := Commit(s, f, now);
      var r := Apply(s, AdvanceAction(done, now));
      forall j | 0 <= j < |f.steps| ensures BookOk(r, j) && HistoryOk(r, j) {
        assert BookOk(mid, j) && HistoryOk(mid, j);
      }
    }
  }

  lemma CancelQuiet(e: Execution, reason: Option<string>, now: int)
    requires Cancel(e, reason, now).Ok?
    ensures Quiet(e, Cancel(e, reason, now).value)
    ensures Cancel(e, reason, now).value.status.Queued? ==> e.status.Queued?
  {
  }

  lemma DeadlineQuiet(e: Execution, now: int)
    requires EnforceDeadline(e, now).Ok?
    ensures Quiet(e, EnforceDeadline(e, now).value)
    ensures EnforceDeadline(e, now).value.status.Queued? ==> e.status.Queued?
  {
  }

  lemma SettleCompensationQuiet(e: Execution, i: nat, id: RequestId, status: RequestStatus, now: int)
    requires i < |e.steps| && SettleCompensation(e, i, id, status, now).Ok?
    ensures Quiet(e, SettleCompensation(e, i, id, status, now).value)
    ensures SettleCompensation(e, i, id, status, now).value.status.Queued? ==> e.status.Queued?
  {
  }

  /** No step starts running or compensating. */
  predicate OnlySettles(before: seq<Step>, after: seq<Step>) {
    |before| == |after| &&
    forall i :: 0 <= i < |before| ==>
      after[i] == before[i] || !(after[i].status.Running? || after[i].status.Compensating?)
  }

  lemma SettlingIsQuiet(e: Execution, f: Execution)
    requires OnlySettles(e.steps, f.steps)
    ensures Quiet(e, f)
  {
  }

  lemma SettlingTwice(a: seq<Step>, b: seq<Step>, c: seq<Step>)
    requires OnlySettles(a, b) && OnlySettles(b, c)
    ensures OnlySettles(a, c)
  {
  }

  lemma RefreshSettles(e: Execution, now: int)
    requires Refresh(e, now).Ok?
    ensures OnlySettles(e.steps, Refresh(e, now).value.steps)
    ensures Refresh(e, now).value.status.Queued? ==> e.status.Queued?
  {
  }

  lemma RefreshQuiet(e: Execution, now: int)
    requires Refresh(e, now).Ok?
    ensures Quiet(e, Refresh(e, now).value)
    ensures Refresh(e, now).value.status.Queued? ==> e.status.Queued?
  {
    RefreshSettles(e, now);
    SettlingIsQuiet(e, Refresh(e, now).value);
  }

  /** Steps settled, then the execution was refreshed. */
  lemma SettledThenRefreshed(e: Execution, moved: Execution, now: int)
    requires OnlySettles(e.steps, moved.steps) && Refresh(moved, now).Ok?
    ensures Quiet(e, Refresh(moved, now).value)
    ensures Refresh(moved, now).value.status.Queued? ==> moved.status.Queued?
  {
    var f := Refresh(moved, now).value;
    RefreshSettles(moved, now);
    SettlingTwice(e.steps, moved.steps, f.steps);
    SettlingIsQuiet(e, f);
  }

  lemma AdvanceQuiet(e: Execution, done: set<RequestId>, now: int)
    requires Advance(e, done, now).Ok?
    ensures Quiet(e, Advance(e, done, now).value)
    ensures Advance(e, done, now).value.status.Queued? ==> e.status.Queued?
  {
    if Advances(e, now) {
      var status := if e.status.Queued? then WorkflowStatus.Running else e.status;
      var resumed := ResumeSteps(e.steps, done, now);
      var promoted := Promoted(resumed, now);
      assert OnlySettles(e.steps, resumed);
      assert OnlySettles(resumed, promoted);
      SettlingTwice(e.steps, resumed, promoted);
      SettledThenRefreshed(e, e.(status := status, steps := promoted), now);
    }
  }

  lemma SettleForwardQuiet(e: Execution, i: nat, id: RequestId, status: RequestStatus, now: int)
    requires i < |e.steps| && SettleForward(e, i, id, status, now).Ok?
    ensures Quiet(e, SettleForward(e, i, id, status, now).value)
    ensures SettleForward(e, i, id, status, now).value.status.Queued? ==> e.status.Queued?
  {
    var s := SettleForwardStep(e.steps[i], id, status, now).value;
    assert OnlySettles(e.steps, e.steps[i := s]);
    SettledThenRefreshed(e, e.(steps := e.steps[i := s]), now);
  }

  lemma HookQuiet(e: Execution, id: RequestId, status: RequestStatus, now: int)
    requires Hook(e, id, status, now).Ok?
    ensures Quiet(e, Hook(e, id, status, now).value)
    ensures Hook(e, id, status, now).value.status.Queued? ==> e.status.Queued?
  {
    var found := StepForRequest(e.steps, id);
    if IsHooked(status) && found.Some? {
      var i := found.value;
      var s := HookStep(e.steps[i], id, status, now).value;
      var moved := e.(steps := e.steps[i := s]);
      assert OnlySettles(e.steps, moved.steps);
      if HookEscalates(e, e.steps[i], status) {
        moved := moved.(status := WorkflowStatus.ManualReview);
      }
      SettledThenRefreshed(e, moved, now);
    }
  }

  lemma SweepsKeepInv(s: Saga, reason: Option<string>, now: int)
    requires Inv(s)
    ensures Inv(Apply(s, CancelAction(reason, now))) && Moves(s, Apply(s, CancelAction(reason, now)), now)
    ensures Inv(Apply(s, DeadlineAction(now))) && Moves(s, Apply(s, DeadlineAction(now)), now)
  {
    var e := s.execution;
    if Cancel(e, reason, now).Ok? { CancelEvolves(e, reason, now); CancelQuiet(e, reason, now); }
    QuietActionKeepsInv(s, Cancel(e, reason, now), now);
    if EnforceDeadline(e, now).Ok? { DeadlineEvolves(e, now); DeadlineQuiet(e, now); }
    QuietActionKeepsInv(s, EnforceDeadline(e, now), now);
  }

  lemma RefreshKeepsInv(s: Saga, now: int)
    requires Inv(s)
    ensures Inv(Apply(s, RefreshAction(now))) && Moves(s, Apply(s, RefreshAction(now)), now)
  {
    if Refresh(s.execution, now).Ok? { RefreshEvolves(s.execution, now); RefreshQuiet(s.execution, now); }
    QuietActionKeepsInv(s, Refresh(s.execution, now), now);
  }

  lemma SettleForwardKeepsInv(s: Saga, i: nat, id: RequestId, status: RequestStatus, now: int)
    requires Inv(s)
    ensures var a := SettleForwardAction(i, id, status, now); Inv(Apply(s, a)) && Moves(s, Apply(s, a), now)
  {
    var e := s.execution;
    if i < |e.steps| && ForwardRequest(i, id) in s.created {
      ForwardCreated(s, i, id);
      if SettleForward(e, i, id, status, now).Ok? {
        SettleForwardEvolves(e, i, id, status, now);
        SettleForwardQuiet(e, i, id, status, now);
      }
      QuietActionKeepsInv(s, SettleForward(e, i, id, status, now), now);
    }
  }

  lemma HookKeepsInv(s: Saga, id: RequestId, status: RequestStatus, now: int)
    requires Inv(s)
    ensures var a := HookAction(id, status, now); Inv(Apply(s, a)) && Moves(s, Apply(s, a), now)
  {
    var e := s.execution;
    InvIdsOk(s);
    if Hook(e, id, status, now).Ok? {
      HookEvolves(e, id, status, now);
      HookQuiet(e, id, status, now);
    }
    QuietActionKeepsInv(s, Hook(e, id, status, now), now);
  }

  lemma SettleCompensationKeepsInv(s: Saga, i: nat, id: RequestId, status: RequestStatus, now: int)
    requires Inv(s)
    ensures var a := SettleCompensationAction(i, id, status, now); Inv(Apply(s, a)) && Moves(s, Apply(s, a), now)
  {
    var e := s.execution;
    if i < |e.steps| && CompensationRequest(i, id) in s.created {
      CompensationCreated(s, i, id);
      if SettleCompensation(e, i, id, status, now).Ok? {
        SettleCompensationEvolves(e, i, id, status, now);
        SettleCompensationQuiet(e, i, id, status, now);
      }
      QuietActionKeepsInv(s, SettleCompensation(e, i, id, status, now), now);
    }
  }

  /** Every transaction, in any order, keeps the invariant. */
  lemma ApplyKeepsInv(s: Saga, a: Action)
    requires Inv(s)
    ensures Inv(Apply(s, a)) && Moves(s, Apply(s, a), a.now)
  {
    match a
    case CancelAction(reason, now) => SweepsKeepInv(s, reason, now);
    case DeadlineAction(now) => SweepsKeepInv(s, None, now);
    case AdvanceAction(done, now) => AdvanceKeepsInv(s, done, now);
    case RefreshAction(now) => RefreshKeepsInv(s, now);
    case StartForwardAction(i, id, now) =>
      if i in s.listed && StartsForward(s.execution, i, now) && Fresh(s, id) { StartForwardKeepsInv(s, i, id, now); }
    case SettleForwardAction(i, id, status, now) => SettleForwardKeepsInv(s, i, id, status, now);
    case HookAction(id, status, now) => HookKeepsInv(s, id, status, now);
    case ContinueAction(now) => ContinueKeepsInv(s, now);
    case StartCompensationAction(i, id, now) =>
      if i < |s.execution.steps| && i in s.owed && Fresh(s, id) { StartCompensationKeepsInv(s, i, id, now); }
    case SettleCompensationAction(i, id, status, now) => SettleCompensationKeepsInv(s, i, id, status, now);
  }

  lemma StartedStep(s: Saga, steps: seq<Step>, i: nat)
    requires i < |steps| && FreshStep(steps[i]) && s.execution.steps == Promoted(steps, s.clock)
    requires s.execution.status.Queued? && s.created == [] && s.owed == {} && s.listed == {} && s.succeededAt == map[]
    requires forall j :: 0 <= j < |steps| ==> !steps[j].status.Succeeded?
    ensures BookOk(s, i) && HistoryOk(s, i)
  {
    var e := s.execution;
    PromotionKeepsChecks(steps, s.clock, steps[i].dependsOn);
    SatisfiedMeansAllSucceeded(e.steps, e.steps[i].dependsOn);
    assert e.steps[i].status.Ready? ==> e.steps[i].dependsOn == [];
  }

  lemma StartedInv(s: Saga)
    requires Started(s)
    ensures Inv(s)
  {
    var e := s.execution;
    var steps: seq<Step>, deadlineAt: Option<int> :|
      (forall i :: 0 <= i < |steps| ==> FreshStep(steps[i])) && Start(steps, deadlineAt, s.clock) == Ok(e);
    assert e.steps == Promoted(steps, s.clock);
    forall i | 0 <= i < |e.steps| ensures BookOk(s, i) && HistoryOk(s, i) {
      StartedStep(s, steps, i);
    }
  }

  /** The invariant holds in every reachable state of every saga. */
  lemma {:induction false} RunKeepsInv(s: Saga, actions: seq<Action>)
    requires Inv(s)
    ensures Inv(Run(s, actions))
  {
    if actions != [] {
      RunKeepsInv(s, actions[..|actions| - 1]);
      ApplyKeepsInv(Run(s, actions[..|actions| - 1]), actions[|actions| - 1]);
    }
  }
}
