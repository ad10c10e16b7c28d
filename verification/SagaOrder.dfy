/** Steps should be undone in the reverse of the order that their dependencies impose: a step begins to compensate only
    after every step that depends on it is done. `_continue_compensation` starts the next step whether or not the one
    before it has been reported, and late successes may arrive at any time, so this holds exactly when neither
    overtakes. */
module SagaOrder {
  import opened Common
  import opened WorkflowStates
  import opened RequestStates
  import opened Workflow
  import opened SagaTransactions
  import opened SagaMachine
  import opened SagaCoherence
  import opened SagaInvariants
  import opened SagaTheorems
  import opened SagaLinks
  import opened SagaLateReports

  /** Step `j`, which succeeded, depends on step `i`, which succeeded and has begun to compensate: `j` is done. */
  ghost predicate OrderlyPair(s: Saga, j: nat, i: nat)
    requires j < |s.execution.steps| && i < |s.execution.steps|
  {
    var steps := s.execution.steps;
    DependsOn(steps, j, i) && j in s.succeededAt && i in s.succeededAt && Unwound(steps[i]) ==> Undone(steps[j])
  }

  ghost predicate Orderly(s: Saga) {
    forall j, i :: 0 <= j < |s.execution.steps| && 0 <= i < |s.execution.steps| ==> OrderlyPair(s, j, i)
  }

  /** What holds of direct dependencies holds at any distance. */
  lemma {:induction false} OrderlyAtAnyDistance(s: Saga, path: seq<nat>)
    requires Inv(s) && Orderly(s) && IsPath(s.execution.steps, path) && path[0] in s.succeededAt
    requires path[|path| - 1] < |s.execution.steps| && Unwound(s.execution.steps[path[|path| - 1]])
    ensures Undone(s.execution.steps[path[0]])
  {
    var j, i := path[0], path[1];
    assert HistoryOk(s, j);
    assert i in s.succeededAt;
    if |path| > 2 {
      OrderlyAtAnyDistance(s, path[1..]);
    }
    assert OrderlyPair(s, j, i);
  }

  // ----- what overtakes -----

  /** The transaction records a success of step `j`. */
  predicate RecordsSuccess(s: Saga, a: Action, j: nat) {
    var e := s.execution;
    && j < |e.steps|
    && match a
       case AdvanceAction(done, now) =>
         && Advances(e, now) && Advance(e, done, now).Ok?
         && e.steps[j].status.Waiting? && e.steps[j].requestId.Some? && e.steps[j].requestId.value in done
       case SettleForwardAction(i, id, status, _) =>
         && i == j && ForwardRequest(i, id) in s.created && status.Succeeded?
         && (e.steps[j].status.Running? || e.steps[j].status.Waiting?)
       case HookAction(id, status, _) =>
         && StepForRequest(e.steps, id) == Some(j) && status.Succeeded?
         && (e.steps[j].status.Running? || e.steps[j].status.Waiting?)
       case _ => false
  }

  /** A continuation begins a step while the compensation of one that depends on it is still outstanding. */
  ghost predicate BeginsTooEarly(s: Saga, a: Action, j: nat) {
    var steps := s.execution.steps;
    && a.ContinueAction? && BeginsCompensation(s.execution) && j < |steps|
    && DependsOn(steps, j, NextToCompensate(steps).value) && steps[j].status.Compensating?
  }

  /** A success arrives for a step although a step that it depends on has begun to compensate. */
  ghost predicate SucceedsTooLate(s: Saga, a: Action, j: nat, i: nat) {
    var steps := s.execution.steps;
    RecordsSuccess(s, a, j) && i < |steps| && DependsOn(steps, j, i) && Unwound(steps[i])
  }

  ghost predicate Overtakes(s: Saga, a: Action) {
    (exists j :: BeginsTooEarly(s, a, j)) || (exists j, i :: SucceedsTooLate(s, a, j, i))
  }

  // ----- successes are recorded only so -----

  predicate TurnsSucceeded(e: Execution, f: Execution, j: nat) {
    j < |e.steps| && j < |f.steps| && !e.steps[j].status.Succeeded? && f.steps[j].status.Succeeded?
  }

  lemma SweepsSucceedNone(e: Execution, reason: Option<string>, now: int, j: nat)
    ensures Cancel(e, reason, now).Ok? ==> !TurnsSucceeded(e, Cancel(e, reason, now).value, j)
    ensures EnforceDeadline(e, now).Ok? ==> !TurnsSucceeded(e, EnforceDeadline(e, now).value, j)
  {
  }

  lemma RefreshSucceedsNone(e: Execution, now: int, j: nat)
    requires Refresh(e, now).Ok?
    ensures !TurnsSucceeded(e, Refresh(e, now).value, j)
  {
  }

  lemma AdvanceSucceeds(e: Execution, done: set<RequestId>, now: int, j: nat)
    requires Advance(e, done, now).Ok? && TurnsSucceeded(e, Advance(e, done, now).value, j)
    ensures Advances(e, now)
    ensures e.steps[j].status.Waiting? && e.steps[j].requestId.Some? && e.steps[j].requestId.value in done
  {
    if Advances(e, now) {
      var status := if e.status.Queued? then WorkflowStatus.Running else e.status;
      RefreshSucceedsNone(e.(status := status, steps := Promoted(ResumeSteps(e.steps, done, now), now)), now, j);
    }
  }

  lemma SettleForwardSucceeds(e: Execution, i: nat, id: RequestId, status: RequestStatus, now: int, j: nat)
    requires i < |e.steps| && SettleForward(e, i, id, status, now).Ok?
    requires TurnsSucceeded(e, SettleForward(e, i, id, status, now).value, j)
    ensures i == j && status.Succeeded? && (e.steps[j].status.Running? || e.steps[j].status.Waiting?)
  {
    var s := SettleForwardStep(e.steps[i], id, status, now).value;
    RefreshSucceedsNone(e.(steps := e.steps[i := s]), now, j);
  }

  lemma HookSucceeds(e: Execution, id: RequestId, status: RequestStatus, now: int, j: nat)
    requires Hook(e, id, status, now).Ok? && TurnsSucceeded(e, Hook(e, id, status, now).value, j)
    ensures StepForRequest(e.steps, id) == Some(j) && status.Succeeded?
    ensures e.steps[j].status.Running? || e.steps[j].status.Waiting?
  {
    var found := StepForRequest(e.steps, id);
    if IsHooked(status) && found.Some? {
      var s := HookStep(e.steps[found.value], id, status, now).value;
      var moved := e.(steps := e.steps[found.value := s]);
      if HookEscalates(e, e.steps[found.value], status) {
        moved := moved.(status := WorkflowStatus.ManualReview);
      }
      RefreshSucceedsNone(moved, now, j);
    }
  }

  lemma UnwindSucceedsNone(s: Saga, a: Action, j: nat)
    requires a.ContinueAction? || a.StartCompensationAction? || a.SettleCompensationAction? || a.StartForwardAction?
    ensures !TurnsSucceeded(s.execution, Apply(s, a).execution, j)
  {
  }

  lemma SuccessIsRecorded(s: Saga, a: Action, j: nat)
    requires TurnsSucceeded(s.execution, Apply(s, a).execution, j)
    ensures RecordsSuccess(s, a, j)
  {
    var e := s.execution;
    match a
    case CancelAction(reason, now) => SweepsSucceedNone(e, reason, now, j);
    case DeadlineAction(now) => SweepsSucceedNone(e, None, now, j);
    case AdvanceAction(done, now) => AdvanceSucceeds(e, done, now, j);
    case RefreshAction(now) => RefreshSucceedsNone(e, now, j);
    case SettleForwardAction(i, id, status, now) => SettleForwardSucceeds(e, i, id, status, now, j);
    case HookAction(id, status, now) => HookSucceeds(e, id, status, now, j);
    case _ => UnwindSucceedsNone(s, a, j);
  }

  /** Once the unwind has begun a recorded success commits. */
  lemma RecordedSuccessCommits(s: Saga, a: Action, j: nat)
    requires Inv(s) && !s.execution.status.IsForward() && RecordsSuccess(s, a, j)
    ensures |Apply(s, a).execution.steps| == |s.execution.steps| && Apply(s, a).execution.steps[j].status.Succeeded?
    ensures j in Apply(s, a).succeededAt
  {
    var e := s.execution;
    match a
    case AdvanceAction(done, now) =>
      var resumed := ResumeSteps(e.steps, done, now);
      RefreshIdles(e.(steps := Promoted(resumed, now)), now);
      assert resumed[j].status.Succeeded?;
    case SettleForwardAction(i, id, status, now) =>
      var t := SettleForwardStep(e.steps[i], id, status, now).value;
      RefreshIdles(e.(steps := e.steps[i := t]), now);
    case HookAction(id, status, now) =>
      var t := HookStep(e.steps[j], id, status, now).value;
      RefreshIdles(e.(steps := e.steps[j := t]), now);
  }

  // ----- one transaction -----

  /** No step that is still succeeded depends on the one that begins. */
  lemma DependentsBegan(s: Saga, j: nat)
    requires Inv(s) && Timed(s) && BeginsCompensation(s.execution) && j < |s.execution.steps|
    requires DependsOn(s.execution.steps, j, NextToCompensate(s.execution.steps).value) && j in s.succeededAt
    ensures Unwound(s.execution.steps[j])
  {
    var steps := s.execution.steps;
    var i := NextToCompensate(steps).value;
    assert HistoryOk(s, j) && HistoryOk(s, i) && TimedStep(s, j) && TimedStep(s, i);
    if steps[j].status.Succeeded? {
      NextCompletedLast(steps, j);
      assert false;
    }
  }

  lemma NewSuccessOvertakes(s: Saga, a: Action, j: nat, i: nat)
    requires TurnsSucceeded(s.execution, Apply(s, a).execution, j) && i < |s.execution.steps|
    requires DependsOn(s.execution.steps, j, i) && Unwound(s.execution.steps[i])
    ensures Overtakes(s, a)
  {
    SuccessIsRecorded(s, a, j);
    assert SucceedsTooLate(s, a, j, i);
  }

  lemma PairKept(s: Saga, a: Action, j: nat, i: nat)
    requires Inv(s) && Timed(s) && Orderly(s) && !Overtakes(s, a) && Evolves(s.execution, Apply(s, a).execution, a.now)
    requires Apply(s, a).succeededAt == Stamp(s, Apply(s, a).execution, a.now)
    requires j < |s.execution.steps| && i < |s.execution.steps|
    ensures OrderlyPair(Apply(s, a), j, i)
  {
    var e, r := s.execution, Apply(s, a);
    var f := r.execution;
    EvolvedShape(e, f, a.now);
    ShapeFixesDependencies(e.steps, f.steps, j, i);
    if DependsOn(f.steps, j, i) && j in r.succeededAt && i in r.succeededAt && Unwound(f.steps[i]) {
      UnwoundEarlier(s, a, i);
      assert HistoryOk(s, j);
      if !Unwound(e.steps[i]) {
        BegunInTime(s, a, j, i);
      } else if j !in s.succeededAt {
        NewSuccessOvertakes(s, a, j, i);
        assert false;
      } else {
        assert OrderlyPair(s, j, i);
        UndoneStays(e, f, e.steps[j], f.steps[j], a.now);
      }
    }
  }

  /** A step that has begun to compensate had succeeded before this transaction. */
  lemma UnwoundEarlier(s: Saga, a: Action, i: nat)
    requires Inv(s) && Evolves(s.execution, Apply(s, a).execution, a.now) && i < |s.execution.steps|
    requires Apply(s, a).succeededAt == Stamp(s, Apply(s, a).execution, a.now)
    requires i in Apply(s, a).succeededAt && Unwound(Apply(s, a).execution.steps[i])
    ensures i in s.succeededAt
  {
    assert HistoryOk(s, i);
  }

  lemma UndoneStays(e: Execution, f: Execution, s: Step, t: Step, now: int)
    requires Follows(e, f, s, t, now) && Undone(s)
    ensures Undone(t)
  {
  }

  lemma BeginsOnlyNext(s: Saga, a: Action, i: nat)
    requires Inv(s) && i < |s.execution.steps| == |Apply(s, a).execution.steps|
    requires s.execution.steps[i].status.Succeeded? && Apply(s, a).execution.steps[i].status.Compensating?
    ensures a.ContinueAction? && BeginsCompensation(s.execution) && NextToCompensate(s.execution.steps) == Some(i)
  {
    if !a.ContinueAction? && !a.StartForwardAction? {
      OthersAreQuiet(s, a);
      BeginsQuietly(s.execution.steps[i], Apply(s, a).execution.steps[i]);
    }
  }

  /** Step `i` begins in this transaction, and what depends on it is done. */
  lemma BegunInTime(s: Saga, a: Action, j: nat, i: nat)
    requires Inv(s) && Timed(s) && !Overtakes(s, a) && Evolves(s.execution, Apply(s, a).execution, a.now)
    requires Apply(s, a).succeededAt == Stamp(s, Apply(s, a).execution, a.now)
    requires j < |s.execution.steps| && i < |s.execution.steps| && DependsOn(s.execution.steps, j, i)
    requires j in Apply(s, a).succeededAt && i in s.succeededAt
    requires !Unwound(s.execution.steps[i]) && Unwound(Apply(s, a).execution.steps[i])
    ensures Undone(Apply(s, a).execution.steps[j])
  {
    var e, f := s.execution, Apply(s, a).execution;
    assert HistoryOk(s, i) && HistoryOk(s, j) && Follows(e, f, e.steps[i], f.steps[i], a.now);
    BeginsOnlyNext(s, a, i);
    UnwindSucceedsNone(s, a, j);
    assert j in s.succeededAt;
    DependentsBegan(s, j);
    assert !BeginsTooEarly(s, a, j);
    assert Follows(e, f, e.steps[j], f.steps[j], a.now);
  }

  /** The next step begins; every other step and every stamp is as it was. */
  lemma BegunState(s: Saga, now: int)
    requires Inv(s) && BeginsCompensation(s.execution)
    ensures var e, r := s.execution, Apply(s, ContinueAction(now));
            var i := NextToCompensate(e.steps).value;
            && SameShape(e.steps, r.execution.steps) && r.execution.steps[i].status.Compensating?
            && (forall j :: 0 <= j < |e.steps| && j != i ==> r.execution.steps[j] == e.steps[j])
            && (forall j :: j in s.succeededAt ==> j in r.succeededAt)
  {
  }

  lemma EarlyBeginBreaks(s: Saga, a: Action, j: nat)
    requires Inv(s) && BeginsTooEarly(s, a, j)
    ensures !Orderly(Apply(s, a))
  {
    var e, r := s.execution, Apply(s, a);
    var i := NextToCompensate(e.steps).value;
    BegunState(s, a.now);
    assert HistoryOk(s, j) && HistoryOk(s, i);
    ShapeFixesDependencies(e.steps, r.execution.steps, j, i);
    assert !OrderlyPair(r, j, i);
  }

  lemma StaysUnwound(s: Saga, a: Action, i: nat)
    requires Inv(s) && i < |s.execution.steps| && Unwound(s.execution.steps[i]) && i in s.succeededAt
    ensures SameShape(s.execution.steps, Apply(s, a).execution.steps)
    ensures Unwound(Apply(s, a).execution.steps[i]) && i in Apply(s, a).succeededAt
  {
    ApplyKeepsInv(s, a);
    var e, f := s.execution, Apply(s, a).execution;
    if Evolves(e, f, a.now) {
      EvolvedShape(e, f, a.now);
      assert Follows(e, f, e.steps[i], f.steps[i], a.now);
    }
  }

  lemma LateSuccessBreaks(s: Saga, a: Action, j: nat, i: nat)
    requires Inv(s) && SucceedsTooLate(s, a, j, i)
    ensures !Orderly(Apply(s, a))
  {
    var e, r := s.execution, Apply(s, a);
    assert CoherentStep(e.status, e.steps[i]) && HistoryOk(s, j);
    RecordedSuccessCommits(s, a, j);
    StaysUnwound(s, a, i);
    ShapeFixesDependencies(e.steps, r.execution.steps, j, i);
    assert !OrderlyPair(r, j, i);
  }

  /** A transaction keeps the order exactly when it overtakes nothing. */
  lemma OrderlyUnlessOvertaken(s: Saga, a: Action)
    requires Inv(s) && Timed(s) && Orderly(s)
    ensures Orderly(Apply(s, a)) <==> !Overtakes(s, a)
  {
    var r := Apply(s, a);
    if j :| BeginsTooEarly(s, a, j) {
      EarlyBeginBreaks(s, a, j);
    } else if j, i :| SucceedsTooLate(s, a, j, i) {
      LateSuccessBreaks(s, a, j, i);
    } else {
      ApplyKeepsInv(s, a);
      forall j, i | 0 <= j < |r.execution.steps| && 0 <= i < |r.execution.steps| ensures OrderlyPair(r, j, i) {
        if Evolves(s.execution, r.execution, a.now) && r.succeededAt == Stamp(s, r.execution, a.now) {
          PairKept(s, a, j, i);
        } else {
          assert OrderlyPair(s, j, i);
        }
      }
    }
  }

  // ----- whole runs -----

  ghost predicate AlwaysOrderly(s: Saga, actions: seq<Action>) {
    forall k :: 0 <= k <= |actions| ==> Orderly(Run(s, actions[..k]))
  }

  ghost predicate NeverOvertakes(s: Saga, actions: seq<Action>) {
    forall k :: 0 <= k < |actions| ==> !Overtakes(Run(s, actions[..k]), actions[k])
  }

  lemma PrefixTimed(s: Saga, actions: seq<Action>, k: nat)
    requires Inv(s) && Timed(s) && StrictClock(s.clock, actions) && k <= |actions|
    ensures Inv(Run(s, actions[..k])) && Timed(Run(s, actions[..k]))
  {
    assert forall l :: 0 <= l < k ==> actions[..k][l] == actions[l];
    RunKeepsInv(s, actions[..k]);
    RunKeepsTime(s, actions[..k]);
  }

  lemma {:induction false} OrderlyWithoutOvertaking(s: Saga, actions: seq<Action>, k: nat)
    requires Inv(s) && Timed(s) && Orderly(s) && StrictClock(s.clock, actions) && NeverOvertakes(s, actions)
    requires k <= |actions|
    ensures Orderly(Run(s, actions[..k]))
  {
    if k == 0 {
      assert actions[..0] == [];
    } else {
      var r, a := Run(s, actions[..k - 1]), actions[k - 1];
      OrderlyWithoutOvertaking(s, actions, k - 1);
      PrefixTimed(s, actions, k - 1);
      assert !Overtakes(r, a);
      OrderlyUnlessOvertaken(r, a);
      RunStep(s, actions, k - 1);
    }
  }

  lemma StartedOrderly(s: Saga)
    requires Started(s)
    ensures Inv(s) && Timed(s) && Orderly(s)
  {
    StartedInv(s);
    assert s.succeededAt == map[];
  }

  /** In any run with increasing clock readings, every step begins to compensate only after all that depend on it are
      done, throughout, exactly when no continuation runs while a dependent compensation is outstanding and no success
      arrives for a step whose dependency has begun to compensate. */
  lemma OrderlyThroughoutExactlyWhen(s: Saga, actions: seq<Action>)
    requires Started(s) && StrictClock(s.clock, actions)
    ensures AlwaysOrderly(s, actions) <==> NeverOvertakes(s, actions)
  {
    StartedOrderly(s);
    if AlwaysOrderly(s, actions) {
      forall k | 0 <= k < |actions| ensures !Overtakes(Run(s, actions[..k]), actions[k]) {
        assert Orderly(Run(s, actions[..k])) && Orderly(Run(s, actions[..k + 1]));
        PrefixTimed(s, actions, k);
        RunStep(s, actions, k);
        OrderlyUnlessOvertaken(Run(s, actions[..k]), actions[k]);
      }
    } else if NeverOvertakes(s, actions) {
      forall k | 0 <= k <= |actions| ensures Orderly(Run(s, actions[..k])) {
        OrderlyWithoutOvertaking(s, actions, k);
      }
    }
  }

  // ----- a run that overtakes -----

  function Keyed(key: string, dependsOn: seq<string>): (r: Step) {
    RootStep(key).(dependsOn := dependsOn)
  }

  const LAST := Keyed("c", ["b"])

  function StepOf(key: string, dependsOn: seq<string>, status: StepStatus, id: RequestId, at: int): (r: Step) {
    Keyed(key, dependsOn).(status := status, updatedAt := at, attemptCount := 1, requestId := Some(id))
  }

  /** Step "b" depends on "a" and "c" on "b". Both succeed, the workflow is cancelled, the compensation of "b" is
      accepted and left pending, and the continuation after that answer begins with "a". */
  const PENDING_RUN: seq<Action> := [
    AdvanceAction({}, 1),
    StartForwardAction(0, 10, 2),
    SettleForwardAction(0, 10, RequestStatus.Succeeded, 3),
    AdvanceAction({}, 4),
    StartForwardAction(1, 11, 5),
    SettleForwardAction(1, 11, RequestStatus.Succeeded, 6),
    CancelAction(None, 7),
    ContinueAction(8),
    StartCompensationAction(1, 12, 9),
    SettleCompensationAction(1, 12, RequestStatus.Pending, 10),
    ContinueAction(11)]

  function Chain(status: WorkflowStatus, a: Step, b: Step, c: Step, reason: Option<Reason>): (r: Execution) {
    Execution(status, [a, b, c], None, None, reason)
  }

  const A_READY := Keyed("a", []).(status := StepStatus.Ready)
  const A_DONE := StepOf("a", [], StepStatus.Succeeded, 10, 3).(completedAt := Some(3))
  const B_FRESH := Keyed("b", ["a"])
  const B_DONE := StepOf("b", ["a"], StepStatus.Succeeded, 11, 6).(completedAt := Some(6))
  const B_BEGUN := StepOf("b", ["a"], StepStatus.Compensating, 11, 8).(completedAt := Some(6))
  const C_SWEPT := LAST.(status := StepStatus.Cancelled, updatedAt := 7, completedAt := Some(7))
  const ONE := [ForwardRequest(0, 10)]
  const TWO := [ForwardRequest(0, 10), ForwardRequest(1, 11)]

  const CHAIN_0 := Saga(Chain(WorkflowStatus.Queued, A_READY, B_FRESH, LAST, None), {}, {}, [], map[], 0)
  const CHAIN_1 := Saga(Chain(WorkflowStatus.Running, A_READY, B_FRESH, LAST, None), {0}, {}, [], map[], 1)
  const CHAIN_2 := Saga(Chain(WorkflowStatus.Running, StepOf("a", [], StepStatus.Running, 10, 2), B_FRESH, LAST,
                              None), {0}, {}, ONE, map[], 2)
  const CHAIN_3 := Saga(Chain(WorkflowStatus.Running, A_DONE, B_FRESH, LAST, None), {0}, {}, ONE, map[0 := 3], 3)
  const CHAIN_4 := Saga(Chain(WorkflowStatus.Running, A_DONE, B_FRESH.(status := StepStatus.Ready, updatedAt := 4),
                              LAST, None), {0, 1}, {}, ONE, map[0 := 3], 4)
  const CHAIN_5 := Saga(Chain(WorkflowStatus.Running, A_DONE, StepOf("b", ["a"], StepStatus.Running, 11, 5), LAST,
                              None), {0, 1}, {}, TWO, map[0 := 3], 5)
  const CHAIN_6 := Saga(Chain(WorkflowStatus.Running, A_DONE, B_DONE, LAST, None), {0, 1}, {}, TWO,
                        map[0 := 3, 1 := 6], 6)
  const CHAIN_7 := Saga(Chain(WorkflowStatus.Compensating, A_DONE, B_DONE, C_SWEPT, Some(ClientCancelled)), {0, 1}, {},
                        TWO, map[0 := 3, 1 := 6], 7)
  const CHAIN_8 := Saga(Chain(WorkflowStatus.Compensating, A_DONE, B_BEGUN, C_SWEPT, Some(ClientCancelled)), {0, 1},
                        {1}, TWO, map[0 := 3, 1 := 6], 8)
  const CHAIN_9 := Saga(Chain(WorkflowStatus.Compensating, A_DONE, B_BEGUN.(compensationId := Some(12)), C_SWEPT,
                              Some(ClientCancelled)), {0, 1}, {}, TWO + [CompensationRequest(1, 12)],
                        map[0 := 3, 1 := 6], 9)
  const CHAIN_10 := CHAIN_9.(clock := 10)

  /** The steps as the definition has them: lookups by key find "a", "b" and "c" in this order. */
  predicate IsChain(steps: seq<Step>) {
    && |steps| == 3 && steps[0].key == "a" && steps[1].key == "b" && steps[2].key == "c"
    && steps[0].dependsOn == [] && steps[1].dependsOn == ["a"] && steps[2].dependsOn == ["b"]
  }

  lemma ChainLookup(steps: seq<Step>)
    requires IsChain(steps)
    ensures StepByKey(steps, "a") == Some(0) && StepByKey(steps, "b") == Some(1)
    ensures CheckDependencies(steps, []) == Satisfied
    ensures CheckDependencies(steps, ["a"]) == if steps[0].status.Succeeded? then Satisfied else Unsatisfied
    ensures CheckDependencies(steps, ["b"]) == if steps[1].status.Succeeded? then Satisfied else Unsatisfied
  {
    assert ["a"][1..] == [] && ["b"][1..] == [];
    assert "a"[0] != "b"[0] && "b"[0] != "c"[0] && "a"[0] != "c"[0];
  }

  lemma ChainStart()
    ensures Started(CHAIN_0)
  {
    var steps := [Keyed("a", []), B_FRESH, LAST];
    ChainLookup(steps);
    assert Promoted(steps, 0) == CHAIN_0.execution.steps;
    assert Start(steps, None, 0) == Ok(CHAIN_0.execution);
  }

  lemma AdvanceApplies(s: Saga, a: Action, r: Saga)
    requires a.AdvanceAction? && Advances(s.execution, a.now) && Advance(s.execution, a.done, a.now) == Ok(r.execution)
    requires s.listed + ReadySteps(r.execution) == r.listed && Stamp(s, r.execution, a.now) == r.succeededAt
    requires r.owed == s.owed && r.created == s.created && r.clock == a.now
    ensures Apply(s, a) == r
  {
  }

  lemma ChainPromoted1()
    ensures ResumeSteps(CHAIN_0.execution.steps, {}, 1) == CHAIN_0.execution.steps
    ensures Promotes(CHAIN_0.execution.steps) && Promoted(CHAIN_0.execution.steps, 1) == CHAIN_1.execution.steps
  {
    ChainLookup(CHAIN_0.execution.steps);
  }

  lemma ChainAdvances1()
    ensures Advances(CHAIN_0.execution, 1) && Advance(CHAIN_0.execution, {}, 1) == Ok(CHAIN_1.execution)
  {
    ChainPromoted1();
    var f := CHAIN_1.execution;
    assert !AllSucceeded(f.steps) by { assert !f.steps[0].status.Succeeded?; }
    assert Refresh(f, 1) == Ok(f);
  }

  lemma ChainListed1()
    ensures CHAIN_0.listed + ReadySteps(CHAIN_1.execution) == CHAIN_1.listed
    ensures Stamp(CHAIN_0, CHAIN_1.execution, 1) == CHAIN_1.succeededAt
  {
    assert ReadySteps(CHAIN_1.execution) == {0};
  }

  lemma ChainAdvance1()
    ensures Apply(CHAIN_0, PENDING_RUN[0]) == CHAIN_1
  {
    assert PENDING_RUN[0] == AdvanceAction({}, 1);
    ChainAdvances1();
    ChainListed1();
    AdvanceApplies(CHAIN_0, PENDING_RUN[0], CHAIN_1);
  }

  lemma ChainLaunch2()
    ensures Apply(CHAIN_1, PENDING_RUN[1]) == CHAIN_2
  {
    assert StartForward(CHAIN_1.execution, 0, 10, 2) == CHAIN_2.execution;
  }

  lemma ChainSucceed3()
    ensures Apply(CHAIN_2, PENDING_RUN[2]) == CHAIN_3
  {
    assert ForwardRequest(0, 10) in CHAIN_2.created;
    var f := CHAIN_3.execution;
    assert CHAIN_2.execution.steps[0 := A_DONE] == f.steps;
    assert !AllSucceeded(f.steps) by { assert !f.steps[1].status.Succeeded?; }
    assert SettleForward(CHAIN_2.execution, 0, 10, RequestStatus.Succeeded, 3) == Ok(f);
  }

  lemma ChainPromoted4()
    ensures ResumeSteps(CHAIN_3.execution.steps, {}, 4) == CHAIN_3.execution.steps
    ensures Promotes(CHAIN_3.execution.steps) && Promoted(CHAIN_3.execution.steps, 4) == CHAIN_4.execution.steps
  {
    ChainLookup(CHAIN_3.execution.steps);
  }

  lemma ChainAdvances4()
    ensures Advances(CHAIN_3.execution, 4) && Advance(CHAIN_3.execution, {}, 4) == Ok(CHAIN_4.execution)
  {
    ChainPromoted4();
    var f := CHAIN_4.execution;
    assert !AllSucceeded(f.steps) by { assert !f.steps[1].status.Succeeded?; }
    assert Refresh(f, 4) == Ok(f);
  }

  lemma ChainListed4()
    ensures CHAIN_3.listed + ReadySteps(CHAIN_4.execution) == CHAIN_4.listed
    ensures Stamp(CHAIN_3, CHAIN_4.execution, 4) == CHAIN_4.succeededAt
  {
    assert ReadySteps(CHAIN_4.execution) == {1};
  }

  lemma ChainAdvance4()
    ensures Apply(CHAIN_3, PENDING_RUN[3]) == CHAIN_4
  {
    assert PENDING_RUN[3] == AdvanceAction({}, 4);
    ChainAdvances4();
    ChainListed4();
    AdvanceApplies(CHAIN_3, PENDING_RUN[3], CHAIN_4);
  }

  lemma ChainLaunch5()
    ensures Apply(CHAIN_4, PENDING_RUN[4]) == CHAIN_5
  {
    assert StartForward(CHAIN_4.execution, 1, 11, 5) == CHAIN_5.execution;
  }

  lemma ChainSucceed6()
    ensures Apply(CHAIN_5, PENDING_RUN[5]) == CHAIN_6
  {
    assert ForwardRequest(1, 11) in CHAIN_5.created;
    var f := CHAIN_6.execution;
    assert CHAIN_5.execution.steps[1 := B_DONE] == f.steps;
    assert !AllSucceeded(f.steps) by { assert !f.steps[2].status.Succeeded?; }
    assert SettleForward(CHAIN_5.execution, 1, 11, RequestStatus.Succeeded, 6) == Ok(f);
  }

  lemma ChainCancel7()
    ensures Apply(CHAIN_6, PENDING_RUN[6]) == CHAIN_7
  {
    ChainCancels7();
    assert Stamp(CHAIN_6, CHAIN_7.execution, 7) == CHAIN_7.succeededAt;
  }

  lemma ChainCancels7()
    ensures Cancel(CHAIN_6.execution, None, 7) == Ok(CHAIN_7.execution)
  {
    assert CancelSteps(CHAIN_6.execution.steps, 7) == CHAIN_7.execution.steps;
    assert AnySucceeded(CHAIN_7.execution.steps) by { assert CHAIN_7.execution.steps[0].status.Succeeded?; }
  }

  lemma ChainBegin8()
    ensures Apply(CHAIN_7, PENDING_RUN[7]) == CHAIN_8
  {
    var steps := CHAIN_7.execution.steps;
    ChainNext(steps);
    assert steps[1 := B_BEGUN] == CHAIN_8.execution.steps;
    assert Continue(CHAIN_7.execution, 8) == Ok(CHAIN_8.execution);
  }

  lemma ChainNext(steps: seq<Step>)
    requires |steps| == 3 && steps[0].status.Succeeded? && steps[1].status.Succeeded? && !steps[2].status.Succeeded?
    requires CompletionKey(steps[0]) < CompletionKey(steps[1])
    ensures NextToCompensate(steps) == Some(1)
  {
    NextCompletedLast(steps, 1);
  }

  lemma ChainClaim9()
    ensures Apply(CHAIN_8, PENDING_RUN[8]) == CHAIN_9
  {
    assert CHAIN_8.execution.steps[1 := B_BEGUN.(compensationId := Some(12))] == CHAIN_9.execution.steps;
  }

  lemma ChainPending10()
    ensures Apply(CHAIN_9, PENDING_RUN[9]) == CHAIN_10
  {
    assert CHAIN_9.created[2] == CompensationRequest(1, 12);
  }

  lemma ChainRun()
    ensures Run(CHAIN_0, PENDING_RUN[..10]) == CHAIN_10
  {
    var a := PENDING_RUN;
    assert a[..0] == [];
    ChainHalf();
    RunStep(CHAIN_0, a, 5);
    ChainSucceed6();
    RunStep(CHAIN_0, a, 6);
    ChainCancel7();
    RunStep(CHAIN_0, a, 7);
    ChainBegin8();
    RunStep(CHAIN_0, a, 8);
    ChainClaim9();
    RunStep(CHAIN_0, a, 9);
    ChainPending10();
  }

  lemma ChainHalf()
    ensures Run(CHAIN_0, PENDING_RUN[..5]) == CHAIN_5
  {
    var a := PENDING_RUN;
    assert a[..0] == [];
    RunStep(CHAIN_0, a, 0);
    ChainAdvance1();
    RunStep(CHAIN_0, a, 1);
    ChainLaunch2();
    RunStep(CHAIN_0, a, 2);
    ChainSucceed3();
    RunStep(CHAIN_0, a, 3);
    ChainAdvance4();
    RunStep(CHAIN_0, a, 4);
    ChainLaunch5();
  }

  lemma ChainOvertakes()
    ensures BeginsTooEarly(CHAIN_10, ContinueAction(11), 1)
  {
    var steps := CHAIN_10.execution.steps;
    ChainLookup(steps);
    assert AnySucceeded(steps) by { assert steps[0].status.Succeeded?; }
    assert NextToCompensate(steps) == Some(0);
    assert StepByKey(steps, steps[1].dependsOn[0]) == Some(0);
    assert DependsOn(steps, 1, 0);
  }

  lemma ChainClock()
    ensures StrictClock(CHAIN_0.clock, PENDING_RUN)
  {
  }

  lemma ChainBreaks()
    ensures !AlwaysOrderly(CHAIN_0, PENDING_RUN)
  {
    ChainStart();
    ChainRun();
    ChainOvertakes();
    StartedInv(CHAIN_0);
    RunKeepsInv(CHAIN_0, PENDING_RUN[..10]);
    EarlyBeginBreaks(CHAIN_10, PENDING_RUN[10], 1);
    RunStep(CHAIN_0, PENDING_RUN, 10);
    assert !Orderly(Run(CHAIN_0, PENDING_RUN[..11]));
  }

  /** A run from a started saga, with increasing clock readings, in which "a" begins to compensate although the
      compensation of "b", which depends on it, is still pending. */
  lemma PendingCompensationIsOvertaken()
    ensures exists s :: Started(s) && StrictClock(s.clock, PENDING_RUN) && !AlwaysOrderly(s, PENDING_RUN)
  {
    ChainStart();
    ChainBreaks();
    ChainClock();
    assert Started(CHAIN_0) && !AlwaysOrderly(CHAIN_0, PENDING_RUN);
  }
}
