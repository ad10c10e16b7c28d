/** Total correctness of the unwind. Processes owe each other work: calls of
    `_continue_compensation`, compensations that have begun, provider calls in flight and
    webhooks to come. If every compensation succeeds, the work runs out after boundedly
    many transactions, in any order, and leaves exactly the succeeded steps compensated. */
module SagaUnwind {
  import opened Common
  import opened WorkflowStates
  import opened RequestStates
  import opened Workflow
  import opened SagaTransactions
  import opened SagaMachine
  import opened SagaCoherence
  import opened SagaInvariants
  import opened SagaLinks

  /** `continues` calls of `_continue_compensation` are due; `owed` steps have begun and wait
      for `_compensate_step`; `calls` are compensation requests being dispatched; `webhooks`
      those the provider will report later; `late` forward requests whose success report has
      not run its hook yet; `cancels` cancel commands still to arrive; `answers` forward calls that
      are still to be settled; `advances` calls of `advance` on their way. `heard` remembers whether
      a cancel command arrived while the execution was compensating, and `defaulted` the steps whose
      forward call was answered with a failure while they were compensating. */
  datatype Unwind = Unwind(
    execution: Execution,
    continues: nat,
    owed: set<nat>,
    calls: map<nat, RequestId>,
    webhooks: map<nat, RequestId>,
    late: set<RequestId>,
    cancels: nat,
    answers: map<nat, RequestId>,
    advances: nat,
    heard: bool,
    defaulted: set<nat>)

  datatype Task =
    | ContinueTask(now: int)
    | ClaimTask(step: nat, id: RequestId, now: int)
    | SettleTask(step: nat, accepted: bool, now: int)
    | ReportTask(step: nat, now: int)
    | LateTask(id: RequestId, now: int)
    | CancelTask(reason: Option<string>, now: int)
    | AnswerTask(step: nat, status: RequestStatus, now: int)
    | AdvanceTask(done: set<RequestId>, now: int)

  predicate Unnamed(steps: seq<Step>, id: RequestId) {
    forall j :: 0 <= j < |steps| ==> !NamesRequest(steps[j], id)
  }

  /** The work exists. A report may overtake the answer of the call it belongs to. */
  predicate Enabled(u: Unwind, t: Task) {
    match t
    case ContinueTask(_) => u.continues > 0
    case ClaimTask(i, id, _) => i in u.owed && i < |u.execution.steps| && Unnamed(u.execution.steps, id)
    case SettleTask(i, _, _) => i in u.calls && i < |u.execution.steps|
    case ReportTask(i, _) =>
      i in u.webhooks || (i in u.calls && i < |u.execution.steps| && u.execution.steps[i].status.Compensating?)
    case LateTask(id, _) => id in u.late
    case CancelTask(_, _) => u.cancels > 0
    case AnswerTask(i, _, _) => i in u.answers && i < |u.execution.steps|
    case AdvanceTask(_, _) => u.advances > 0
  }

  function Committed(u: Unwind, outcome: Outcome<Execution>): (r: Unwind)
    ensures r == u.(execution := r.execution)
  {
    if outcome.Ok? then u.(execution := outcome.value) else u
  }

  /** Callers that see the execution still compensating call `_continue_compensation`. */
  function ThenContinue(u: Unwind, called: bool): (r: Unwind)
    ensures r == u.(continues := r.continues) && u.continues <= r.continues <= u.continues + 1
  {
    if called && u.execution.status.Compensating? then u.(continues := u.continues + 1) else u
  }

  /** A success report runs the hook; it goes on only when the request is linked to a step. */
  function Reported(u: Unwind, id: RequestId, now: int): (r: Unwind)
    ensures r == u.(execution := r.execution, continues := r.continues)
  {
    var outcome := Hook(u.execution, id, RequestStatus.Succeeded, now);
    ThenContinue(Committed(u, outcome), outcome.Ok? && StepForRequest(u.execution.steps, id).Some?)
  }

  /** The answer to the forward call of a compensating step says that it failed. */
  predicate Fails(s: Step, status: RequestStatus) {
    s.status.Compensating? && (status.Failed? || status.ManualReview?)
  }

  function Perform(u: Unwind, t: Task): (r: Unwind)
    requires Enabled(u, t)
  {
    var e := u.execution;
    match t
    case ContinueTask(now) =>
      var next := Committed(u, Continue(e, now)).(continues := u.continues - 1);
      if BeginsCompensation(e) then next.(owed := u.owed + {NextToCompensate(e.steps).value}) else next
    case ClaimTask(i, id, now) =>
      var outcome := StartCompensation(e, i, id, now);
      var next := Committed(u, outcome).(owed := u.owed - {i});
      if e.steps[i].compensateOperation.Some? then next.(calls := u.calls[i := id])
      else if outcome.Ok? then next.(continues := u.continues + 1)
      else next
    case SettleTask(i, accepted, now) =>
      var done := u.(calls := u.calls - {i});
      if accepted then
        var waiting := done.(webhooks := u.webhooks[i := u.calls[i]]);
        ThenContinue(if e.steps[i].status.Compensating? then waiting else done, true)
      else
        var outcome := SettleCompensation(e, i, u.calls[i], RequestStatus.Succeeded, now);
        ThenContinue(Committed(done, outcome), outcome.Ok?)
    case ReportTask(i, now) =>
      var id := if i in u.webhooks then u.webhooks[i] else u.calls[i];
      Reported(u, id, now).(webhooks := u.webhooks - {i})
    case LateTask(id, now) => Reported(u, id, now).(late := u.late - {id})
    case CancelTask(reason, now) =>
      Committed(u, Cancel(e, reason, now)).(cancels := u.cancels - 1, heard := u.heard || e.status.Compensating?)
    case AnswerTask(i, status, now) =>
      var outcome := SettleForward(e, i, u.answers[i], status, now);
      ThenContinue(Committed(u, outcome), outcome.Ok?).(
        answers := u.answers - {i},
        defaulted := if Fails(e.steps[i], status) then u.defaulted + {i} else u.defaulted)
    case AdvanceTask(done, now) => Committed(u, Advance(e, done, now)).(advances := u.advances - 1)
  }

  function PerformAll(u: Unwind, tasks: seq<Task>): (r: Outcome<Unwind>)
  {
    if tasks == [] then Ok(u)
    else
      var before :- PerformAll(u, tasks[..|tasks| - 1]);
      var t := tasks[|tasks| - 1];
      if Enabled(before, t) then Ok(Perform(before, t)) else Raised
  }

  // ----- where an unwind starts -----

  predicate AtRestOrSucceeded(s: Step) {
    s.status.Succeeded? || AtRest(s)
  }

  /** Compensating, with every step either succeeded or at rest. */
  ghost predicate UnwindReady(e: Execution) {
    && e.status.Compensating? && DistinctIds(e.steps)
    && forall i :: 0 <= i < |e.steps| ==> AtRestOrSucceeded(e.steps[i])
  }

  /** The step is neither open nor compensated, and succeeded exactly if it had before. */
  predicate SweptStep(before: Step, after: Step) {
    && (after.status.Succeeded? <==> before.status.Succeeded?)
    && !after.status.Pending? && !after.status.Compensated?
  }

  /** Cancelling forward work leaves an unwind that is ready, or a finished execution. */
  lemma CancelLeavesUnwind(e: Execution, reason: Option<string>, now: int)
    requires Coherent(e) && e.status.IsForward() && DistinctIds(e.steps) && Cancel(e, reason, now).Ok?
    ensures var f := Cancel(e, reason, now).value;
            && (AnySucceeded(e.steps) ==> UnwindReady(f) && IsSet(f.cancelReason))
            && (!AnySucceeded(e.steps) ==> f.status.Cancelled?)
            && |f.steps| == |e.steps| && forall i :: 0 <= i < |e.steps| ==> SweptStep(e.steps[i], f.steps[i])
  {
    var f := Cancel(e, reason, now).value;
    forall i | 0 <= i < |e.steps|
      ensures CoherentStep(e.status, e.steps[i]) && f.steps[i] == CancelStep(e.steps[i], now) {}
    SweepKeepsSuccess(e.steps, f.steps);
    if AnySucceeded(e.steps) { DistinctIdsKept(e.steps, f.steps); }
  }

  lemma DeadlineLeavesUnwind(e: Execution, now: int)
    requires Coherent(e) && e.status.IsForward() && DistinctIds(e.steps) && EnforceDeadline(e, now).Ok?
    requires IsPastDeadline(e, now) && e.deadlineProcessedAt.None?
    ensures var f := EnforceDeadline(e, now).value;
            && (AnySucceeded(e.steps) ==> UnwindReady(f) && f.cancelReason == e.cancelReason)
            && (!AnySucceeded(e.steps) ==> f.status.Cancelled?)
            && |f.steps| == |e.steps| && forall i :: 0 <= i < |e.steps| ==> SweptStep(e.steps[i], f.steps[i])
  {
    var f := EnforceDeadline(e, now).value;
    forall i | 0 <= i < |e.steps|
      ensures CoherentStep(e.status, e.steps[i]) && f.steps[i] == ExpireStep(e.steps[i], now) {}
    SweepKeepsSuccess(e.steps, f.steps);
    if AnySucceeded(e.steps) { DistinctIdsKept(e.steps, f.steps); }
  }

  lemma SweepKeepsSuccess(a: seq<Step>, b: seq<Step>)
    requires |a| == |b| && forall i :: 0 <= i < |a| ==> (b[i].status.Succeeded? <==> a[i].status.Succeeded?)
    ensures AnySucceeded(a) <==> AnySucceeded(b)
  {
  }

  lemma DistinctIdsKept(a: seq<Step>, b: seq<Step>)
    requires DistinctIds(a) && |a| == |b|
    requires forall i, id {:trigger NamesRequest(b[i], id)} ::
      0 <= i < |a| ==> (NamesRequest(b[i], id) ==> NamesRequest(a[i], id))
    ensures DistinctIds(b)
  {
  }

  // ----- measure -----

  function StepWeight(s: Step): (r: nat)
  {
    if s.status.Succeeded? then 7 else if s.status.Compensating? then 2 else 0
  }

  function Weight(steps: seq<Step>): (r: nat)
  {
    if steps == [] then 0 else StepWeight(steps[0]) + Weight(steps[1..])
  }

  lemma {:induction false} WeightUpdate(steps: seq<Step>, i: nat, s: Step)
    requires i < |steps|
    ensures Weight(steps[i := s]) == Weight(steps) - StepWeight(steps[i]) + StepWeight(s)
  {
    if i == 0 {
      assert steps[i := s][1..] == steps[1..];
    } else {
      assert steps[i := s][1..] == steps[1..][i - 1 := s];
      WeightUpdate(steps[1..], i - 1, s);
    }
  }

  /** Every task spends some of this. */
  function Measure(u: Unwind): (r: nat)
  {
    Weight(u.execution.steps) + u.continues + 5 * |u.owed| + 4 * |u.calls| + 2 * |u.webhooks| + 2 * |u.late| +
    u.cancels + 2 * |u.answers| + u.advances
  }

  // ----- invariant -----

  /** Step `i` of the unwind that began with `origin`. */
  predicate UnwindStep(origin: Execution, u: Unwind, i: nat)
    requires i < |origin.steps| && i < |u.execution.steps|
  {
    var o, s := origin.steps[i], u.execution.steps[i];
    && SameTemplate(o, s)
    && (o.status.Succeeded? && i in u.defaulted ==> s.status.Failed?)
    && (o.status.Succeeded? && i !in u.defaulted ==>
          s.status.Succeeded? || s.status.Compensating? || s.status.Compensated?)
    && (!o.status.Succeeded? ==> s == o && i !in u.defaulted)
  }

  predicate InHand(u: Unwind, i: nat) {
    i in u.owed || i in u.calls || i in u.webhooks
  }

  /** The steps to be compensated. */
  function Candidates(origin: Execution): (r: set<nat>)
  {
    set i: nat | i < |origin.steps| && origin.steps[i].status.Succeeded?
  }

  predicate Tracked(u: Unwind, i: nat)
    requires i < |u.execution.steps|
  {
    var s := u.execution.steps[i];
    && (s.status.Compensating? ==> InHand(u, i))
    && (InHand(u, i) ==> Unwound(s))
    && (s.status.Compensating? && i in u.calls ==> s.compensationId == Some(u.calls[i]))
    && (s.status.Compensating? && i in u.webhooks ==> s.compensationId == Some(u.webhooks[i]))
    && !(i in u.owed && i in u.calls) && !(i in u.owed && i in u.webhooks) && !(i in u.calls && i in u.webhooks)
  }

  /** A cancel reason was there at the start, or one came while the execution was compensating. */
  predicate ReasonGiven(origin: Execution, heard: bool) {
    IsSet(origin.cancelReason) || heard
  }

  predicate Final(cancelled: bool, status: WorkflowStatus) {
    status == if cancelled then WorkflowStatus.Cancelled else WorkflowStatus.Compensated
  }

  /** While the execution compensates, somebody still owes a continuation. */
  predicate Alive(u: Unwind) {
    u.execution.status.Compensating? ==>
      u.continues > 0 || exists i :: 0 <= i < |u.execution.steps| && u.execution.steps[i].status.Compensating?
  }

  ghost predicate UnwindInv(origin: Execution, u: Unwind) {
    && UnwindReady(origin)
    && (IsSet(u.execution.cancelReason) <==> ReasonGiven(origin, u.heard))
    && |u.execution.steps| == |origin.steps| && DistinctIds(u.execution.steps)
    && (u.execution.status.Compensating? ||
        (Final(ReasonGiven(origin, u.heard), u.execution.status) && UnwindFinished(u.execution.steps)))
    && (forall i :: 0 <= i < |origin.steps| ==> UnwindStep(origin, u, i))
    && u.owed <= Candidates(origin) && u.calls.Keys <= Candidates(origin) && u.webhooks.Keys <= Candidates(origin)
    && (forall i :: 0 <= i < |origin.steps| ==> Tracked(u, i))
    && Alive(u)
    && (u.advances > 0 ==> NonePromotable(origin.steps))
  }

  predicate NonePromotable(steps: seq<Step>) {
    forall i :: 0 <= i < |steps| ==> !Promotable(steps, i)
  }

  /** The unwind itself has nothing left to do; late reports, answers and commands may still arrive. */
  predicate Idle(u: Unwind) {
    u.continues == 0 && u.owed == {} && u.calls == map[] && u.webhooks == map[]
  }

  // ----- each task keeps the invariant and spends measure -----

  ghost predicate Progress(origin: Execution, u: Unwind, r: Unwind) {
    UnwindInv(origin, r) && Measure(r) < Measure(u)
  }

  lemma DistinctUpdate(steps: seq<Step>, i: nat, s: Step)
    requires DistinctIds(steps) && i < |steps|
    requires forall id :: NamesRequest(s, id) ==> NamesRequest(steps[i], id) || Unnamed(steps, id)
    ensures DistinctIds(steps[i := s])
  {
    var t := steps[i := s];
    forall j, k, id {:trigger NamesRequest(t[j], id), NamesRequest(t[k], id)} | 0 <= j < k < |t|
      ensures !(NamesRequest(t[j], id) && NamesRequest(t[k], id))
    {
      if j == i { assert t[k] == steps[k]; } else if k == i { assert t[j] == steps[j]; }
    }
  }

  /** The step that begins goes from succeeded to compensating and is owed its claim. */
  lemma BeginShape(u: Unwind, now: int)
    requires u.continues > 0 && BeginsCompensation(u.execution)
    ensures var r := Perform(u, ContinueTask(now)); var e := u.execution; var i := NextToCompensate(e.steps).value;
            && e.steps[i].status.Succeeded?
            && r.execution == e.(steps := e.steps[i := MoveStep(e.steps[i], StepStatus.Compensating, now).value])
            && r == u.(execution := r.execution, continues := u.continues - 1, owed := u.owed + {i})
  {
  }

  lemma BeginSpends(origin: Execution, u: Unwind, now: int)
    requires UnwindInv(origin, u) && u.continues > 0 && BeginsCompensation(u.execution)
    ensures var r := Perform(u, ContinueTask(now)); Measure(r) < Measure(u) && DistinctIds(r.execution.steps)
  {
    var i := NextToCompensate(u.execution.steps).value;
    BeginShape(u, now);
    assert Tracked(u, i);
    BegunSpends(u, Perform(u, ContinueTask(now)), i, now);
  }

  lemma BegunSpends(u: Unwind, r: Unwind, i: nat, now: int)
    requires i < |u.execution.steps| && u.execution.steps[i].status.Succeeded? && i !in u.owed && u.continues > 0
    requires DistinctIds(u.execution.steps)
    requires r.execution.steps ==
             u.execution.steps[i := MoveStep(u.execution.steps[i], StepStatus.Compensating, now).value]
    requires r == u.(execution := r.execution, continues := u.continues - 1, owed := u.owed + {i})
    ensures Measure(r) < Measure(u) && DistinctIds(r.execution.steps)
  {
    DistinctUpdate(u.execution.steps, i, r.execution.steps[i]);
    WeightUpdate(u.execution.steps, i, r.execution.steps[i]);
    assert |r.owed| == |u.owed| + 1;
  }

  lemma BeginProgress(origin: Execution, u: Unwind, now: int)
    requires UnwindInv(origin, u) && u.continues > 0 && BeginsCompensation(u.execution)
    ensures Progress(origin, u, Perform(u, ContinueTask(now)))
  {
    var e := u.execution;
    var r := Perform(u, ContinueTask(now));
    var i := NextToCompensate(e.steps).value;
    BeginSpends(origin, u, now);
    BeginShape(u, now);
    assert Tracked(u, i) && UnwindStep(origin, u, i);
    assert r.execution.steps[i].status.Compensating?;
    forall j | 0 <= j < |e.steps| ensures Tracked(r, j) && UnwindStep(origin, r, j) {
      assert Tracked(u, j) && UnwindStep(origin, u, j);
    }
  }

  lemma FinishProgress(origin: Execution, u: Unwind, now: int)
    requires UnwindInv(origin, u) && u.continues > 0 && !BeginsCompensation(u.execution)
    ensures Progress(origin, u, Perform(u, ContinueTask(now)))
  {
    var r := Perform(u, ContinueTask(now));
    FinishShape(origin, u, now);
    forall j | 0 <= j < |u.execution.steps| ensures Tracked(r, j) && UnwindStep(origin, r, j) {
      assert Tracked(u, j) && UnwindStep(origin, u, j);
    }
    if r.execution.status.Compensating? { NotFinished(origin, u); }
  }

  /** A continuation that begins nothing ends the execution if all steps are at rest, and is spent either way. */
  lemma FinishShape(origin: Execution, u: Unwind, now: int)
    requires UnwindInv(origin, u) && u.continues > 0 && !BeginsCompensation(u.execution)
    ensures var r := Perform(u, ContinueTask(now)); var e := u.execution;
            && r == u.(execution := e.(status := r.execution.status), continues := u.continues - 1)
            && (r.execution.status == e.status ||
                (Final(ReasonGiven(origin, u.heard), r.execution.status) && UnwindFinished(e.steps)))
            && (r.execution.status.Compensating? ==> !UnwindFinished(e.steps) && !AnySucceeded(e.steps))
  {
  }

  /** With no succeeded step left, only a compensating step keeps the unwind from its end. */
  lemma NotFinished(origin: Execution, u: Unwind)
    requires UnwindInv(origin, u) && !AnySucceeded(u.execution.steps) && !UnwindFinished(u.execution.steps)
    ensures exists i :: 0 <= i < |u.execution.steps| && u.execution.steps[i].status.Compensating?
  {
    var steps := u.execution.steps;
    var j :| 0 <= j < |steps| && !(steps[j].status.Compensated? || steps[j].status.Failed? ||
             steps[j].status.Skipped? || steps[j].status.Cancelled? || steps[j].status.Pending?);
    assert UnwindStep(origin, u, j) && AtRestOrSucceeded(origin.steps[j]);
    assert steps[j].status.Compensating?;
  }

  lemma ClaimProgress(origin: Execution, u: Unwind, i: nat, id: RequestId, now: int)
    requires UnwindInv(origin, u) && Enabled(u, ClaimTask(i, id, now))
    ensures Progress(origin, u, Perform(u, ClaimTask(i, id, now)))
  {
    var r := Perform(u, ClaimTask(i, id, now));
    ClaimSpends(origin, u, i, id, now);
    ClaimDistinct(origin, u, i, id, now);
    ClaimTracked(origin, u, i, id, now);
    ClaimShape(u, i, id, now);
    assert i in Candidates(origin);
    AliveAfter(u, r, i);
    if !u.execution.status.Compensating? { StillFinished(origin, u, r); }
  }

  /** With an operation to run, the claim links its request and leaves a call to be made. */
  lemma ClaimWithOperation(u: Unwind, i: nat, id: RequestId, now: int)
    requires Enabled(u, ClaimTask(i, id, now)) && u.execution.steps[i].compensateOperation.Some?
    ensures var e := u.execution;
            Perform(u, ClaimTask(i, id, now)) ==
              u.(execution := e.(steps := e.steps[i := e.steps[i].(compensationId := Some(id))]),
                 owed := u.owed - {i}, calls := u.calls[i := id])
  {
  }

  /** Without one, the step is compensated and the unwind continues, unless the step has been done meanwhile. */
  lemma ClaimWithoutOperation(u: Unwind, i: nat, id: RequestId, now: int)
    requires Enabled(u, ClaimTask(i, id, now)) && u.execution.steps[i].compensateOperation.None?
    ensures var e, s := u.execution, u.execution.steps[i];
            Perform(u, ClaimTask(i, id, now)) ==
              if s.status.Compensating? then
                u.(execution := e.(steps := e.steps[i :=
                     MoveStep(s.(compensationId := None), StepStatus.Compensated, now).value]),
                   owed := u.owed - {i}, continues := u.continues + 1)
              else u.(owed := u.owed - {i})
  {
  }

  lemma ClaimCases(u: Unwind, i: nat, id: RequestId, now: int)
    requires Enabled(u, ClaimTask(i, id, now))
    ensures var e, s := u.execution, u.execution.steps[i];
            Perform(u, ClaimTask(i, id, now)) ==
              if s.compensateOperation.Some? then
                u.(execution := e.(steps := e.steps[i := s.(compensationId := Some(id))]),
                   owed := u.owed - {i}, calls := u.calls[i := id])
              else if s.status.Compensating? then
                u.(execution := e.(steps := e.steps[i :=
                     MoveStep(s.(compensationId := None), StepStatus.Compensated, now).value]),
                   owed := u.owed - {i}, continues := u.continues + 1)
              else u.(owed := u.owed - {i})
  {
    if u.execution.steps[i].compensateOperation.Some? {
      ClaimWithOperation(u, i, id, now);
    } else {
      ClaimWithoutOperation(u, i, id, now);
    }
  }

  lemma ClaimShape(u: Unwind, i: nat, id: RequestId, now: int)
    requires Enabled(u, ClaimTask(i, id, now))
    ensures var r := Perform(u, ClaimTask(i, id, now)); var e := u.execution;
            && r.execution == e.(steps := r.execution.steps) && |r.execution.steps| == |e.steps|
            && (forall j :: 0 <= j < |e.steps| && j != i ==> r.execution.steps[j] == e.steps[j])
            && (Undone(e.steps[i]) ==> r.execution.steps[i].status == e.steps[i].status)
            && r.continues >= u.continues
            && (e.steps[i].status.Compensating? ==> r.continues > 0 || r.execution.steps[i].status.Compensating?)
            && r.owed <= u.owed && r.calls.Keys <= u.calls.Keys + {i} && r.webhooks == u.webhooks
            && SameExpected(u, r) && r.heard == u.heard && r.defaulted == u.defaulted
  {
    ClaimCases(u, i, id, now);
  }

  lemma StillFinished(origin: Execution, u: Unwind, r: Unwind)
    requires UnwindInv(origin, u) && UnwindFinished(u.execution.steps) && |r.execution.steps| == |u.execution.steps|
    requires forall j :: 0 <= j < |u.execution.steps| ==>
      r.execution.steps[j] == u.execution.steps[j] ||
      (Undone(u.execution.steps[j]) ==> r.execution.steps[j].status == u.execution.steps[j].status)
    requires forall j :: 0 <= j < |u.execution.steps| ==> UnwindStep(origin, r, j)
    ensures UnwindFinished(r.execution.steps)
  {
    forall j | 0 <= j < |u.execution.steps|
      ensures r.execution.steps[j] == u.execution.steps[j] || Undone(r.execution.steps[j])
    {
      assert UnwindStep(origin, u, j) && UnwindStep(origin, r, j);
    }
  }

  /** A claim trades the owed step for a call, or for one more continuation. */
  lemma ClaimCost(u: Unwind, i: nat, id: RequestId, now: int)
    requires Enabled(u, ClaimTask(i, id, now))
    ensures var r := Perform(u, ClaimTask(i, id, now)); var e := u.execution;
            && i < |r.execution.steps| && StepWeight(r.execution.steps[i]) <= StepWeight(e.steps[i])
            && r.owed == u.owed - {i} && r.webhooks == u.webhooks && SameExpected(u, r)
            && ((r.continues == u.continues && (r.calls == u.calls || r.calls == u.calls[i := id])) ||
                (r.continues == u.continues + 1 && r.calls == u.calls))
  {
    ClaimCases(u, i, id, now);
  }

  predicate SameExpected(u: Unwind, r: Unwind) {
    r.late == u.late && r.cancels == u.cancels && r.answers == u.answers && r.advances == u.advances
  }

  lemma CostIsSpent(u: Unwind, r: Unwind, i: nat, id: RequestId)
    requires i < |u.execution.steps| && i in u.owed && |r.execution.steps| == |u.execution.steps|
    requires r.execution.steps == u.execution.steps[i := r.execution.steps[i]]
    requires StepWeight(r.execution.steps[i]) <= StepWeight(u.execution.steps[i])
    requires r.owed == u.owed - {i} && r.webhooks == u.webhooks && SameExpected(u, r)
    requires (r.continues == u.continues && (r.calls == u.calls || r.calls == u.calls[i := id])) ||
             (r.continues == u.continues + 1 && r.calls == u.calls)
    ensures Measure(r) < Measure(u)
  {
    assert |r.owed| == |u.owed| - 1;
    assert |r.calls| <= |u.calls| + 1;
    WeightUpdate(u.execution.steps, i, r.execution.steps[i]);
  }

  lemma ClaimSpends(origin: Execution, u: Unwind, i: nat, id: RequestId, now: int)
    requires UnwindInv(origin, u) && Enabled(u, ClaimTask(i, id, now))
    ensures Measure(Perform(u, ClaimTask(i, id, now))) < Measure(u)
  {
    var r := Perform(u, ClaimTask(i, id, now));
    ClaimCost(u, i, id, now);
    ClaimShape(u, i, id, now);
    assert r.execution.steps == u.execution.steps[i := r.execution.steps[i]];
    CostIsSpent(u, r, i, id);
  }

  lemma ClaimDistinct(origin: Execution, u: Unwind, i: nat, id: RequestId, now: int)
    requires UnwindInv(origin, u) && Enabled(u, ClaimTask(i, id, now))
    ensures DistinctIds(Perform(u, ClaimTask(i, id, now)).execution.steps)
  {
    var r := Perform(u, ClaimTask(i, id, now));
    ClaimShape(u, i, id, now);
    var s := r.execution.steps[i];
    assert r.execution.steps == u.execution.steps[i := s];
    DistinctUpdate(u.execution.steps, i, s);
  }

  lemma ClaimOtherTracked(u: Unwind, r: Unwind, i: nat, id: RequestId, j: nat)
    requires j < |u.execution.steps| == |r.execution.steps| && j != i && Tracked(u, j)
    requires r.execution.steps[j] == u.execution.steps[j]
    requires r.owed == u.owed - {i} && r.webhooks == u.webhooks && (r.calls == u.calls || r.calls == u.calls[i := id])
    ensures Tracked(r, j)
  {
  }

  /** The claimed step records its request, or is compensated on the spot when it has no operation. */
  lemma ClaimedStep(u: Unwind, i: nat, id: RequestId, now: int)
    requires Enabled(u, ClaimTask(i, id, now))
    ensures var r := Perform(u, ClaimTask(i, id, now)); var s := u.execution.steps[i];
            && i < |r.execution.steps| && SameTemplate(s, r.execution.steps[i])
            && (s.compensateOperation.Some? ==>
                  r.execution.steps[i] == s.(compensationId := Some(id)) && r.calls == u.calls[i := id])
            && (s.compensateOperation.None? ==>
                  r.calls == u.calls &&
                  (if s.status.Compensating? then r.execution.steps[i].status.Compensated?
                   else r.execution.steps[i] == s))
  {
    ClaimCases(u, i, id, now);
  }

  lemma ClaimOwnTracked(origin: Execution, u: Unwind, i: nat, id: RequestId, now: int)
    requires UnwindInv(origin, u) && Enabled(u, ClaimTask(i, id, now))
    ensures var r := Perform(u, ClaimTask(i, id, now));
            i < |r.execution.steps| && Tracked(r, i) && UnwindStep(origin, r, i)
  {
    assert i in Candidates(origin);
    assert Tracked(u, i) && UnwindStep(origin, u, i);
    ClaimedStep(u, i, id, now);
    ClaimCost(u, i, id, now);
    OwnTracked(u, Perform(u, ClaimTask(i, id, now)), i, id);
  }

  lemma OwnTracked(u: Unwind, r: Unwind, i: nat, id: RequestId)
    requires i < |u.execution.steps| && i < |r.execution.steps| && i in u.owed && Tracked(u, i)
    requires r.owed == u.owed - {i} && r.webhooks == u.webhooks
    requires (r.execution.steps[i] == u.execution.steps[i].(compensationId := Some(id)) &&
             r.calls == u.calls[i := id]) ||
             (!r.execution.steps[i].status.Compensating? && r.calls == u.calls)
    ensures Tracked(r, i)
  {
  }

  lemma ClaimTracked(origin: Execution, u: Unwind, i: nat, id: RequestId, now: int)
    requires UnwindInv(origin, u) && Enabled(u, ClaimTask(i, id, now))
    ensures var r := Perform(u, ClaimTask(i, id, now));
            |r.execution.steps| == |u.execution.steps| &&
            forall j :: 0 <= j < |u.execution.steps| ==>
                Tracked(r, j) && UnwindStep(origin, r, j)
  {
    var r := Perform(u, ClaimTask(i, id, now));
    ClaimShape(u, i, id, now);
    ClaimCost(u, i, id, now);
    forall j | 0 <= j < |u.execution.steps| ensures Tracked(r, j) && UnwindStep(origin, r, j) {
      if j == i {
        ClaimOwnTracked(origin, u, i, id, now);
      } else {
        assert Tracked(u, j) && UnwindStep(origin, u, j);
        ClaimOtherTracked(u, r, i, id, j);
      }
    }
  }

  /** Only step `i` moved; if it stopped compensating while it mattered, a call became due. */
  lemma AliveAfter(u: Unwind, r: Unwind, i: nat)
    requires Alive(u) && i < |u.execution.steps| && |r.execution.steps| == |u.execution.steps|
    requires r.execution.status == u.execution.status && r.continues >= u.continues
    requires forall j :: 0 <= j < |u.execution.steps| && j != i ==> r.execution.steps[j] == u.execution.steps[j]
    requires u.execution.status.Compensating? && u.execution.steps[i].status.Compensating?
             ==> r.continues > 0 || r.execution.steps[i].status.Compensating?
    ensures Alive(r)
  {
    if u.execution.status.Compensating? && u.continues == 0 {
      var j :| 0 <= j < |u.execution.steps| && u.execution.steps[j].status.Compensating?;
      assert j != i ==> r.execution.steps[j].status.Compensating?;
    }
  }

  /** An accepted call becomes a webhook to come, unless its step has been completed meanwhile. */
  lemma AcceptedShape(u: Unwind, i: nat, now: int)
    requires Enabled(u, SettleTask(i, true, now))
    ensures var r := Perform(u, SettleTask(i, true, now));
            && r == u.(calls := u.calls - {i}, webhooks := r.webhooks, continues := r.continues)
            && r.webhooks == (if u.execution.steps[i].status.Compensating? then u.webhooks[i := u.calls[i]]
                              else u.webhooks)
            && u.continues <= r.continues <= u.continues + 1
  {
  }

  lemma AcceptedTracked(u: Unwind, r: Unwind, i: nat, j: nat)
    requires i in u.calls && i < |u.execution.steps| && j < |u.execution.steps|
    requires r.execution == u.execution && r.owed == u.owed && r.calls == u.calls - {i} && Tracked(u, j)
    requires r.webhooks == (if u.execution.steps[i].status.Compensating? then u.webhooks[i := u.calls[i]]
                            else u.webhooks)
    ensures Tracked(r, j)
  {
  }

  lemma AcceptedProgress(origin: Execution, u: Unwind, i: nat, now: int)
    requires UnwindInv(origin, u) && Enabled(u, SettleTask(i, true, now))
    ensures Progress(origin, u, Perform(u, SettleTask(i, true, now)))
  {
    var r := Perform(u, SettleTask(i, true, now));
    AcceptedShape(u, i, now);
    CallsLess(u.calls, i);
    assert |r.webhooks| <= |u.webhooks| + 1;
    assert i in Candidates(origin);
    forall j | 0 <= j < |u.execution.steps| ensures Tracked(r, j) && UnwindStep(origin, r, j) {
      assert Tracked(u, j) && UnwindStep(origin, u, j);
      AcceptedTracked(u, r, i, j);
    }
  }

  /** A settled call completes its step if that is still compensating, and is gone either way. */
  lemma SettledShape(u: Unwind, i: nat, now: int)
    requires Enabled(u, SettleTask(i, false, now)) && i < |u.execution.steps|
    ensures var r := Perform(u, SettleTask(i, false, now)); var e := u.execution; var s := e.steps[i];
            && r == u.(execution := r.execution, calls := u.calls - {i}, continues := r.continues)
            && r.execution == e.(steps := r.execution.steps)
            && r.execution.steps == e.steps[i :=
                 if s.status.Compensating?
                 then MoveStep(s.(compensationId := Some(u.calls[i])), StepStatus.Compensated, now).value
                 else s]
            && u.continues <= r.continues <= u.continues + 1
            && (s.status.Compensating? && e.status.Compensating? ==> r.continues > 0)
  {
  }

  lemma SettledSpends(origin: Execution, u: Unwind, i: nat, now: int)
    requires UnwindInv(origin, u) && Enabled(u, SettleTask(i, false, now))
    ensures var r := Perform(u, SettleTask(i, false, now));
            Measure(r) < Measure(u) && DistinctIds(r.execution.steps)
  {
    var e := u.execution;
    var r := Perform(u, SettleTask(i, false, now));
    CallsLess(u.calls, i);
    assert i in Candidates(origin) && Tracked(u, i);
    SettledShape(u, i, now);
    var s := r.execution.steps[i];
    DistinctUpdate(e.steps, i, s);
    WeightUpdate(e.steps, i, s);
  }

  lemma SettledTracked(origin: Execution, u: Unwind, i: nat, now: int)
    requires UnwindInv(origin, u) && Enabled(u, SettleTask(i, false, now))
    ensures var r := Perform(u, SettleTask(i, false, now));
            |r.execution.steps| == |u.execution.steps| &&
            forall j :: 0 <= j < |u.execution.steps| ==>
                Tracked(r, j) && UnwindStep(origin, r, j)
  {
    var r := Perform(u, SettleTask(i, false, now));
    assert i in Candidates(origin) && Tracked(u, i);
    SettledShape(u, i, now);
    forall j | 0 <= j < |u.execution.steps| ensures Tracked(r, j) && UnwindStep(origin, r, j) {
      assert Tracked(u, j) && UnwindStep(origin, u, j);
    }
  }

  lemma SettledProgress(origin: Execution, u: Unwind, i: nat, now: int)
    requires UnwindInv(origin, u) && Enabled(u, SettleTask(i, false, now))
    ensures Progress(origin, u, Perform(u, SettleTask(i, false, now)))
  {
    var r := Perform(u, SettleTask(i, false, now));
    assert i in Candidates(origin);
    SettledSpends(origin, u, i, now);
    SettledTracked(origin, u, i, now);
    SettledShape(u, i, now);
    AliveAfter(u, r, i);
    if !u.execution.status.Compensating? { StillFinished(origin, u, r); }
  }

  lemma CallsLess(m: map<nat, RequestId>, i: nat)
    requires i in m
    ensures |m - {i}| == |m| - 1
  {
    assert (m - {i}).Keys == m.Keys - {i};
  }

  function Completed(s: Step, id: RequestId, now: int): (r: Step)
  {
    s.(status := StepStatus.Compensated, updatedAt := now, completedAt := Some(now), compensationId := Some(id))
  }

  /** The report completes a step: the one it names, if that is compensating. */
  predicate Completes(steps: seq<Step>, id: RequestId) {
    var found := StepForRequest(steps, id);
    found.Some? && steps[found.value].status.Compensating?
  }

  /** Inside an unwind a success report completes the step it names, if that is compensating. */
  lemma ReportOutcome(origin: Execution, u: Unwind, id: RequestId, now: int)
    requires UnwindInv(origin, u)
    ensures var found := StepForRequest(u.execution.steps, id);
            Hook(u.execution, id, RequestStatus.Succeeded, now) ==
              if Completes(u.execution.steps, id) then
                Ok(u.execution.(steps :=
                  u.execution.steps[found.value := Completed(u.execution.steps[found.value], id, now)]))
              else Ok(u.execution)
  {
    var found := StepForRequest(u.execution.steps, id);
    if found.Some? {
      var i := found.value;
      assert UnwindStep(origin, u, i) && AtRestOrSucceeded(origin.steps[i]);
      assert u.execution.steps[i := u.execution.steps[i]] == u.execution.steps;
    }
  }

  /** Everything a report may change besides the step it completes is the number of continuations due. */
  lemma ReportedShape(origin: Execution, u: Unwind, id: RequestId, now: int)
    requires UnwindInv(origin, u)
    ensures var r := Reported(u, id, now); var found := StepForRequest(u.execution.steps, id);
            && r == u.(execution := r.execution, continues := r.continues)
            && u.continues <= r.continues <= u.continues + 1
            && (Completes(u.execution.steps, id) ==>
                  && r.execution == u.execution.(steps :=
                       u.execution.steps[found.value := Completed(u.execution.steps[found.value], id, now)])
                  && (u.execution.status.Compensating? ==> r.continues > 0))
            && (!Completes(u.execution.steps, id) ==> r.execution == u.execution)
  {
    ReportOutcome(origin, u, id, now);
  }

  lemma CompletedTracked(origin: Execution, u: Unwind, r: Unwind, i: nat, id: RequestId, now: int, j: nat)
    requires UnwindInv(origin, u) && i < |u.execution.steps| && u.execution.steps[i].status.Compensating?
    requires r == u.(execution := r.execution, continues := r.continues) && j < |u.execution.steps|
    requires r.execution == u.execution.(steps := u.execution.steps[i := Completed(u.execution.steps[i], id, now)])
    ensures Tracked(r, j) && UnwindStep(origin, r, j)
  {
    assert Tracked(u, j) && UnwindStep(origin, u, j) && AtRestOrSucceeded(origin.steps[j]);
  }

  lemma CompletedKeeps(origin: Execution, u: Unwind, r: Unwind, i: nat, id: RequestId, now: int)
    requires UnwindInv(origin, u) && i < |u.execution.steps| && u.execution.steps[i].status.Compensating?
    requires NamesRequest(u.execution.steps[i], id)
    requires r == u.(execution := r.execution, continues := r.continues) && u.continues <= r.continues
    requires r.execution == u.execution.(steps := u.execution.steps[i := Completed(u.execution.steps[i], id, now)])
    requires u.execution.status.Compensating? ==> r.continues > 0
    ensures UnwindInv(origin, r) && Weight(r.execution.steps) == Weight(u.execution.steps) - 2
  {
    var e, s := u.execution, r.execution.steps[i];
    DistinctUpdate(e.steps, i, s);
    WeightUpdate(e.steps, i, s);
    forall j | 0 <= j < |e.steps| ensures Tracked(r, j) && UnwindStep(origin, r, j) {
      CompletedTracked(origin, u, r, i, id, now, j);
    }
    AliveAfter(u, r, i);
  }

  lemma ReportedKeeps(origin: Execution, u: Unwind, id: RequestId, now: int)
    requires UnwindInv(origin, u)
    ensures UnwindInv(origin, Reported(u, id, now))
    ensures var r := Reported(u, id, now); var found := StepForRequest(u.execution.steps, id);
            && r == u.(execution := r.execution, continues := r.continues) && r.continues <= u.continues + 1
            && Weight(r.execution.steps) ==
               Weight(u.execution.steps) - (if Completes(u.execution.steps, id) then 2 else 0)
            && |r.execution.steps| == |u.execution.steps|
            && (forall j :: 0 <= j < |u.execution.steps| ==>
                  found == Some(j) || !u.execution.steps[j].status.Compensating? ==>
                    !r.execution.steps[j].status.Compensating?)
  {
    ReportedShape(origin, u, id, now);
    var r := Reported(u, id, now);
    if Completes(u.execution.steps, id) {
      CompletedKeeps(origin, u, r, StepForRequest(u.execution.steps, id).value, id, now);
    } else {
      forall j | 0 <= j < |u.execution.steps| ensures Tracked(r, j) && UnwindStep(origin, r, j) {
      assert Tracked(u, j) && UnwindStep(origin, u, j);
    }
    }
  }

  lemma ReportSpends(origin: Execution, u: Unwind, i: nat, now: int)
    requires UnwindInv(origin, u) && Enabled(u, ReportTask(i, now))
    ensures Measure(Perform(u, ReportTask(i, now))) < Measure(u)
  {
    var id := if i in u.webhooks then u.webhooks[i] else u.calls[i];
    ReportFinds(origin, u, i, id);
    ReportedKeeps(origin, u, id, now);
    if i in u.webhooks { CallsLess(u.webhooks, i); } else { assert u.webhooks - {i} == u.webhooks; }
  }

  lemma ReportProgress(origin: Execution, u: Unwind, i: nat, now: int)
    requires UnwindInv(origin, u) && Enabled(u, ReportTask(i, now))
    ensures Progress(origin, u, Perform(u, ReportTask(i, now)))
  {
    var id := if i in u.webhooks then u.webhooks[i] else u.calls[i];
    ReportSpends(origin, u, i, now);
    ReportFinds(origin, u, i, id);
    ReportedKeeps(origin, u, id, now);
    DropWebhook(origin, Reported(u, id, now), i);
  }

  lemma ReportFinds(origin: Execution, u: Unwind, i: nat, id: RequestId)
    requires UnwindInv(origin, u) && (i in u.webhooks || i in u.calls)
    requires id == if i in u.webhooks then u.webhooks[i] else u.calls[i]
    ensures i < |u.execution.steps|
    ensures u.execution.steps[i].status.Compensating? ==> StepForRequest(u.execution.steps, id) == Some(i)
  {
    assert i in Candidates(origin) && Tracked(u, i);
    if u.execution.steps[i].status.Compensating? { FindsOwner(u.execution.steps, i, id); }
  }

  lemma DropWebhook(origin: Execution, u: Unwind, i: nat)
    requires UnwindInv(origin, u) && i < |u.execution.steps| && !u.execution.steps[i].status.Compensating?
    ensures UnwindInv(origin, u.(webhooks := u.webhooks - {i}))
  {
    var r := u.(webhooks := u.webhooks - {i});
    forall j | 0 <= j < |r.execution.steps| ensures Tracked(r, j) && UnwindStep(origin, r, j) {
      assert Tracked(u, j) && UnwindStep(origin, u, j);
    }
  }

  lemma DropLate(origin: Execution, u: Unwind, id: RequestId)
    requires UnwindInv(origin, u)
    ensures UnwindInv(origin, u.(late := u.late - {id}))
  {
    var r := u.(late := u.late - {id});
    forall j | 0 <= j < |r.execution.steps| ensures Tracked(r, j) && UnwindStep(origin, r, j) {
      assert Tracked(u, j) && UnwindStep(origin, u, j);
    }
  }

  lemma LateProgress(origin: Execution, u: Unwind, id: RequestId, now: int)
    requires UnwindInv(origin, u) && id in u.late
    ensures Progress(origin, u, Perform(u, LateTask(id, now)))
  {
    ReportedKeeps(origin, u, id, now);
    var mid := Reported(u, id, now);
    DropLate(origin, mid, id);
    assert |u.late - {id}| == |u.late| - 1;
  }

  /** A cancel command sets the reason while the execution compensates, and changes nothing once it has ended. */
  lemma CancelTaskShape(u: Unwind, reason: Option<string>, now: int)
    requires u.cancels > 0 && (u.execution.status.Compensating? || u.execution.status.IsTerminal())
    ensures var r := Perform(u, CancelTask(reason, now));
            && r.execution.steps == u.execution.steps && r.execution.status == u.execution.status
            && (u.execution.status.Compensating? ==> IsSet(r.execution.cancelReason) && r.heard)
            && (!u.execution.status.Compensating? ==> r.execution == u.execution && r.heard == u.heard)
            && r == u.(execution := r.execution, cancels := u.cancels - 1, heard := r.heard)
  {
  }

  lemma CancelTaskProgress(origin: Execution, u: Unwind, reason: Option<string>, now: int)
    requires UnwindInv(origin, u) && u.cancels > 0
    ensures Progress(origin, u, Perform(u, CancelTask(reason, now)))
  {
    CancelTaskShape(u, reason, now);
    var r := Perform(u, CancelTask(reason, now));
    forall j | 0 <= j < |r.execution.steps| ensures Tracked(r, j) && UnwindStep(origin, r, j) {
      assert Tracked(u, j) && UnwindStep(origin, u, j);
    }
  }

  /** The answer to a forward call changes a step only if it fails it while it is compensating. */
  lemma AnswerOutcome(origin: Execution, u: Unwind, i: nat, id: RequestId, status: RequestStatus, now: int)
    requires UnwindInv(origin, u) && i < |u.execution.steps|
    ensures var e := u.execution; var outcome := SettleForward(e, i, id, status, now);
            && (Fails(e.steps[i], status) ==>
                  outcome == Ok(e.(steps := e.steps[i := MoveStep(e.steps[i], StepStatus.Failed, now).value])))
            && (!Fails(e.steps[i], status) && outcome.Ok? ==> outcome.value == e)
  {
    var e := u.execution;
    assert UnwindStep(origin, u, i) && AtRestOrSucceeded(origin.steps[i]);
    var t := SettleForwardStep(e.steps[i], id, status, now);
    if t.Ok? {
      RefreshIdles(e.(steps := e.steps[i := t.value]), now);
      assert !Fails(e.steps[i], status) ==> e.steps[i := t.value] == e.steps;
    }
  }

  lemma AnswerShape(origin: Execution, u: Unwind, i: nat, status: RequestStatus, now: int)
    requires UnwindInv(origin, u) && Enabled(u, AnswerTask(i, status, now))
    ensures var r := Perform(u, AnswerTask(i, status, now)); var e := u.execution;
            && r == u.(execution := r.execution, continues := r.continues, answers := u.answers - {i},
                       defaulted := r.defaulted)
            && u.continues <= r.continues <= u.continues + 1
            && (Fails(e.steps[i], status) ==>
                  && r.execution == e.(steps := e.steps[i := MoveStep(e.steps[i], StepStatus.Failed, now).value])
                  && r.defaulted == u.defaulted + {i} && (e.status.Compensating? ==> r.continues > 0))
            && (!Fails(e.steps[i], status) ==> r.execution == e && r.defaulted == u.defaulted)
  {
    AnswerOutcome(origin, u, i, u.answers[i], status, now);
  }

  lemma FailedKeeps(origin: Execution, u: Unwind, r: Unwind, i: nat, now: int)
    requires UnwindInv(origin, u) && i < |u.execution.steps| && u.execution.steps[i].status.Compensating?
    requires r == u.(execution := r.execution, continues := r.continues, answers := r.answers,
                     defaulted := u.defaulted + {i}) && u.continues <= r.continues
    requires r.execution ==
             u.execution.(steps := u.execution.steps[i := MoveStep(u.execution.steps[i], StepStatus.Failed, now).value])
    requires u.execution.status.Compensating? ==> r.continues > 0
    ensures UnwindInv(origin, r) && Weight(r.execution.steps) == Weight(u.execution.steps) - 2
  {
    var e, s := u.execution, r.execution.steps[i];
    DistinctUpdate(e.steps, i, s);
    WeightUpdate(e.steps, i, s);
    forall j | 0 <= j < |e.steps| ensures Tracked(r, j) && UnwindStep(origin, r, j) {
      assert Tracked(u, j) && UnwindStep(origin, u, j) && AtRestOrSucceeded(origin.steps[j]);
    }
    AliveAfter(u, r, i);
  }

  lemma AnswerProgress(origin: Execution, u: Unwind, i: nat, status: RequestStatus, now: int)
    requires UnwindInv(origin, u) && Enabled(u, AnswerTask(i, status, now))
    ensures Progress(origin, u, Perform(u, AnswerTask(i, status, now)))
  {
    var r := Perform(u, AnswerTask(i, status, now));
    AnswerShape(origin, u, i, status, now);
    CallsLess(u.answers, i);
    if Fails(u.execution.steps[i], status) {
      FailedKeeps(origin, u, r, i, now);
    } else {
      forall j | 0 <= j < |u.execution.steps| ensures Tracked(r, j) && UnwindStep(origin, r, j) {
        assert Tracked(u, j) && UnwindStep(origin, u, j);
      }
    }
  }

  /** What could not be promoted when the unwind began cannot be promoted later: steps only cease to be succeeded. */
  lemma StaysUnpromotable(origin: Execution, u: Unwind, i: nat)
    requires UnwindInv(origin, u) && NonePromotable(origin.steps) && i < |u.execution.steps|
    ensures !Promotable(u.execution.steps, i)
  {
    var steps := u.execution.steps;
    assert UnwindStep(origin, u, i) && !Promotable(origin.steps, i);
    if Promotable(steps, i) {
      assert origin.steps[i] == steps[i];
      var keys := steps[i].dependsOn;
      SatisfiedMeansAllSucceeded(steps, keys);
      SatisfiedMeansAllSucceeded(origin.steps, keys);
      forall k | 0 <= k < |keys|
        ensures StepByKey(origin.steps, keys[k]).Some? &&
                origin.steps[StepByKey(origin.steps, keys[k]).value].status.Succeeded?
      {
        ShapeOfUnwind(origin, u);
        ShapeFixesLookup(origin.steps, steps, keys[k]);
        assert UnwindStep(origin, u, StepByKey(steps, keys[k]).value);
      }
      assert false;
    }
  }

  lemma ShapeOfUnwind(origin: Execution, u: Unwind)
    requires UnwindInv(origin, u)
    ensures SameShape(origin.steps, u.execution.steps)
  {
    forall i | 0 <= i < |origin.steps| ensures SameTemplate(origin.steps[i], u.execution.steps[i]) {
      assert UnwindStep(origin, u, i);
    }
  }

  /** An `advance` finds nothing waiting and nothing to promote. */
  lemma AdvanceIdles(origin: Execution, u: Unwind, done: set<RequestId>, now: int)
    requires UnwindInv(origin, u) && NonePromotable(origin.steps)
    ensures Advance(u.execution, done, now).Ok? ==> Advance(u.execution, done, now).value == u.execution
  {
    var e := u.execution;
    if Advances(e, now) {
      forall i | 0 <= i < |e.steps|
        ensures ResumeStep(e.steps[i], done, now) == e.steps[i] && PromotedStep(e.steps, i, now) == e.steps[i]
      {
        assert UnwindStep(origin, u, i) && AtRestOrSucceeded(origin.steps[i]);
        StaysUnpromotable(origin, u, i);
      }
      assert ResumeSteps(e.steps, done, now) == e.steps;
      assert Promoted(e.steps, now) == e.steps;
      RefreshIdles(e, now);
    }
  }

  lemma AdvanceProgress(origin: Execution, u: Unwind, done: set<RequestId>, now: int)
    requires UnwindInv(origin, u) && u.advances > 0
    ensures Progress(origin, u, Perform(u, AdvanceTask(done, now)))
  {
    AdvanceIdles(origin, u, done, now);
    var r := Perform(u, AdvanceTask(done, now));
    assert r == u.(advances := u.advances - 1);
    forall j | 0 <= j < |r.execution.steps| ensures Tracked(r, j) && UnwindStep(origin, r, j) {
      assert Tracked(u, j) && UnwindStep(origin, u, j);
    }
  }

  lemma TaskProgress(origin: Execution, u: Unwind, t: Task)
    requires UnwindInv(origin, u) && Enabled(u, t)
    ensures Progress(origin, u, Perform(u, t))
  {
    match t
    case ContinueTask(now) =>
      if BeginsCompensation(u.execution) { BeginProgress(origin, u, now); } else { FinishProgress(origin, u, now); }
    case ClaimTask(i, id, now) => ClaimProgress(origin, u, i, id, now);
    case SettleTask(i, accepted, now) =>
      if accepted { AcceptedProgress(origin, u, i, now); } else { SettledProgress(origin, u, i, now); }
    case ReportTask(i, now) => ReportProgress(origin, u, i, now);
    case LateTask(id, now) => LateProgress(origin, u, id, now);
    case CancelTask(reason, now) => CancelTaskProgress(origin, u, reason, now);
    case AnswerTask(i, status, now) => AnswerProgress(origin, u, i, status, now);
    case AdvanceTask(done, now) => AdvanceProgress(origin, u, done, now);
  }

  lemma {:induction false} TasksProgress(origin: Execution, u: Unwind, tasks: seq<Task>)
    requires UnwindInv(origin, u) && PerformAll(u, tasks).Ok?
    ensures UnwindInv(origin, PerformAll(u, tasks).value)
    ensures |tasks| + Measure(PerformAll(u, tasks).value) <= Measure(u)
  {
    if tasks != [] {
      var before := tasks[..|tasks| - 1];
      TasksProgress(origin, u, before);
      TaskProgress(origin, PerformAll(u, before).value, tasks[|tasks| - 1]);
    }
  }

  // ----- the theorem -----

  /** What may still arrive when an unwind begins: calls of `_continue_compensation` (one from the caller, more from
      workers), reports of forward successes, cancel commands, answers to forward calls in flight, and calls of
      `advance` by processes that saw the execution before. */
  datatype Arrivals = Arrivals(
    continues: nat,
    late: set<RequestId>,
    cancels: nat,
    answers: map<nat, RequestId>,
    advances: nat)

  /** Somebody continues the unwind, and nobody calls `advance` while a pending step could be promoted. */
  predicate Expected(e: Execution, x: Arrivals) {
    x.continues > 0 && (x.advances > 0 ==> NonePromotable(e.steps))
  }

  function Handover(e: Execution, x: Arrivals): (r: Unwind)
  {
    Unwind(e, x.continues, {}, map[], map[], x.late, x.cancels, x.answers, x.advances, false, {})
  }

  function Work(e: Execution, x: Arrivals): (r: nat)
  {
    Weight(e.steps) + x.continues + 2 * |x.late| + x.cancels + 2 * |x.answers| + x.advances
  }

  /** The succeeded steps end compensated, or failed if their own forward call was answered with a failure meanwhile;
      the others are as they were; and the execution ends cancelled if a cancel reason was given and compensated
      otherwise. */
  predicate FullyUnwound(origin: Execution, u: Unwind) {
    var e := u.execution;
    && Final(ReasonGiven(origin, u.heard), e.status) && |e.steps| == |origin.steps|
    && forall i :: 0 <= i < |e.steps| ==>
         && (origin.steps[i].status.Succeeded? && i !in u.defaulted ==> e.steps[i].status.Compensated?)
         && (origin.steps[i].status.Succeeded? && i in u.defaulted ==> e.steps[i].status.Failed?)
         && (!origin.steps[i].status.Succeeded? ==> e.steps[i] == origin.steps[i] && i !in u.defaulted)
  }

  lemma HandoverInv(e: Execution, x: Arrivals)
    requires UnwindReady(e) && Expected(e, x)
    ensures UnwindInv(e, Handover(e, x))
  {
  }

  lemma IdleIsComplete(origin: Execution, u: Unwind)
    requires UnwindInv(origin, u) && Idle(u)
    ensures FullyUnwound(origin, u)
  {
    forall i | 0 <= i < |origin.steps| ensures !u.execution.steps[i].status.Compensating? {
      assert Tracked(u, i);
    }
    forall i | 0 <= i < |origin.steps|
      ensures origin.steps[i].status.Succeeded? && i !in u.defaulted ==> u.execution.steps[i].status.Compensated?
    {
      assert UnwindStep(origin, u, i);
    }
    forall i | 0 <= i < |origin.steps|
      ensures origin.steps[i].status.Succeeded? && i in u.defaulted ==> u.execution.steps[i].status.Failed?
      ensures !origin.steps[i].status.Succeeded? ==> u.execution.steps[i] == origin.steps[i] && i !in u.defaulted
    {
      assert UnwindStep(origin, u, i);
    }
  }

  lemma DefaultIsAnswered(u: Unwind, t: Task)
    requires Enabled(u, t)
    ensures var r := Perform(u, t); r.defaulted + r.answers.Keys <= u.defaulted + u.answers.Keys
  {
    if !t.AnswerTask? {
      OthersKeepAnswers(u, t);
    }
  }

  lemma OthersKeepAnswers(u: Unwind, t: Task)
    requires Enabled(u, t) && !t.AnswerTask?
    ensures Perform(u, t).defaulted == u.defaulted && Perform(u, t).answers == u.answers
  {
    match t
    case ClaimTask(i, id, now) => ClaimCases(u, i, id, now);
    case _ =>
  }

  /** Only an answer that was on its way fails a step. */
  lemma {:induction false} DefaultsWereAnswered(u: Unwind, tasks: seq<Task>)
    requires PerformAll(u, tasks).Ok?
    ensures var r := PerformAll(u, tasks).value; r.defaulted + r.answers.Keys <= u.defaulted + u.answers.Keys
  {
    if tasks != [] {
      var before := tasks[..|tasks| - 1];
      DefaultsWereAnswered(u, before);
      DefaultIsAnswered(PerformAll(u, before).value, tasks[|tasks| - 1]);
    }
  }

  /** If every compensation succeeds then, whatever the order of calls, answers, webhooks and
      commands, the unwind performs at most `Work` tasks, and when no work is left it
      is complete. */
  lemma UnwindIsTotal(e: Execution, x: Arrivals, tasks: seq<Task>)
    requires UnwindReady(e) && Expected(e, x) && PerformAll(Handover(e, x), tasks).Ok?
    ensures |tasks| <= Work(e, x)
    ensures var r := PerformAll(Handover(e, x), tasks).value;
            r.defaulted <= x.answers.Keys && (Idle(r) ==> FullyUnwound(e, r))
  {
    var u := Handover(e, x);
    HandoverInv(e, x);
    TasksProgress(e, u, tasks);
    DefaultsWereAnswered(u, tasks);
    var r := PerformAll(u, tasks).value;
    if Idle(r) { IdleIsComplete(e, r); }
  }

  lemma {:induction false} UnnamedExists(steps: seq<Step>) returns (id: RequestId)
    ensures forall k: nat :: id <= k ==> Unnamed(steps, k)
  {
    if steps == [] {
      id := 0;
    } else {
      id := UnnamedExists(steps[1..]);
      var s := steps[0];
      if s.requestId.Some? && id <= s.requestId.value { id := s.requestId.value + 1; }
      if s.compensationId.Some? && id <= s.compensationId.value { id := s.compensationId.value + 1; }
      forall k: nat | id <= k ensures Unnamed(steps, k) {
        assert Unnamed(steps[1..], k) && !NamesRequest(s, k);
        forall j | 0 <= j < |steps| ensures !NamesRequest(steps[j], k) {
          if j > 0 { assert steps[j] == steps[1..][j - 1]; }
        }
      }
    }
  }

  /** While work is left some task can run, so the unwind never gets stuck short of the end. */
  lemma UnwindNeverStuck(origin: Execution, u: Unwind)
    requires UnwindInv(origin, u) && !Idle(u)
    ensures exists t :: Enabled(u, t)
  {
    if u.continues > 0 {
      assert Enabled(u, ContinueTask(0));
    } else if u.owed != {} {
      var i :| i in u.owed;
      assert i in Candidates(origin);
      var id := UnnamedExists(u.execution.steps);
      assert Enabled(u, ClaimTask(i, id, 0));
    } else if u.calls != map[] {
      var i :| i in u.calls;
      assert i in Candidates(origin);
      assert Enabled(u, SettleTask(i, true, 0));
    } else {
      var i :| i in u.webhooks;
      assert Enabled(u, ReportTask(i, 0));
    }
  }

  // ----- from runs of the whole saga -----

  /** No step is ready or has forward work in flight. */
  predicate NoneOpen(steps: seq<Step>) {
    forall i :: 0 <= i < |steps| ==> !steps[i].status.Ready? && !Active(steps[i])
  }

  lemma EnteredState(s: Saga, actions: seq<Action>, a: Action)
    requires Started(s) && Run(s, actions).execution.status.IsForward()
    ensures Inv(Run(s, actions)) && Inv(Apply(Run(s, actions), a))
    ensures DistinctIds(Apply(Run(s, actions), a).execution.steps)
    ensures Moves(Run(s, actions), Apply(Run(s, actions), a), a.now)
  {
    StartedLinked(s);
    RunKeepsLinks(s, actions);
    ApplyKeepsInv(Run(s, actions), a);
    ApplyKeepsLinks(Run(s, actions), a);
    LinkedIdsDistinct(Apply(Run(s, actions), a));
  }

  /** However forward work turns into an unwind (a step fails, a cancel command, a deadline), the unwind is ready to run
      to its end exactly when no step is left open. */
  lemma EnteredReadyExactlyWhen(s: Saga, actions: seq<Action>, a: Action)
    requires Started(s) && Run(s, actions).execution.status.IsForward()
    requires Apply(Run(s, actions), a).execution.status.Compensating?
    ensures UnwindReady(Apply(Run(s, actions), a).execution) <==> NoneOpen(Apply(Run(s, actions), a).execution.steps)
  {
    EnteredState(s, actions, a);
    var e, f := Run(s, actions).execution, Apply(Run(s, actions), a).execution;
    forall i | 0 <= i < |f.steps|
      ensures AtRestOrSucceeded(f.steps[i]) <==> !f.steps[i].status.Ready? && !Active(f.steps[i])
    {
      assert CoherentStep(e.status, e.steps[i]) && CoherentStep(f.status, f.steps[i]);
      assert Follows(e, f, e.steps[i], f.steps[i], a.now);
    }
  }

  /** So an unwind that begins with no step left open, above all one begun by a failing step, runs to its end. */
  lemma EnteredUnwindsTotally(s: Saga, actions: seq<Action>, a: Action, x: Arrivals, tasks: seq<Task>)
    requires Started(s) && Run(s, actions).execution.status.IsForward()
    requires var f := Apply(Run(s, actions), a).execution;
      f.status.Compensating? && NoneOpen(f.steps) && Expected(f, x) && PerformAll(Handover(f, x), tasks).Ok?
    ensures var f := Apply(Run(s, actions), a).execution;
            var r := PerformAll(Handover(f, x), tasks).value;
            |tasks| <= Work(f, x) && r.defaulted <= x.answers.Keys && (Idle(r) ==> FullyUnwound(f, r))
  {
    EnteredReadyExactlyWhen(s, actions, a);
    UnwindIsTotal(Apply(Run(s, actions), a).execution, x, tasks);
  }

  lemma ReachedIdsDistinct(s: Saga, actions: seq<Action>)
    requires Started(s)
    ensures Inv(Run(s, actions)) && DistinctIds(Run(s, actions).execution.steps)
  {
    StartedInv(s);
    RunKeepsInv(s, actions);
    StepsShareNoRequest(s, actions);
  }

  /** After a sweep nothing is pending, so nothing can be promoted. */
  lemma SweptNonePromotable(steps: seq<Step>)
    requires forall i :: 0 <= i < |steps| ==> !steps[i].status.Pending?
    ensures NonePromotable(steps)
  {
  }

  /** The steps that had succeeded, and only those, are compensated or were failed by their own late answer. */
  predicate UndoneExactly(before: seq<Step>, u: Unwind) {
    && |u.execution.steps| == |before|
    && forall i :: 0 <= i < |before| ==>
         (before[i].status.Succeeded? <==> u.execution.steps[i].status.Compensated? || i in u.defaulted)
  }

  /** The unwind of an execution whose open steps have all been swept. */
  lemma SweptUnwindsTotally(e: Execution, f: Execution, x: Arrivals, tasks: seq<Task>)
    requires UnwindReady(f) && |e.steps| == |f.steps| && x.continues > 0 && PerformAll(Handover(f, x), tasks).Ok?
    requires forall i :: 0 <= i < |e.steps| ==> SweptStep(e.steps[i], f.steps[i])
    ensures var r := PerformAll(Handover(f, x), tasks).value;
            && |tasks| <= Work(f, x) && r.defaulted <= x.answers.Keys
            && (Idle(r) ==> Final(ReasonGiven(f, r.heard), r.execution.status) && UndoneExactly(e.steps, r))
  {
    SweptNonePromotable(f.steps);
    UnwindIsTotal(f, x, tasks);
  }

  /** From any reachable forward state with succeeded steps, a cancellation hands over an
      unwind that ends with those steps undone and the execution cancelled, whatever forward
      answers, reports and calls were on their way. */
  lemma CancelUnwindsTotally(s: Saga, actions: seq<Action>, reason: Option<string>, now: int, x: Arrivals,
                             tasks: seq<Task>)
    requires Started(s) && Run(s, actions).execution.status.IsForward() && AnySucceeded(Run(s, actions).execution.steps)
    requires Cancel(Run(s, actions).execution, reason, now).Ok? && x.continues > 0
    requires PerformAll(Handover(Cancel(Run(s, actions).execution, reason, now).value, x), tasks).Ok?
    ensures var e := Run(s, actions).execution;
            var f := Cancel(e, reason, now).value;
            var r := PerformAll(Handover(f, x), tasks).value;
            && |tasks| <= Work(f, x) && r.defaulted <= x.answers.Keys
            && (Idle(r) ==> r.execution.status.Cancelled? && UndoneExactly(e.steps, r))
  {
    var e := Run(s, actions).execution;
    ReachedIdsDistinct(s, actions);
    CancelLeavesUnwind(e, reason, now);
    var f := Cancel(e, reason, now).value;
    SweptUnwindsTotally(e, f, x, tasks);
  }

  /** The same for an expired deadline: cancelled when a reason was recorded before or during the unwind, compensated
      otherwise. */
  lemma DeadlineUnwindsTotally(s: Saga, actions: seq<Action>, now: int, x: Arrivals, tasks: seq<Task>)
    requires Started(s) && Run(s, actions).execution.status.IsForward() && AnySucceeded(Run(s, actions).execution.steps)
    requires IsPastDeadline(Run(s, actions).execution, now) && Run(s, actions).execution.deadlineProcessedAt.None?
    requires EnforceDeadline(Run(s, actions).execution, now).Ok? && x.continues > 0
    requires PerformAll(Handover(EnforceDeadline(Run(s, actions).execution, now).value, x), tasks).Ok?
    ensures var e := Run(s, actions).execution;
            var f := EnforceDeadline(e, now).value;
            var r := PerformAll(Handover(f, x), tasks).value;
            && |tasks| <= Work(f, x) && r.defaulted <= x.answers.Keys
            && (Idle(r) ==> Final(ReasonGiven(e, r.heard), r.execution.status) && UndoneExactly(e.steps, r))
  {
    var e := Run(s, actions).execution;
    ReachedIdsDistinct(s, actions);
    DeadlineLeavesUnwind(e, now);
    var f := EnforceDeadline(e, now).value;
    SweptUnwindsTotally(e, f, x, tasks);
  }
}
