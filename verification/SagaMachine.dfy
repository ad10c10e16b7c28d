/** The saga as a transition system: one action per transaction, interleaved in any
    order, with provider answers, crashes and late events left to the environment. */
module SagaMachine {
  import opened Common
  import opened RequestStates
  import opened Workflow
  import opened SagaTransactions

  datatype Creation =
    | ForwardRequest(step: nat, id: RequestId)
    | CompensationRequest(step: nat, id: RequestId)

  /** The stored execution and the history needed to speak about whole runs: `listed` are
      steps some `advance` saw as ready after its commit and may hand to `_run_forward_step`,
      `owed` are steps whose compensation has begun and whose `_compensate_step` has not
      run yet, `created` lists every request created, `succeededAt` when each step
      succeeded, `clock` the time of the last committed transaction. */
  datatype Saga = Saga(
    execution: Execution,
    listed: set<nat>,
    owed: set<nat>,
    created: seq<Creation>,
    succeededAt: map<nat, int>,
    clock: int)

  datatype Action =
    | CancelAction(reason: Option<string>, now: int)
    | DeadlineAction(now: int)
    | AdvanceAction(done: set<RequestId>, now: int)
    | RefreshAction(now: int)
    | StartForwardAction(step: nat, id: RequestId, now: int)
    | SettleForwardAction(step: nat, id: RequestId, status: RequestStatus, now: int)
    | HookAction(id: RequestId, status: RequestStatus, now: int)
    | ContinueAction(now: int)
    | StartCompensationAction(step: nat, id: RequestId, now: int)
    | SettleCompensationAction(step: nat, id: RequestId, status: RequestStatus, now: int)

  /** Identifiers are generated fresh. */
  predicate Fresh(s: Saga, id: RequestId) {
    forall k :: 0 <= k < |s.created| ==> s.created[k].id != id
  }

  /** Steps that succeed in this transaction are stamped; earlier stamps stay. */
  function Stamp(s: Saga, next: Execution, now: int): (r: map<nat, int>)
  {
    map j: nat | j < |next.steps| && (j in s.succeededAt || next.steps[j].status.Succeeded?) ::
      if j in s.succeededAt then s.succeededAt[j] else now
  }

  function Commit(s: Saga, next: Execution, now: int): (r: Saga)
  {
    s.(execution := next, succeededAt := Stamp(s, next, now), clock := now)
  }

  function CommitOrAbort(s: Saga, outcome: Outcome<Execution>, now: int): (r: Saga)
  {
    if outcome.Ok? then Commit(s, outcome.value, now) else s
  }

  /** The steps `advance` goes on to dispatch. */
  function ReadySteps(e: Execution): (r: set<nat>)
  {
    if e.status.IsTerminal() || e.status.Compensating? || e.status.ManualReview? then {}
    else set i: nat | i < |e.steps| && e.steps[i].status.Ready?
  }

  /** One transaction. An action whose caller does not exist changes nothing. */
  function Apply(s: Saga, a: Action): (r: Saga)
  {
    var e := s.execution;
    match a
    case CancelAction(reason, now) => CommitOrAbort(s, Cancel(e, reason, now), now)
    case DeadlineAction(now) => CommitOrAbort(s, EnforceDeadline(e, now), now)
    case AdvanceAction(done, now) =>
      var outcome := Advance(e, done, now);
      var next := CommitOrAbort(s, outcome, now);
      if Advances(e, now) && outcome.Ok? then next.(listed := s.listed + ReadySteps(outcome.value)) else next
    case RefreshAction(now) => CommitOrAbort(s, Refresh(e, now), now)
    case StartForwardAction(i, id, now) =>
      if i in s.listed && StartsForward(e, i, now) && Fresh(s, id) then
        Commit(s, StartForward(e, i, id, now), now).(created := s.created + [ForwardRequest(i, id)])
      else s
    case SettleForwardAction(i, id, status, now) =>
      if i < |e.steps| && ForwardRequest(i, id) in s.created then
        CommitOrAbort(s, SettleForward(e, i, id, status, now), now)
      else s
    case HookAction(id, status, now) => CommitOrAbort(s, Hook(e, id, status, now), now)
    case ContinueAction(now) =>
      var next := CommitOrAbort(s, Continue(e, now), now);
      if BeginsCompensation(e) then next.(owed := s.owed + {NextToCompensate(e.steps).value}) else next
    case StartCompensationAction(i, id, now) =>
      if i < |e.steps| && i in s.owed && Fresh(s, id) then
        var outcome := StartCompensation(e, i, id, now);
        var next := CommitOrAbort(s, outcome, now).(owed := s.owed - {i});
        if outcome.Ok? && e.steps[i].compensateOperation.Some? then
          next.(created := s.created + [CompensationRequest(i, id)])
        else next
      else s
    case SettleCompensationAction(i, id, status, now) =>
      if i < |e.steps| && CompensationRequest(i, id) in s.created then
        CommitOrAbort(s, SettleCompensation(e, i, id, status, now), now)
      else s
  }

  /** The saga after a sequence of transactions. */
  function Run(s: Saga, actions: seq<Action>): (r: Saga)
  {
    if actions == [] then s
    else Apply(Run(s, actions[..|actions| - 1]), actions[|actions| - 1])
  }

  predicate FreshStep(s: Step) {
    s.status.Pending? && s.attemptCount == 0 && s.requestId.None? && s.compensationId.None? && s.completedAt.None?
  }

  /** A saga as `start_execution` leaves it. */
  ghost predicate Started(s: Saga) {
    exists steps: seq<Step>, deadlineAt: Option<int> ::
      && (forall i :: 0 <= i < |steps| ==> FreshStep(steps[i]))
      && Start(steps, deadlineAt, s.clock) == Ok(s.execution)
      && s.listed == {} && s.owed == {} && s.created == [] && s.succeededAt == map[]
  }

  // ----- how one transaction may change one step -----

  datatype Edge =
    Same | Promote | Launch | Wait | Retry | Succeed | Fail | Begin | Compensate | CompensationFail | Claim | Withdraw

  predicate Active(s: Step) {
    s.status.Running? || s.status.Waiting? || s.status.RetryScheduled?
  }

  function EdgeOf(s: Step, t: Step): (g: Edge)
  {
    if t == s then Same
    else
      match t.status
      case Ready => Edge.Promote
      case Running => Launch
      case Waiting => Wait
      case RetryScheduled => Retry
      case Succeeded => Succeed
      case Failed => if s.status.Compensating? then CompensationFail else if s.status.Failed? then Claim else Fail
      case Compensating => if s.status.Compensating? then Claim else Begin
      case Compensated => if s.status.Compensated? then Claim else Compensate
      case Cancelled => Withdraw
      case Pending | Skipped | DeadLettered => Same
  }

  /** Step `s` becomes `t` along an edge, while the execution goes from `e` to `f`. */
  predicate Follows(e: Execution, f: Execution, s: Step, t: Step, now: int) {
    var g := EdgeOf(s, t);
    && SameTemplate(s, t)
    && (!g.Launch? ==> t.attemptCount == s.attemptCount && t.requestId == s.requestId)
    && (!g.Compensate? && !g.Claim? ==> t.compensationId == s.compensationId)
    && match g
       case Same => t == s
       case Promote =>
         && s.status.Pending? && t.status.Ready?
         && CheckDependencies(f.steps, t.dependsOn).Satisfied?
       case Launch =>
         && s.status.Ready? && t.status.Running?
         && t.attemptCount == s.attemptCount + 1 && t.requestId.Some?
         && e.status.IsForward() && f.status == e.status
       case Wait => s.status.Running? && t.status.Waiting?
       case Retry => s.status.Running? && t.status.RetryScheduled?
       case Succeed =>
         (s.status.Running? || s.status.Waiting?) && t.status.Succeeded? && t.completedAt == Some(now)
       case Fail => Active(s) && t.status.Failed? && !f.status.IsForward()
       case Begin =>
         && s.status.Succeeded? && t.status.Compensating?
         && e.status.Compensating? && f.status.Compensating?
       case Compensate => s.status.Compensating? && t.status.Compensated?
       case CompensationFail => s.status.Compensating? && t.status.Failed?
       case Claim =>
         && (s.status.Compensating? || s.status.Compensated? || s.status.Failed?)
         && t == s.(compensationId := t.compensationId)
       case Withdraw =>
         (Active(s) || s.status.Pending? || s.status.Ready?) && t.status.Cancelled?
  }

  /** Every step of the execution follows its edge. */
  predicate Evolves(e: Execution, f: Execution, now: int) {
    && |e.steps| == |f.steps|
    && forall j :: 0 <= j < |e.steps| ==> Follows(e, f, e.steps[j], f.steps[j], now)
  }
}
