/** How steps and requests are linked in every run: a step names only requests that were created for it, so no two
    steps name the same one; work in flight can be found again; and a compensation that has begun is either still owed
    or linked to its request. */
module SagaLinks {
  import opened Common
  import opened WorkflowStates
  import opened RequestStates
  import opened Workflow
  import opened SagaTransactions
  import opened SagaMachine
  import opened SagaCoherence
  import opened SagaInvariants

  predicate CreatedFor(created: seq<Creation>, i: nat, id: RequestId) {
    ForwardRequest(i, id) in created || CompensationRequest(i, id) in created
  }

  /** Step `i` is linked to its own requests only, and to as many as its status calls for. */
  predicate LinkedStep(s: Saga, i: nat)
    requires i < |s.execution.steps|
  {
    var t := s.execution.steps[i];
    && (t.requestId.Some? ==> CreatedFor(s.created, i, t.requestId.value))
    && (t.compensationId.Some? ==> CreatedFor(s.created, i, t.compensationId.value))
    && (Active(t) ==> t.requestId.Some?)
    && (t.status.Compensating? ==> i in s.owed || t.compensationId.Some?)
  }

  predicate DistinctCreations(created: seq<Creation>) {
    forall k, l :: 0 <= k < l < |created| ==> created[k].id != created[l].id
  }

  predicate Linked(s: Saga) {
    && DistinctCreations(s.created)
    && forall i :: 0 <= i < |s.execution.steps| ==> LinkedStep(s, i)
  }

  /** No step names the request of another. */
  ghost predicate DistinctIds(steps: seq<Step>) {
    forall i, j, id {:trigger NamesRequest(steps[i], id), NamesRequest(steps[j], id)} ::
      0 <= i < j < |steps| ==> !(NamesRequest(steps[i], id) && NamesRequest(steps[j], id))
  }

  lemma CreatedOnce(created: seq<Creation>, i: nat, j: nat, id: RequestId)
    requires DistinctCreations(created) && CreatedFor(created, i, id) && CreatedFor(created, j, id)
    ensures i == j
  {
    var k :| 0 <= k < |created| && (created[k] == ForwardRequest(i, id) || created[k] == CompensationRequest(i, id));
    var l :| 0 <= l < |created| && (created[l] == ForwardRequest(j, id) || created[l] == CompensationRequest(j, id));
    assert k == l;
  }

  lemma LinkedIdsDistinct(s: Saga)
    requires Linked(s)
    ensures DistinctIds(s.execution.steps)
  {
    var steps := s.execution.steps;
    forall i, j, id {:trigger NamesRequest(steps[i], id), NamesRequest(steps[j], id)} | 0 <= i < j < |steps|
      ensures !(NamesRequest(steps[i], id) && NamesRequest(steps[j], id))
    {
      if NamesRequest(steps[i], id) && NamesRequest(steps[j], id) {
        assert LinkedStep(s, i) && LinkedStep(s, j);
        CreatedOnce(s.created, i, j, id);
      }
    }
  }

  /** A request named by a step leads the hook back to that step. */
  lemma FindsOwner(steps: seq<Step>, i: nat, id: RequestId)
    requires DistinctIds(steps) && i < |steps| && NamesRequest(steps[i], id)
    ensures StepForRequest(steps, id) == Some(i)
  {
    assert forall j :: 0 <= j < i ==> !NamesRequest(steps[j], id);
  }

  // ----- which transactions link a compensation request -----

  /** Step `i` carries another compensation request in `f` than in `e`. */
  predicate Relinked(e: Execution, f: Execution, i: nat) {
    i < |e.steps| && i < |f.steps| && f.steps[i].compensationId != e.steps[i].compensationId
  }

  lemma SweepsRelinkNone(e: Execution, reason: Option<string>, now: int, i: nat)
    ensures Cancel(e, reason, now).Ok? ==> !Relinked(e, Cancel(e, reason, now).value, i)
    ensures EnforceDeadline(e, now).Ok? ==> !Relinked(e, EnforceDeadline(e, now).value, i)
  {
  }

  lemma RefreshRelinksNone(e: Execution, now: int, i: nat)
    requires Refresh(e, now).Ok?
    ensures !Relinked(e, Refresh(e, now).value, i)
  {
  }

  lemma AdvanceRelinksNone(e: Execution, done: set<RequestId>, now: int, i: nat)
    requires Advance(e, done, now).Ok?
    ensures !Relinked(e, Advance(e, done, now).value, i)
  {
    if Advances(e, now) {
      var status := if e.status.Queued? then WorkflowStatus.Running else e.status;
      RefreshRelinksNone(e.(status := status, steps := Promoted(ResumeSteps(e.steps, done, now), now)), now, i);
    }
  }

  lemma SettleForwardRelinksNone(e: Execution, j: nat, id: RequestId, status: RequestStatus, now: int, i: nat)
    requires j < |e.steps| && SettleForward(e, j, id, status, now).Ok?
    ensures !Relinked(e, SettleForward(e, j, id, status, now).value, i)
  {
    var s := SettleForwardStep(e.steps[j], id, status, now).value;
    RefreshRelinksNone(e.(steps := e.steps[j := s]), now, i);
  }

  lemma HookRelinks(e: Execution, id: RequestId, status: RequestStatus, now: int, i: nat)
    requires Hook(e, id, status, now).Ok? && Relinked(e, Hook(e, id, status, now).value, i)
    ensures NamesRequest(e.steps[i], id) && Hook(e, id, status, now).value.steps[i].compensationId == Some(id)
    ensures !Hook(e, id, status, now).value.steps[i].status.Compensating?
  {
    var found := StepForRequest(e.steps, id);
    if IsHooked(status) && found.Some? {
      var s := HookStep(e.steps[found.value], id, status, now).value;
      var moved := e.(steps := e.steps[found.value := s]);
      if HookEscalates(e, e.steps[found.value], status) {
        moved := moved.(status := WorkflowStatus.ManualReview);
      }
      RefreshRelinksNone(moved, now, i);
    }
  }

  /** Whatever compensation request a step is newly linked to was created for it. */
  lemma RelinkedToOwn(s: Saga, a: Action, i: nat)
    requires Linked(s) && Relinked(s.execution, Apply(s, a).execution, i)
    ensures var t := Apply(s, a).execution.steps[i];
            t.compensationId.Some? ==> CreatedFor(Apply(s, a).created, i, t.compensationId.value)
    ensures Apply(s, a).execution.steps[i].compensationId.None? ==>
            !Apply(s, a).execution.steps[i].status.Compensating?
  {
    var e := s.execution;
    match a
    case CancelAction(reason, now) => SweepsRelinkNone(e, reason, now, i);
    case DeadlineAction(now) => SweepsRelinkNone(e, None, now, i);
    case AdvanceAction(done, now) => AdvanceRelinksNone(e, done, now, i);
    case RefreshAction(now) => RefreshRelinksNone(e, now, i);
    case StartForwardAction(_, _, _) =>
    case SettleForwardAction(j, id, status, now) => SettleForwardRelinksNone(e, j, id, status, now, i);
    case HookAction(id, status, now) =>
      HookRelinks(e, id, status, now, i);
      assert LinkedStep(s, i);
    case ContinueAction(now) =>
    case StartCompensationAction(_, _, _) =>
    case SettleCompensationAction(_, _, _, _) =>
  }

  // ----- one transaction -----

  lemma CreationsStay(s: Saga, a: Action, i: nat, id: RequestId)
    ensures CreatedFor(s.created, i, id) ==> CreatedFor(Apply(s, a).created, i, id)
    ensures DistinctCreations(s.created) ==> DistinctCreations(Apply(s, a).created)
  {
    var r := Apply(s, a);
    assert r.created == s.created || (|r.created| == |s.created| + 1 && r.created[..|s.created|] == s.created);
    assert forall k :: 0 <= k < |s.created| ==> r.created[k] == s.created[k];
  }

  /** Only the launch of a step changes its forward request. */
  lemma ForwardLinkKept(s: Saga, a: Action, i: nat)
    requires Inv(s) && Linked(s) && i < |s.execution.steps|
    ensures |Apply(s, a).execution.steps| == |s.execution.steps|
    ensures var t := Apply(s, a).execution.steps[i];
            && (t.requestId.Some? ==> CreatedFor(Apply(s, a).created, i, t.requestId.value))
            && (Active(t) ==> t.requestId.Some?)
  {
    var e, r := s.execution, Apply(s, a);
    ApplyKeepsInv(s, a);
    assert LinkedStep(s, i);
    if r.execution != e {
      assert Follows(e, r.execution, e.steps[i], r.execution.steps[i], a.now);
      if EdgeOf(e.steps[i], r.execution.steps[i]).Launch? {
        LaunchLinks(s, a, i);
      }
    }
    if e.steps[i].requestId.Some? {
      CreationsStay(s, a, i, e.steps[i].requestId.value);
    }
  }

  lemma LaunchLinks(s: Saga, a: Action, i: nat)
    requires Inv(s) && i < |s.execution.steps| == |Apply(s, a).execution.steps|
    requires Apply(s, a).execution != s.execution
    requires EdgeOf(s.execution.steps[i], Apply(s, a).execution.steps[i]).Launch?
    ensures var t := Apply(s, a).execution.steps[i];
            t.requestId.Some? && CreatedFor(Apply(s, a).created, i, t.requestId.value)
  {
    if a.ContinueAction? {
      ContinueLaunchesNone(s, a.now, i);
    } else if !a.StartForwardAction? {
      OthersAreQuiet(s, a);
    }
  }

  /** Only a forward start launches a step, and only a continuation begins to compensate one. */
  lemma OthersAreQuiet(s: Saga, a: Action)
    requires Inv(s) && !a.StartForwardAction? && !a.ContinueAction?
    ensures Quiet(s.execution, Apply(s, a).execution)
  {
    var e := s.execution;
    match a
    case CancelAction(reason, now) => if Cancel(e, reason, now).Ok? { CancelQuiet(e, reason, now); }
    case DeadlineAction(now) => if EnforceDeadline(e, now).Ok? { DeadlineQuiet(e, now); }
    case AdvanceAction(done, now) => if Advance(e, done, now).Ok? { AdvanceQuiet(e, done, now); }
    case RefreshAction(now) => if Refresh(e, now).Ok? { RefreshQuiet(e, now); }
    case SettleForwardAction(i, id, status, now) =>
      if i < |e.steps| && SettleForward(e, i, id, status, now).Ok? { SettleForwardQuiet(e, i, id, status, now); }
    case HookAction(id, status, now) => if Hook(e, id, status, now).Ok? { HookQuiet(e, id, status, now); }
    case StartCompensationAction(i, _, _) => if i in s.owed { assert BookOk(s, i); }
    case SettleCompensationAction(i, id, status, now) =>
      if i < |e.steps| && SettleCompensation(e, i, id, status, now).Ok? {
        SettleCompensationQuiet(e, i, id, status, now);
      }
  }

  lemma ContinueLaunchesNone(s: Saga, now: int, i: nat)
    requires i < |s.execution.steps| == |Apply(s, ContinueAction(now)).execution.steps|
    ensures !EdgeOf(s.execution.steps[i], Apply(s, ContinueAction(now)).execution.steps[i]).Launch?
  {
  }

  /** A step that has begun to compensate is owed its claim until the claim links it to its request. */
  lemma StaysPursued(s: Saga, a: Action, i: nat)
    requires Inv(s) && Linked(s) && i < |s.execution.steps| == |Apply(s, a).execution.steps|
    requires Apply(s, a).execution.steps[i].status.Compensating?
    ensures i in Apply(s, a).owed || Apply(s, a).execution.steps[i].compensationId.Some?
  {
    var e, r := s.execution, Apply(s, a);
    assert LinkedStep(s, i);
    if Relinked(e, r.execution, i) {
      RelinkedToOwn(s, a, i);
    } else if !e.steps[i].status.Compensating? {
      BegunIsOwed(s, a, i);
    }
  }

  lemma ContinueOwes(s: Saga, now: int, i: nat)
    requires i < |s.execution.steps| == |Apply(s, ContinueAction(now)).execution.steps|
    requires !s.execution.steps[i].status.Compensating?
    requires Apply(s, ContinueAction(now)).execution.steps[i].status.Compensating?
    ensures i in Apply(s, ContinueAction(now)).owed
  {
  }

  lemma BeginsQuietly(s: Step, t: Step)
    requires !s.status.Compensating? && !EdgeOf(s, t).Begin?
    ensures !t.status.Compensating?
  {
  }

  lemma BegunIsOwed(s: Saga, a: Action, i: nat)
    requires Inv(s) && i < |s.execution.steps| == |Apply(s, a).execution.steps|
    requires !s.execution.steps[i].status.Compensating? && Apply(s, a).execution.steps[i].status.Compensating?
    ensures i in Apply(s, a).owed
  {
    if a.ContinueAction? {
      ContinueOwes(s, a.now, i);
    } else if !a.StartForwardAction? {
      OthersAreQuiet(s, a);
      BeginsQuietly(s.execution.steps[i], Apply(s, a).execution.steps[i]);
    }
  }

  lemma ApplyKeepsLinks(s: Saga, a: Action)
    requires Inv(s) && Linked(s)
    ensures Linked(Apply(s, a))
  {
    var r := Apply(s, a);
    CreationsStay(s, a, 0, 0);
    ApplyKeepsInv(s, a);
    assert |r.execution.steps| == |s.execution.steps|;
    forall i | 0 <= i < |r.execution.steps| ensures LinkedStep(r, i) {
      assert LinkedStep(s, i);
      ForwardLinkKept(s, a, i);
      if Relinked(s.execution, r.execution, i) {
        RelinkedToOwn(s, a, i);
      } else if s.execution.steps[i].compensationId.Some? {
        CreationsStay(s, a, i, s.execution.steps[i].compensationId.value);
      }
      if r.execution.steps[i].status.Compensating? { StaysPursued(s, a, i); }
    }
  }

  lemma StartedLinked(s: Saga)
    requires Started(s)
    ensures Inv(s) && Linked(s)
  {
    StartedInv(s);
    forall i | 0 <= i < |s.execution.steps| ensures LinkedStep(s, i) {
      assert BookOk(s, i) && CoherentStep(s.execution.status, s.execution.steps[i]);
    }
  }

  lemma {:induction false} RunKeepsLinks(s: Saga, actions: seq<Action>)
    requires Inv(s) && Linked(s)
    ensures Inv(Run(s, actions)) && Linked(Run(s, actions))
  {
    if actions != [] {
      RunKeepsLinks(s, actions[..|actions| - 1]);
      ApplyKeepsInv(Run(s, actions[..|actions| - 1]), actions[|actions| - 1]);
      ApplyKeepsLinks(Run(s, actions[..|actions| - 1]), actions[|actions| - 1]);
    }
  }

  /** In every reachable state, whatever it is doing, no two steps name the same request. */
  lemma StepsShareNoRequest(s: Saga, actions: seq<Action>)
    requires Started(s)
    ensures DistinctIds(Run(s, actions).execution.steps)
  {
    StartedLinked(s);
    RunKeepsLinks(s, actions);
    LinkedIdsDistinct(Run(s, actions));
  }
}
