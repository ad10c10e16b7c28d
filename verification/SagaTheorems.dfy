/** Safety of whole saga runs: dependency order, one request each, no forward work
    once the unwind starts, reverse compensation order, and settled states that stay
    settled. */
module SagaTheorems {
  import opened Common
  import opened RequestStates
  import opened Workflow
  import opened SagaTransactions
  import opened SagaMachine
  import opened SagaCoherence
  import opened SagaInvariants

  // ----- transitive dependencies -----

  ghost predicate IsPath(steps: seq<Step>, path: seq<nat>) {
    && |path| >= 2 && path[0] < |steps| && path[1] < |steps| && DependsOn(steps, path[0], path[1])
    && (|path| == 2 || IsPath(steps, path[1..]))
  }

  /** Step `i` depends on step `j`, directly or through other steps. */
  ghost predicate Reaches(steps: seq<Step>, i: nat, j: nat) {
    exists path :: IsPath(steps, path) && path[0] == i && path[|path| - 1] == j
  }

  lemma {:induction false} PathSucceeded(s: Saga, path: seq<nat>)
    requires Inv(s) && IsPath(s.execution.steps, path) && WasPromoted(s, path[0])
    ensures path[|path| - 1] in s.succeededAt
  {
    assert HistoryOk(s, path[0]) && DependsOn(s.execution.steps, path[0], path[1]);
    if |path| > 2 {
      PathSucceeded(s, path[1..]);
    }
  }

  lemma CreationFollowsDependencies(r: Saga, i: nat, id: RequestId, now: int, path: seq<nat>)
    requires Inv(r) && r.created < Apply(r, StartForwardAction(i, id, now)).created
    requires IsPath(r.execution.steps, path) && path[0] == i
    ensures var j := path[|path| - 1]; j < |r.execution.steps| && r.execution.steps[j].status.Succeeded?
  {
    PathSucceeded(r, path);
    var j := path[|path| - 1];
    assert HistoryOk(r, j) && CoherentStep(r.execution.status, r.execution.steps[j]);
  }

  /** In any run, when a step's forward request is created every step it depends on,
      directly or transitively, is succeeded at that moment. */
  lemma ForwardRequestsFollowDependencies(s: Saga, actions: seq<Action>, i: nat, id: RequestId, now: int, j: nat)
    requires Started(s)
    requires var r := Run(s, actions); r.created < Apply(r, StartForwardAction(i, id, now)).created
    requires Reaches(Run(s, actions).execution.steps, i, j)
    ensures j < |Run(s, actions).execution.steps| && Run(s, actions).execution.steps[j].status.Succeeded?
  {
    var r := Run(s, actions);
    StartedInv(s);
    RunKeepsInv(s, actions);
    var path :| IsPath(r.execution.steps, path) && path[0] == i && path[|path| - 1] == j;
    CreationFollowsDependencies(r, i, id, now, path);
  }

  /** In any run no step gets two forward requests or two compensation requests. */
  lemma AtMostOneRequestEach(s: Saga, actions: seq<Action>)
    requires Started(s)
    ensures OnePerStep(Run(s, actions).created)
  {
    StartedInv(s);
    RunKeepsInv(s, actions);
  }

  /** In every committed state the step statuses fit the execution status. */
  lemma CommittedStatesAreCoherent(s: Saga, actions: seq<Action>)
    requires Started(s)
    ensures Coherent(Run(s, actions).execution)
  {
    StartedInv(s);
    RunKeepsInv(s, actions);
  }

  // ----- no way back to forward work -----

  predicate OnlyCompensations(created: seq<Creation>) {
    forall k :: 0 <= k < |created| ==> created[k].CompensationRequest?
  }

  lemma NoWayBackStep(s: Saga, a: Action)
    requires Inv(s) && !s.execution.status.IsForward()
    ensures !Apply(s, a).execution.status.IsForward()
    ensures s.created <= Apply(s, a).created
    ensures OnlyCompensations(Apply(s, a).created[|s.created|..])
  {
  }

  /** Once the execution has left the forward statuses it never returns to them, and
      every request created from then on is a compensation. */
  lemma {:induction false} NoForwardWorkAfterUnwind(s: Saga, actions: seq<Action>)
    requires Inv(s) && !s.execution.status.IsForward()
    ensures !Run(s, actions).execution.status.IsForward()
    ensures s.created <= Run(s, actions).created
    ensures OnlyCompensations(Run(s, actions).created[|s.created|..])
  {
    if actions != [] {
      var r := Run(s, actions[..|actions| - 1]);
      RunKeepsInv(s, actions[..|actions| - 1]);
      NoForwardWorkAfterUnwind(s, actions[..|actions| - 1]);
      NoWayBackStep(r, actions[|actions| - 1]);
      var t := Run(s, actions);
      forall k | 0 <= k < |t.created[|s.created|..]| ensures t.created[|s.created|..][k].CompensationRequest? {
        if k < |r.created| - |s.created| {
          assert t.created[|s.created|..][k] == r.created[|s.created|..][k];
        } else {
          assert t.created[|s.created|..][k] == t.created[|r.created|..][k - (|r.created| - |s.created|)];
        }
      }
    }
  }

  // ----- reverse completion order -----

  /** Clock readings strictly increase from one transaction to the next. */
  predicate StrictClock(start: int, actions: seq<Action>) {
    && (forall k :: 0 <= k < |actions| ==> start < actions[k].now)
    && (forall k, l :: 0 <= k < l < |actions| ==> actions[k].now < actions[l].now)
  }

  ghost predicate TimedStep(s: Saga, i: nat)
    requires i < |s.execution.steps|
  {
    i in s.succeededAt ==>
      && s.succeededAt[i] <= s.clock
      && (s.execution.steps[i].status.Succeeded? ==> s.execution.steps[i].completedAt == Some(s.succeededAt[i]))
      && (forall j: nat :: DependsOn(s.execution.steps, i, j) && j in s.succeededAt ==>
          s.succeededAt[j] < s.succeededAt[i])
  }

  /** Stamps never run ahead of the clock, and a step succeeded after all it depends on. */
  ghost predicate Timed(s: Saga) {
    forall i :: 0 <= i < |s.execution.steps| ==> TimedStep(s, i)
  }

  lemma TimedKept(s: Saga, r: Saga, now: int)
    requires Inv(s) && Timed(s) && Moves(s, r, now) && s.clock < now
    ensures Timed(r)
  {
    var e, f := s.execution, r.execution;
    if Evolves(e, f, now) && r.succeededAt == Stamp(s, f, now) && r.clock == now {
      forall i | 0 <= i < |f.steps| ensures TimedStep(r, i) {
        TimedStepKept(s, r, i, now);
      }
    } else {
      forall i | 0 <= i < |f.steps| ensures TimedStep(r, i) {
        assert TimedStep(s, i);
      }
    }
  }

  lemma TimedStepKept(s: Saga, r: Saga, i: nat, now: int)
    requires Inv(s) && Timed(s) && s.clock < now && i < |r.execution.steps|
    requires Evolves(s.execution, r.execution, now) && r.succeededAt == Stamp(s, r.execution, now) && r.clock == now
    ensures TimedStep(r, i)
  {
    var e, f := s.execution, r.execution;
    EvolvedShape(e, f, now);
    assert Follows(e, f, e.steps[i], f.steps[i], now) && HistoryOk(s, i) && TimedStep(s, i);
    if i in r.succeededAt {
      forall j: nat | DependsOn(f.steps, i, j) && j in r.succeededAt
        ensures r.succeededAt[j] < r.succeededAt[i]
      {
        ShapeFixesDependencies(e.steps, f.steps, i, j);
        assert j in s.succeededAt;
        assert TimedStep(s, j);
      }
    }
  }

  lemma {:induction false} RunKeepsTime(s: Saga, actions: seq<Action>)
    requires Inv(s) && Timed(s) && StrictClock(s.clock, actions)
    ensures Timed(Run(s, actions))
    ensures Run(s, actions).clock <= if actions == [] then s.clock else actions[|actions| - 1].now
  {
    if actions != [] {
      var before, a := actions[..|actions| - 1], actions[|actions| - 1];
      assert forall k :: 0 <= k < |before| ==> before[k] == actions[k];
      RunKeepsTime(s, before);
      RunKeepsInv(s, before);
      var r := Run(s, before);
      ApplyKeepsInv(r, a);
      TimedKept(r, Apply(r, a), a.now);
    }
  }

  lemma {:induction false} PathTimes(s: Saga, path: seq<nat>)
    requires Inv(s) && Timed(s) && IsPath(s.execution.steps, path) && path[0] in s.succeededAt
    ensures path[|path| - 1] in s.succeededAt && s.succeededAt[path[|path| - 1]] < s.succeededAt[path[0]]
  {
    assert DependsOn(s.execution.steps, path[0], path[1]) && HistoryOk(s, path[0]) && TimedStep(s, path[0]);
    if |path| > 2 {
      PathTimes(s, path[1..]);
    }
  }

  /** Over every interleaving, the step that begins compensation completed last among the
      succeeded steps, so no step that is still succeeded depends on it, at any distance. */
  lemma UnwindRespectsDependencies(s: Saga, actions: seq<Action>, j: nat)
    requires Started(s) && StrictClock(s.clock, actions)
    requires var r := Run(s, actions);
      BeginsCompensation(r.execution) && j < |r.execution.steps| && r.execution.steps[j].status.Succeeded?
    ensures var steps := Run(s, actions).execution.steps;
            var i := NextToCompensate(steps).value;
            steps[i].completedAt.Some? && steps[j].completedAt.Some? &&
            steps[j].completedAt.value <= steps[i].completedAt.value && !Reaches(steps, j, i)
  {
    var r := Run(s, actions);
    StartedInv(s);
    RunKeepsInv(s, actions);
    RunKeepsTime(s, actions);
    var steps := r.execution.steps;
    var i := NextToCompensate(steps).value;
    NextCompletedLast(steps, j);
    assert TimedStep(r, i) && TimedStep(r, j) && HistoryOk(r, i) && HistoryOk(r, j);
    forall path | IsPath(steps, path) && path[0] == j && path[|path| - 1] == i ensures false {
      PathTimes(r, path);
    }
  }

  // ----- settled executions -----

  /** Equal except for the recorded compensation request. */
  predicate SameButClaim(s: Step, t: Step) {
    t == s.(compensationId := t.compensationId)
  }

  /** A compensation that is still owed creates its request. */
  predicate ClaimsOwed(s: Saga, a: Action) {
    && a.StartCompensationAction? && a.step in s.owed && a.step < |s.execution.steps|
    && s.execution.steps[a.step].compensateOperation.Some? && Fresh(s, a.id)
  }

  lemma SettledForward(e: Execution, i: nat, id: RequestId, status: RequestStatus, now: int)
    requires Coherent(e) && (e.status.Succeeded? || e.status.Compensated?)
    requires i < |e.steps| && !Untouched(e.steps[i]) && SettleForward(e, i, id, status, now).Ok?
    ensures SettleForward(e, i, id, status, now).value == e
  {
    assert CoherentStep(e.status, e.steps[i]) && e.steps[i := e.steps[i]] == e.steps;
  }

  lemma SettledHook(e: Execution, id: RequestId, status: RequestStatus, now: int)
    requires Coherent(e) && (e.status.Succeeded? || e.status.Compensated?)
    ensures Hook(e, id, status, now) == Ok(e)
  {
    var found := StepForRequest(e.steps, id);
    if found.Some? {
      assert CoherentStep(e.status, e.steps[found.value]) && e.steps[found.value := e.steps[found.value]] == e.steps;
    }
  }

  lemma SettledCompensation(e: Execution, i: nat, id: RequestId, status: RequestStatus, now: int)
    requires Coherent(e) && (e.status.Succeeded? || e.status.Compensated?)
    requires i < |e.steps| && Unwound(e.steps[i]) && SettleCompensation(e, i, id, status, now).Ok?
    ensures SettleCompensation(e, i, id, status, now).value == e
  {
    assert CoherentStep(e.status, e.steps[i]);
  }

  /** In a succeeded or compensated execution no transaction touches status or steps, save
      that a compensation still owed records the request it creates. */
  lemma SettledStep(s: Saga, a: Action)
    requires Inv(s) && (s.execution.status.Succeeded? || s.execution.status.Compensated?)
    ensures !ClaimsOwed(s, a) ==> Apply(s, a).execution == s.execution && Apply(s, a).created == s.created
    ensures ClaimsOwed(s, a) ==>
      Apply(s, a).execution == s.execution.(steps :=
        s.execution.steps[a.step := s.execution.steps[a.step].(compensationId := Some(a.id))])
    ensures ClaimsOwed(s, a) ==> Apply(s, a).created == s.created + [CompensationRequest(a.step, a.id)]
    ensures Apply(s, a).owed <= s.owed
  {
    var e := s.execution;
    match a
    case SettleForwardAction(i, id, status, now) =>
      if i < |e.steps| && ForwardRequest(i, id) in s.created {
        ForwardCreated(s, i, id);
        if SettleForward(e, i, id, status, now).Ok? { SettledForward(e, i, id, status, now); }
      }
    case HookAction(id, status, now) => SettledHook(e, id, status, now);
    case SettleCompensationAction(i, id, status, now) =>
      if i < |e.steps| && CompensationRequest(i, id) in s.created {
        CompensationCreated(s, i, id);
        if SettleCompensation(e, i, id, status, now).Ok? { SettledCompensation(e, i, id, status, now); }
      }
    case StartCompensationAction(i, id, now) =>
      if i < |e.steps| && i in s.owed { assert BookOk(s, i) && CoherentStep(e.status, e.steps[i]); }
    case _ =>
  }

  lemma SucceededOwesNothing(s: Saga)
    requires Inv(s) && s.execution.status.Succeeded?
    ensures s.owed == {}
  {
    forall i | 0 <= i < |s.execution.steps| ensures i !in s.owed {
      assert BookOk(s, i) && CoherentStep(s.execution.status, s.execution.steps[i]);
    }
  }

  /** A process is still about to request a compensation for one of the steps. */
  ghost predicate OwesClaim(s: Saga) {
    exists i :: i in s.owed && i < |s.execution.steps| && s.execution.steps[i].compensateOperation.Some?
  }

  lemma {:induction false} SettledExecutionsStay(s: Saga, actions: seq<Action>)
    requires Inv(s) && (s.execution.status.Succeeded? || s.execution.status.Compensated?) && !OwesClaim(s)
    ensures Run(s, actions).execution == s.execution && Run(s, actions).created == s.created &&
            Run(s, actions).owed <= s.owed
  {
    if actions != [] {
      var before, a := actions[..|actions| - 1], actions[|actions| - 1];
      SettledExecutionsStay(s, before);
      RunKeepsInv(s, before);
      SettledStep(Run(s, before), a);
    }
  }

  lemma {:induction false} FreshIdExists(created: seq<Creation>, other: RequestId) returns (id: RequestId)
    ensures id > other && forall k :: 0 <= k < |created| ==> created[k].id < id
  {
    if created == [] {
      id := other + 1;
    } else {
      var n := |created| - 1;
      var last := created[n].id;
      id := FreshIdExists(created[..n], if last > other then last else other);
      assert forall k :: 0 <= k < n ==> created[k] == created[..n][k];
    }
  }

  lemma OwedClaimChanges(s: Saga)
    requires Inv(s) && (s.execution.status.Succeeded? || s.execution.status.Compensated?) && OwesClaim(s)
    ensures exists actions :: Run(s, actions).execution != s.execution
  {
    var i :| i in s.owed && i < |s.execution.steps| && s.execution.steps[i].compensateOperation.Some?;
    var recorded := s.execution.steps[i].compensationId;
    var id := FreshIdExists(s.created, if recorded.Some? then recorded.value else 0);
    var a := StartCompensationAction(i, id, 0);
    SettledStep(s, a);
    var claimed := Apply(s, a);
    assert claimed.execution.steps[i].compensationId == Some(id);
    assert [a][..0] == [];
    assert Run(s, [a]) == claimed;
  }

  /** A succeeded or compensated execution never changes again, whatever late events arrive, exactly when no process
      is still about to request a compensation. A succeeded execution never owes one. */
  lemma SettledForeverExactlyWhen(s: Saga)
    requires Inv(s) && (s.execution.status.Succeeded? || s.execution.status.Compensated?)
    ensures (forall actions :: Run(s, actions).execution == s.execution) <==> !OwesClaim(s)
    ensures s.execution.status.Succeeded? ==> !OwesClaim(s)
  {
    if OwesClaim(s) {
      OwedClaimChanges(s);
    } else {
      forall actions ensures Run(s, actions).execution == s.execution {
        SettledExecutionsStay(s, actions);
      }
    }
    if s.execution.status.Succeeded? {
      SucceededOwesNothing(s);
    }
  }

  /** Statuses of a compensated execution never change again even when it still owes one. */
  lemma {:induction false} SettledStatusesStay(s: Saga, actions: seq<Action>)
    requires Inv(s) && s.execution.status.Compensated?
    ensures Run(s, actions).execution.status.Compensated?
    ensures |Run(s, actions).execution.steps| == |s.execution.steps|
    ensures forall i :: 0 <= i < |s.execution.steps| ==>
              SameButClaim(s.execution.steps[i], Run(s, actions).execution.steps[i])
  {
    if actions != [] {
      var before := actions[..|actions| - 1];
      SettledStatusesStay(s, before);
      RunKeepsInv(s, before);
      SettledStep(Run(s, before), actions[|actions| - 1]);
    }
  }
}
