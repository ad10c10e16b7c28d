/** Total correctness of forward work: if every call is answered with success, at once or later, and the deadline does
    not pass, advancing, starting and settling ends with every step succeeded, within a bounded number of transactions.
    And exactly when a step has been lost on the way (failed, cancelled, or scheduled for a retry that nobody makes) the
    workflow can succeed no more. */
module SagaForward {
  import opened Common
  import opened WorkflowStates
  import opened RequestStates
  import opened Workflow
  import opened SagaTransactions
  import opened SagaMachine
  import opened SagaCoherence
  import opened SagaInvariants
  import opened SagaLinks
  import opened SagaOutcomes
  import opened SagaTheorems
  import opened SagaLateReports
  import opened SagaHoldups

  /** A step that has succeeded or still can. */
  predicate OnCourse(s: Step) {
    s.status.Pending? || s.status.Ready? || s.status.Running? || s.status.Waiting? || s.status.Succeeded?
  }

  predicate NoneLost(e: Execution) {
    forall i :: 0 <= i < |e.steps| ==> OnCourse(e.steps[i])
  }

  /** Advancing, starting, settling a call that succeeded or is pending, and reporting a success, before the deadline.
      */
  predicate Favourable(e: Execution, a: Action) {
    && !IsPastDeadline(e, a.now)
    && match a
       case AdvanceAction(_, _) => true
       case RefreshAction(_) => true
       case StartForwardAction(_, _, _) => true
       case SettleForwardAction(_, _, status, _) => status.Succeeded? || status.Pending?
       case HookAction(_, status, _) => status.Succeeded?
       case _ => false
  }

  /** What a favourable run keeps: forward work or its end, and no step lost. */
  ghost predicate GoingWell(s: Saga, rank: seq<nat>) {
    && Inv(s) && Linked(s) && StatusFits(s.execution) && NoneLost(s.execution)
    && (s.execution.status.IsForward() || s.execution.status.Succeeded?)
    && RanksDependencies(s.execution.steps, rank)
  }

  // ----- one favourable transaction -----

  lemma RefreshLosesNone(e: Execution, now: int)
    requires NoneLost(e) && Refresh(e, now).Ok?
    requires e.status.IsForward() || e.status.Succeeded?
    ensures NoneLost(Refresh(e, now).value)
    ensures Refresh(e, now).value.status.IsForward() || Refresh(e, now).value.status.Succeeded?
  {
    forall i | 0 <= i < |e.steps| ensures !e.steps[i].status.Failed? { assert OnCourse(e.steps[i]); }
    assert !AnyFailed(e.steps);
  }

  lemma FavourableLosesNone(s: Saga, a: Action)
    requires Inv(s) && NoneLost(s.execution) && Favourable(s.execution, a)
    requires s.execution.status.IsForward() || s.execution.status.Succeeded?
    ensures NoneLost(Apply(s, a).execution)
    ensures Apply(s, a).execution.status.IsForward() || Apply(s, a).execution.status.Succeeded?
  {
    var e := s.execution;
    match a
    case AdvanceAction(done, now) =>
      if Advances(e, now) && Advance(e, done, now).Ok? {
        var status := if e.status.Queued? then WorkflowStatus.Running else e.status;
        var promoted := e.(status := status, steps := Promoted(ResumeSteps(e.steps, done, now), now));
        forall i | 0 <= i < |e.steps| ensures OnCourse(promoted.steps[i]) { assert OnCourse(e.steps[i]); }
        RefreshLosesNone(promoted, now);
      }
    case RefreshAction(now) => if Refresh(e, now).Ok? { RefreshLosesNone(e, now); }
    case StartForwardAction(i, id, now) =>
    case SettleForwardAction(i, id, status, now) =>
      if i < |e.steps| && SettleForward(e, i, id, status, now).Ok? {
        RefreshLosesNone(e.(steps := e.steps[i := SettleForwardStep(e.steps[i], id, status, now).value]), now);
      }
    case HookAction(id, status, now) =>
      var found := StepForRequest(e.steps, id);
      if found.Some? && Hook(e, id, status, now).Ok? {
        var i := found.value;
        assert OnCourse(e.steps[i]);
        RefreshLosesNone(e.(steps := e.steps[i := HookStep(e.steps[i], id, status, now).value]), now);
      }
  }

  lemma RanksKept(a: seq<Step>, b: seq<Step>, rank: seq<nat>)
    requires SameShape(a, b) && RanksDependencies(a, rank)
    ensures RanksDependencies(b, rank)
  {
    forall i, k | 0 <= i < |b| && 0 <= k < |b[i].dependsOn|
      ensures var d := StepByKey(b, b[i].dependsOn[k]); d.Some? && rank[d.value] < rank[i]
    {
      assert a[i].dependsOn == b[i].dependsOn;
      ShapeFixesLookup(a, b, a[i].dependsOn[k]);
      var d := StepByKey(a, a[i].dependsOn[k]);
      assert d.Some? && rank[d.value] < rank[i];
    }
  }

  lemma KeepsGoingWell(s: Saga, a: Action, rank: seq<nat>)
    requires GoingWell(s, rank) && Favourable(s.execution, a)
    ensures GoingWell(Apply(s, a), rank) && Apply(s, a).execution.deadlineAt == s.execution.deadlineAt
  {
    ApplyKeepsInv(s, a);
    ApplyKeepsLinks(s, a);
    ApplyKeepsFit(s, a);
    FavourableLosesNone(s, a);
    var e, f := s.execution, Apply(s, a).execution;
    if Evolves(e, f, a.now) { EvolvedShape(e, f, a.now); }
    RanksKept(e.steps, f.steps, rank);
    DeadlineKept(s, a);
  }

  lemma DeadlineKept(s: Saga, a: Action)
    requires Favourable(s.execution, a)
    ensures Apply(s, a).execution == s.execution.(status := Apply(s, a).execution.status,
                                                  steps := Apply(s, a).execution.steps)
  {
  }

  // ----- measure -----

  /** How many transactions a step still needs at most. A ready step is first listed by an advance. */
  function ToGo(s: Saga, i: nat): (r: nat)
    requires i < |s.execution.steps|
  {
    match s.execution.steps[i].status
    case Pending => 5
    case Ready => if i in s.listed then 3 else 4
    case Running => 2
    case Waiting => 1
    case _ => 0
  }

  function Total(s: Saga, n: nat): (r: nat)
    requires n <= |s.execution.steps|
  {
    if n == 0 then 0 else Total(s, n - 1) + ToGo(s, n - 1)
  }

  function Remaining(s: Saga): (r: nat)
  {
    Total(s, |s.execution.steps|) + if s.execution.status.Queued? then 1 else 0
  }

  lemma {:induction false} TotalFalls(s: Saga, r: Saga, n: nat)
    requires n <= |s.execution.steps| == |r.execution.steps|
    requires forall i :: 0 <= i < n ==> ToGo(r, i) <= ToGo(s, i)
    ensures Total(r, n) <= Total(s, n)
    ensures (exists i :: 0 <= i < n && ToGo(r, i) < ToGo(s, i)) ==> Total(r, n) < Total(s, n)
  {
    if n > 0 {
      TotalFalls(s, r, n - 1);
      if ToGo(r, n - 1) == ToGo(s, n - 1) && exists i :: 0 <= i < n && ToGo(r, i) < ToGo(s, i) {
        var i :| 0 <= i < n && ToGo(r, i) < ToGo(s, i);
        assert i < n - 1;
      }
    }
  }

  lemma {:induction false} TotalBound(s: Saga, n: nat)
    requires n <= |s.execution.steps|
    ensures Total(s, n) <= 5 * n
  {
    if n > 0 { TotalBound(s, n - 1); }
  }

  /** The transaction changes the execution, or lists a step for dispatch. */
  predicate Effective(s: Saga, a: Action) {
    Apply(s, a).execution != s.execution || Apply(s, a).listed != s.listed
  }

  lemma ListedGrows(s: Saga, a: Action)
    ensures s.listed <= Apply(s, a).listed
    ensures Apply(s, a).listed != s.listed ==>
            a.AdvanceAction? && Apply(s, a).listed == s.listed + ReadySteps(Apply(s, a).execution)
  {
  }

  /** A step on course moves only nearer to its success. */
  lemma StepComesNearer(s: Saga, a: Action, rank: seq<nat>, i: nat)
    requires GoingWell(s, rank) && Favourable(s.execution, a) && i < |s.execution.steps|
    ensures |Apply(s, a).execution.steps| == |s.execution.steps| && ToGo(Apply(s, a), i) <= ToGo(s, i)
    ensures Apply(s, a).execution.steps[i] != s.execution.steps[i] ==> ToGo(Apply(s, a), i) < ToGo(s, i)
  {
    KeepsGoingWell(s, a, rank);
    ApplyKeepsInv(s, a);
    ListedGrows(s, a);
    var e, f := s.execution, Apply(s, a).execution;
    assert OnCourse(e.steps[i]) && OnCourse(f.steps[i]);
    if f != e {
      assert Follows(e, f, e.steps[i], f.steps[i], a.now);
    }
  }

  lemma SameStepsSameStatus(e: Execution, f: Execution)
    requires e.steps == f.steps && Fits(e) && Fits(f)
    requires e.status.IsForward() || e.status.Succeeded?
    requires f.status.IsForward() || f.status.Succeeded?
    ensures e.status == f.status
  {
  }

  lemma SucceededFits(s: Saga, rank: seq<nat>)
    requires GoingWell(s, rank) && !s.execution.status.Queued?
    ensures Fits(s.execution)
  {
    var e := s.execution;
    if e.status.Succeeded? {
      forall i | 0 <= i < |e.steps| ensures e.steps[i].status.Succeeded? {
        assert CoherentStep(e.status, e.steps[i]);
      }
    }
  }

  /** Every effective favourable transaction uses up some of what remains. */
  lemma EffectiveSpends(s: Saga, a: Action, rank: seq<nat>)
    requires GoingWell(s, rank) && Favourable(s.execution, a) && Effective(s, a)
    ensures Remaining(Apply(s, a)) < Remaining(s)
  {
    var r := Apply(s, a);
    KeepsGoingWell(s, a, rank);
    DeadlineKept(s, a);
    forall i | 0 <= i < |s.execution.steps|
      ensures |r.execution.steps| == |s.execution.steps| && ToGo(r, i) <= ToGo(s, i)
    {
      StepComesNearer(s, a, rank, i);
    }
    ApplyKeepsInv(s, a);
    TotalFalls(s, r, |s.execution.steps|);
    QueuedOnce(s, a);
    if r.execution.steps != s.execution.steps {
      var i :| 0 <= i < |s.execution.steps| && r.execution.steps[i] != s.execution.steps[i];
      StepComesNearer(s, a, rank, i);
    } else if r.execution.status == s.execution.status {
      ListingSpends(s, a);
    } else if !s.execution.status.Queued? {
      SucceededFits(s, rank);
      SucceededFits(r, rank);
      SameStepsSameStatus(s.execution, r.execution);
    }
  }

  lemma QueuedOnce(s: Saga, a: Action)
    requires Inv(s) && Favourable(s.execution, a)
    ensures Apply(s, a).execution.status.Queued? ==> s.execution.status.Queued?
  {
    var e := s.execution;
    match a
    case AdvanceAction(done, now) => if Advance(e, done, now).Ok? { AdvanceQuiet(e, done, now); }
    case RefreshAction(now) => if Refresh(e, now).Ok? { RefreshQuiet(e, now); }
    case StartForwardAction(i, id, now) =>
    case SettleForwardAction(i, id, status, now) =>
      if i < |e.steps| && SettleForward(e, i, id, status, now).Ok? { SettleForwardQuiet(e, i, id, status, now); }
    case HookAction(id, status, now) => if Hook(e, id, status, now).Ok? { HookQuiet(e, id, status, now); }
  }

  lemma ListingSpends(s: Saga, a: Action)
    requires Apply(s, a).execution == s.execution && Apply(s, a).listed != s.listed
    ensures exists i :: 0 <= i < |s.execution.steps| && ToGo(Apply(s, a), i) < ToGo(s, i)
  {
    ListedGrows(s, a);
    var r := Apply(s, a);
    var i :| i in r.listed && i !in s.listed;
    assert i in ReadySteps(s.execution);
    assert ToGo(r, i) < ToGo(s, i);
  }

  // ----- progress -----

  lemma LaunchedIsForward(s: Saga, i: nat)
    requires Inv(s) && Linked(s) && i < |s.execution.steps|
    requires s.execution.steps[i].status.Running? || s.execution.steps[i].status.Waiting?
    ensures s.execution.steps[i].requestId.Some?
    ensures ForwardRequest(i, s.execution.steps[i].requestId.value) in s.created
  {
    assert LinkedStep(s, i) && BookOk(s, i);
    var id := s.execution.steps[i].requestId.value;
    if CompensationRequest(i, id) in s.created {
      CompensationCreated(s, i, id);
      assert false;
    }
  }

  /** A call that is under way can be answered. */
  lemma AnswerIsEffective(s: Saga, i: nat, now: int, rank: seq<nat>)
    requires GoingWell(s, rank) && i < |s.execution.steps| && !IsPastDeadline(s.execution, now)
    requires s.execution.steps[i].status.Running? || s.execution.steps[i].status.Waiting?
    ensures s.execution.steps[i].requestId.Some?
    ensures var a := SettleForwardAction(i, s.execution.steps[i].requestId.value, RequestStatus.Succeeded, now);
            Favourable(s.execution, a) && Effective(s, a)
  {
    LaunchedIsForward(s, i);
    var e, id := s.execution, s.execution.steps[i].requestId.value;
    var t := SettleForwardStep(e.steps[i], id, RequestStatus.Succeeded, now).value;
    var moved := e.(steps := e.steps[i := t]);
    assert CoherentStep(e.status, e.steps[i]);
    RefreshGoesThrough(e, moved, now, rank);
    AroundRefreshed(e, i, t, now);
    assert Apply(s, SettleForwardAction(i, id, RequestStatus.Succeeded, now)).execution.steps[i] == t;
  }

  lemma RefreshGoesThrough(e: Execution, moved: Execution, now: int, rank: seq<nat>)
    requires SameShape(e.steps, moved.steps) && RanksDependencies(e.steps, rank)
    requires moved.status.Running? || moved.status.Waiting?
    ensures Refresh(moved, now).Ok?
  {
    RanksKept(e.steps, moved.steps, rank);
    PromotionGoesThrough(moved.steps, rank);
  }

  lemma PromotionGoesThrough(steps: seq<Step>, rank: seq<nat>)
    requires RanksDependencies(steps, rank)
    ensures Promotes(steps)
  {
    forall i | 0 <= i < |steps| ensures !CheckDependencies(steps, steps[i].dependsOn).UnknownKey? {
      NoUnknownKey(steps, rank, i, steps[i].dependsOn);
    }
  }

  /** With acyclic dependencies and before the deadline an advance goes through. */
  lemma AdvanceGoesThrough(s: Saga, now: int, rank: seq<nat>)
    requires GoingWell(s, rank) && s.execution.status.IsForward() && !IsPastDeadline(s.execution, now)
    ensures Advances(s.execution, now) && Advance(s.execution, {}, now).Ok?
  {
    var e := s.execution;
    var resumed := ResumeSteps(e.steps, {}, now);
    RanksKept(e.steps, resumed, rank);
    PromotionGoesThrough(resumed, rank);
    var promoted := Promoted(resumed, now);
    var status := if e.status.Queued? then WorkflowStatus.Running else e.status;
    RefreshGoesThrough(e, e.(status := status, steps := promoted), now, rank);
  }

  /** A queued execution starts to run, and a ready step that nobody has listed is listed. */
  lemma AdvanceIsEffective(s: Saga, i: nat, now: int, rank: seq<nat>)
    requires GoingWell(s, rank) && s.execution.status.IsForward() && !IsPastDeadline(s.execution, now)
    requires s.execution.status.Queued? ||
             (i < |s.execution.steps| && s.execution.steps[i].status.Ready? && i !in s.listed)
    ensures Effective(s, AdvanceAction({}, now))
  {
    AdvanceGoesThrough(s, now, rank);
    AdvanceOutcome(s.execution, {}, now);
    var f := Advance(s.execution, {}, now).value;
    if !s.execution.status.Queued? {
      assert Advanced(s.execution.steps[i], f.steps[i], f.steps, {}, now);
      assert !AllSucceeded(f.steps);
      assert !AnyFailed(f.steps) by { NoneFailed(s, f, now); }
      assert i in ReadySteps(f);
    }
  }

  lemma NoneFailed(s: Saga, f: Execution, now: int)
    requires NoneLost(s.execution) && Inv(s) && s.execution.status.IsForward()
    requires Advances(s.execution, now) && Advance(s.execution, {}, now) == Ok(f)
    ensures !AnyFailed(f.steps)
  {
    AdvanceOutcome(s.execution, {}, now);
    forall i | 0 <= i < |f.steps| ensures !f.steps[i].status.Failed? {
      assert OnCourse(s.execution.steps[i]) && Advanced(s.execution.steps[i], f.steps[i], f.steps, {}, now);
    }
  }

  lemma LaunchIsEffective(s: Saga, i: nat, now: int) returns (a: Action)
    requires i < |s.execution.steps| && s.execution.steps[i].status.Ready? && i in s.listed
    requires s.execution.status.IsForward() && !IsPastDeadline(s.execution, now)
    ensures a.now == now && Favourable(s.execution, a) && Effective(s, a)
  {
    var id := FreshIdExists(s.created, 0);
    a := StartForwardAction(i, id, now);
    assert Apply(s, a).execution.steps[i].status.Running?;
  }

  lemma AdvancePromotes(e: Execution, now: int, i: nat)
    requires Coherent(e) && Advances(e, now) && Advance(e, {}, now).Ok? && i < |e.steps| && Promotable(e.steps, i)
    ensures |Advance(e, {}, now).value.steps| == |e.steps| && Advance(e, {}, now).value.steps[i].status.Ready?
  {
    var f := Advance(e, {}, now).value;
    AdvanceOutcome(e, {}, now);
    forall j | 0 <= j < |e.steps|
      ensures SameTemplate(e.steps[j], f.steps[j]) && (e.steps[j].status.Succeeded? <==> f.steps[j].status.Succeeded?)
    {
      assert Advanced(e.steps[j], f.steps[j], f.steps, {}, now);
    }
    CheckReadsOnlySuccess(e.steps, f.steps, e.steps[i].dependsOn);
    assert Advanced(e.steps[i], f.steps[i], f.steps, {}, now);
  }

  /** With nothing ready and nothing under way, an advance promotes. */
  lemma PromotionIsEffective(s: Saga, now: int, rank: seq<nat>)
    requires GoingWell(s, rank) && s.execution.status.IsForward() && !IsPastDeadline(s.execution, now)
    requires !s.execution.status.Queued?
    requires forall i :: 0 <= i < |s.execution.steps| ==>
               s.execution.steps[i].status.Pending? || s.execution.steps[i].status.Succeeded?
    ensures Effective(s, AdvanceAction({}, now))
  {
    var e := s.execution;
    assert !AllSucceeded(e.steps);
    PromotionMakesProgress(e.steps, rank, now);
    var i :| 0 <= i < |e.steps| && e.steps[i].status.Pending? && Promoted(e.steps, now)[i].status.Ready?;
    AdvanceGoesThrough(s, now, rank);
    AdvancePromotes(e, now, i);
  }

  /** Until the execution has succeeded some favourable transaction is effective, at any time before the deadline. */
  lemma ForwardNeverStuck(s: Saga, now: int, rank: seq<nat>) returns (a: Action)
    requires GoingWell(s, rank) && s.execution.status.IsForward() && !IsPastDeadline(s.execution, now)
    ensures a.now == now && Favourable(s.execution, a) && Effective(s, a)
  {
    var e := s.execution;
    if e.status.Queued? {
      AdvanceIsEffective(s, 0, now, rank);
      a := AdvanceAction({}, now);
    } else if i :| 0 <= i < |e.steps| && (e.steps[i].status.Running? || e.steps[i].status.Waiting?) {
      AnswerIsEffective(s, i, now, rank);
      a := SettleForwardAction(i, e.steps[i].requestId.value, RequestStatus.Succeeded, now);
    } else if i :| 0 <= i < |e.steps| && e.steps[i].status.Ready? {
      if i in s.listed {
        a := LaunchIsEffective(s, i, now);
      } else {
        AdvanceIsEffective(s, i, now, rank);
        a := AdvanceAction({}, now);
      }
    } else {
      forall i | 0 <= i < |e.steps| ensures e.steps[i].status.Pending? || e.steps[i].status.Succeeded? {
        assert OnCourse(e.steps[i]);
      }
      PromotionIsEffective(s, now, rank);
      a := AdvanceAction({}, now);
    }
  }

  // ----- whole runs -----

  /** Every transaction of the run is favourable, and effective when it is its turn. */
  predicate AllEffective(s: Saga, actions: seq<Action>) {
    forall k :: 0 <= k < |actions| ==>
      Favourable(Run(s, actions[..k]).execution, actions[k]) && Effective(Run(s, actions[..k]), actions[k])
  }

  lemma {:induction false} EffectiveRun(s: Saga, actions: seq<Action>, rank: seq<nat>)
    requires GoingWell(s, rank) && AllEffective(s, actions)
    ensures GoingWell(Run(s, actions), rank) && |actions| + Remaining(Run(s, actions)) <= Remaining(s)
    ensures Run(s, actions).execution.deadlineAt == s.execution.deadlineAt
  {
    if actions != [] {
      var before, a := actions[..|actions| - 1], actions[|actions| - 1];
      forall k | 0 <= k < |before|
        ensures Favourable(Run(s, before[..k]).execution, before[k]) && Effective(Run(s, before[..k]), before[k])
      {
        assert before[..k] == actions[..k];
      }
      EffectiveRun(s, before, rank);
      KeepsGoingWell(Run(s, before), a, rank);
      EffectiveSpends(Run(s, before), a, rank);
      RunLast(s, actions);
    }
  }

  lemma StartedWell(s: Saga, rank: seq<nat>)
    requires Started(s) && RanksDependencies(s.execution.steps, rank)
    ensures GoingWell(s, rank) && Remaining(s) <= 5 * |s.execution.steps| + 1
  {
    StartedLinked(s);
    forall i | 0 <= i < |s.execution.steps| ensures OnCourse(s.execution.steps[i]) {
      assert CoherentStep(s.execution.status, s.execution.steps[i]);
    }
    TotalBound(s, |s.execution.steps|);
  }

  /** From any started saga with acyclic dependencies: a run in which every call is answered with success, at once or
      later, and in which no transaction is idle, has at most five transactions per step and one more; and when, at a
      time before the deadline, no favourable transaction is left that does anything, the execution has succeeded with
      all its steps. */
  lemma ForwardIsTotal(s: Saga, rank: seq<nat>, actions: seq<Action>, now: int)
    requires Started(s) && RanksDependencies(s.execution.steps, rank) && AllEffective(s, actions)
    requires !IsPastDeadline(s.execution, now)
    ensures |actions| <= 5 * |s.execution.steps| + 1
    ensures var r := Run(s, actions);
            || (r.execution.status.Succeeded? && AllSucceeded(r.execution.steps))
            || exists a: Action :: a.now == now && Favourable(r.execution, a) && Effective(r, a)
  {
    StartedWell(s, rank);
    EffectiveRun(s, actions, rank);
    var r := Run(s, actions);
    if r.execution.status.Succeeded? {
      SucceededFits(r, rank);
    } else {
      var a := ForwardNeverStuck(r, now, rank);
    }
  }

  // ----- exactly when success is still possible -----

  lemma LostStaysLost(s: Saga, a: Action, i: nat)
    requires Inv(s) && i < |s.execution.steps| && !OnCourse(s.execution.steps[i])
    ensures i < |Apply(s, a).execution.steps| && !OnCourse(Apply(s, a).execution.steps[i])
  {
    ApplyKeepsInv(s, a);
    var e, f := s.execution, Apply(s, a).execution;
    if f != e {
      assert Follows(e, f, e.steps[i], f.steps[i], a.now);
      assert CoherentStep(f.status, f.steps[i]);
    }
  }

  lemma {:induction false} LostForever(s: Saga, actions: seq<Action>, i: nat)
    requires Inv(s) && i < |s.execution.steps| && !OnCourse(s.execution.steps[i])
    ensures i < |Run(s, actions).execution.steps| && !OnCourse(Run(s, actions).execution.steps[i])
    ensures !Run(s, actions).execution.status.Succeeded?
  {
    RunKeepsInv(s, actions);
    if actions != [] {
      LostForever(s, actions[..|actions| - 1], i);
      RunKeepsInv(s, actions[..|actions| - 1]);
      LostStaysLost(Run(s, actions[..|actions| - 1]), actions[|actions| - 1], i);
    }
    assert CoherentStep(Run(s, actions).execution.status, Run(s, actions).execution.steps[i]);
  }

  /** Every transaction of the run happens at `now`. */
  predicate AllAt(actions: seq<Action>, now: int) {
    forall k :: 0 <= k < |actions| ==> actions[k].now == now
  }

  lemma {:induction false} SuccessCanBeReached(s: Saga, now: int, rank: seq<nat>) returns (more: seq<Action>)
    requires GoingWell(s, rank) && !IsPastDeadline(s.execution, now)
    ensures AllAt(more, now) && Run(s, more).execution.status.Succeeded?
    decreases Remaining(s)
  {
    if s.execution.status.Succeeded? {
      more := [];
    } else {
      var a := ForwardNeverStuck(s, now, rank);
      KeepsGoingWell(s, a, rank);
      EffectiveSpends(s, a, rank);
      var rest := SuccessCanBeReached(Apply(s, a), now, rank);
      more := [a] + rest;
      RunOne(s, a);
      RunsCompose(s, [a], rest);
    }
  }

  /** From any reachable forward state of a workflow with acyclic dependencies, at any time before the deadline, the
      workflow can still succeed exactly when no step has failed, been cancelled or been scheduled for a retry. Nobody
      makes that retry, and a request that is cancelled takes its step along without failing the workflow. */
  lemma CanSucceedExactlyWhen(s: Saga, history: seq<Action>, now: int, rank: seq<nat>)
    requires Started(s) && RanksDependencies(s.execution.steps, rank) && Run(s, history).execution.status.IsForward()
    requires !IsPastDeadline(Run(s, history).execution, now)
    ensures (exists more :: AllAt(more, now) && Run(Run(s, history), more).execution.status.Succeeded?) <==>
            NoneLost(Run(s, history).execution)
  {
    var r := Run(s, history);
    StartedLinked(s);
    RunKeepsLinks(s, history);
    if NoneLost(r.execution) {
      RunKeepsFit(s, history);
      RunKeepsRanks(s, history, rank);
      var more := SuccessCanBeReached(r, now, rank);
    } else {
      var i :| 0 <= i < |r.execution.steps| && !OnCourse(r.execution.steps[i]);
      forall more ensures !Run(r, more).execution.status.Succeeded? {
        LostForever(r, more, i);
      }
    }
  }

  lemma {:induction false} RunKeepsRanks(s: Saga, actions: seq<Action>, rank: seq<nat>)
    requires Inv(s) && RanksDependencies(s.execution.steps, rank)
    ensures RanksDependencies(Run(s, actions).execution.steps, rank)
  {
    if actions != [] {
      var before, a := actions[..|actions| - 1], actions[|actions| - 1];
      RunKeepsRanks(s, before, rank);
      RunKeepsInv(s, before);
      ApplyKeepsInv(Run(s, before), a);
      var e, f := Run(s, before).execution, Run(s, actions).execution;
      if Evolves(e, f, a.now) { EvolvedShape(e, f, a.now); }
      RanksKept(e.steps, f.steps, rank);
    }
  }

  // ----- runs that lose a step -----

  /** The call of a running step is answered with a scheduled retry. */
  const RETRIED: Action := SettleForwardAction(0, 10, RequestStatus.RetryScheduled, 3)

  /** The request of a running step is reported cancelled. */
  const WITHDRAWN: Action := HookAction(10, RequestStatus.Cancelled, 3)

  const RETRIED_3 := Early(WorkflowStatus.Running, StepA(StepStatus.RetryScheduled, 3), READY_B, None, {}, FORWARD_A,
                           map[], 3)
  const WITHDRAWN_3 := Early(WorkflowStatus.Running, StepA(StepStatus.Cancelled, 3).(completedAt := Some(3)), READY_B,
                             None, {}, FORWARD_A, map[], 3)

  lemma RetriedState()
    ensures Apply(EARLY_2, RETRIED) == RETRIED_3
  {
    assert ForwardRequest(0, 10) in EARLY_2.created;
    var f := RETRIED_3.execution;
    assert EARLY_2.execution.steps[0 := f.steps[0]] == f.steps;
    assert !AllSucceeded(f.steps) by { assert !f.steps[0].status.Succeeded?; }
    assert SettleForward(EARLY_2.execution, 0, 10, RequestStatus.RetryScheduled, 3) == Ok(f);
  }

  lemma WithdrawnState()
    ensures Apply(EARLY_2, WITHDRAWN) == WITHDRAWN_3
  {
    assert StepForRequest(EARLY_2.execution.steps, 10) == Some(0);
    var f := WITHDRAWN_3.execution;
    assert EARLY_2.execution.steps[0 := f.steps[0]] == f.steps;
    assert !AllSucceeded(f.steps) by { assert !f.steps[0].status.Succeeded?; }
    assert Hook(EARLY_2.execution, 10, RequestStatus.Cancelled, 3) == Ok(f);
  }

  lemma LostRun(a: Action, r: Saga)
    requires Apply(EARLY_2, a) == r
    ensures Run(EARLY_0, EARLY_REPORT[..2] + [a]) == r
  {
    var all := EARLY_REPORT[..2] + [a];
    assert all[..0] == [] && all[..3] == all && all[0] == EARLY_REPORT[0] && all[1] == EARLY_REPORT[1];
    RunStep(EARLY_0, all, 0);
    EarlyAdvance();
    RunStep(EARLY_0, all, 1);
    EarlyLaunch();
    RunStep(EARLY_0, all, 2);
  }

  lemma LostForGood(a: Action, r: Saga)
    requires Apply(EARLY_2, a) == r && |r.execution.steps| == 2 && !OnCourse(r.execution.steps[0])
    ensures forall more :: !Run(r, more).execution.status.Succeeded?
  {
    EarlyStart();
    StartedInv(EARLY_0);
    LostRun(a, r);
    RunKeepsInv(EARLY_0, EARLY_REPORT[..2] + [a]);
    forall more ensures !Run(r, more).execution.status.Succeeded? {
      LostForever(r, more, 0);
    }
  }

  /** Two runs from a started saga that leave it running, with nothing failed, and never to succeed. */
  lemma RunningNeverToSucceed()
    ensures exists s ::
      && Started(s)
      && (var r := Run(s, EARLY_REPORT[..2] + [RETRIED]);
          r.execution.status.Running? && forall more :: !Run(r, more).execution.status.Succeeded?)
      && (var r := Run(s, EARLY_REPORT[..2] + [WITHDRAWN]);
          r.execution.status.Running? && forall more :: !Run(r, more).execution.status.Succeeded?)
  {
    EarlyStart();
    RetriedState();
    LostRun(RETRIED, RETRIED_3);
    LostForGood(RETRIED, RETRIED_3);
    WithdrawnState();
    LostRun(WITHDRAWN, WITHDRAWN_3);
    LostForGood(WITHDRAWN, WITHDRAWN_3);
    assert Started(EARLY_0);
  }
}
