/** Workflow aggregates as values: steps, executions, dependency lookup, promotion
    and the reverse completion order that a saga unwind follows. */
module Workflow {
  import opened Common
  import opened WorkflowStates

  type RequestId = nat

  datatype Step = Step(
    key: string,
    dependsOn: seq<string>,
    compensateOperation: Option<string>,
    status: StepStatus,
    attemptCount: nat,
    requestId: Option<RequestId>,
    compensationId: Option<RequestId>,
    updatedAt: int,
    completedAt: Option<int>)

  /** Why an execution was cancelled: what the caller said, or one of the two reasons the code supplies itself. */
  datatype Reason = Words(text: string) | ClientCancelled | DeadlineExceeded

  datatype Execution = Execution(
    status: WorkflowStatus,
    steps: seq<Step>,
    deadlineAt: Option<int>,
    deadlineProcessedAt: Option<int>,
    cancelReason: Option<Reason>)

  /** `transition_to` of a step: consult the table, then stamp the times. */
  function MoveStep(s: Step, next: StepStatus, now: int): (r: Outcome<Step>)
  {
    if StepAllowed(s.status, next) then
      Ok(s.(status := next, updatedAt := now,
            completedAt := if next.IsTerminal() then Some(now) else s.completedAt))
    else Raised
  }

  function MoveExecution(e: Execution, next: WorkflowStatus): (r: Outcome<Execution>)
  {
    if WorkflowAllowed(e.status, next) then Ok(e.(status := next)) else Raised
  }

  predicate IsPastDeadline(e: Execution, now: int) {
    e.deadlineAt.Some? && now >= e.deadlineAt.value
  }

  predicate AllSucceeded(steps: seq<Step>) {
    forall i :: 0 <= i < |steps| ==> steps[i].status.Succeeded?
  }

  predicate AnySucceeded(steps: seq<Step>) {
    exists i :: 0 <= i < |steps| && steps[i].status.Succeeded?
  }

  predicate AnyWaiting(steps: seq<Step>) {
    exists i :: 0 <= i < |steps| && steps[i].status.Waiting?
  }

  predicate AnyFailed(steps: seq<Step>) {
    exists i :: 0 <= i < |steps| && steps[i].status.Failed?
  }

  // ----- dependencies -----

  /** `step_by_key`: the first step carrying the key. */
  function StepByKey(steps: seq<Step>, key: string): (r: Option<nat>)
    ensures r.Some? ==> r.value < |steps| && steps[r.value].key == key
                        && forall k :: 0 <= k < r.value ==> steps[k].key != key
    ensures r.None? ==> forall k :: 0 <= k < |steps| ==> steps[k].key != key
  {
    if |steps| == 0 then None
    else
      var earlier := StepByKey(steps[..|steps| - 1], key);
      if earlier.Some? then earlier
      else if steps[|steps| - 1].key == key then Some(|steps| - 1)
      else None
  }

  datatype DependencyCheck = Satisfied | Unsatisfied | UnknownKey

  /** `dependencies_satisfied`, in list order: the first unfinished dependency answers
      False, an unknown key reached before that raises. */
  function CheckDependencies(steps: seq<Step>, keys: seq<string>): (r: DependencyCheck)
  {
    if keys == [] then Satisfied
    else
      match StepByKey(steps, keys[0])
      case None => UnknownKey
      case Some(j) =>
        if steps[j].status.Succeeded? then CheckDependencies(steps, keys[1..]) else Unsatisfied
  }

  /** Step `i` names step `j` among its dependencies. */
  ghost predicate DependsOn(steps: seq<Step>, i: nat, j: nat)
    requires i < |steps|
  {
    exists k :: 0 <= k < |steps[i].dependsOn| && StepByKey(steps, steps[i].dependsOn[k]) == Some(j)
  }

  /** The parts of a step that no transaction ever changes. */
  predicate SameTemplate(a: Step, b: Step) {
    a.key == b.key && a.dependsOn == b.dependsOn && a.compensateOperation == b.compensateOperation
  }

  predicate SameShape(a: seq<Step>, b: seq<Step>) {
    |a| == |b| && forall i :: 0 <= i < |a| ==> SameTemplate(a[i], b[i])
  }

  lemma ShapeFixesLookup(a: seq<Step>, b: seq<Step>, key: string)
    requires SameShape(a, b)
    ensures StepByKey(a, key) == StepByKey(b, key)
  {
    var x, y := StepByKey(a, key), StepByKey(b, key);
    if x.Some? {
      assert b[x.value].key == key;
    }
    if y.Some? {
      assert a[y.value].key == key;
    }
  }

  lemma ShapeFixesDependencies(a: seq<Step>, b: seq<Step>, i: nat, j: nat)
    requires SameShape(a, b) && i < |a|
    ensures DependsOn(a, i, j) <==> DependsOn(b, i, j)
  {
    if DependsOn(a, i, j) {
      var k :| 0 <= k < |a[i].dependsOn| && StepByKey(a, a[i].dependsOn[k]) == Some(j);
      ShapeFixesLookup(a, b, a[i].dependsOn[k]);
      assert StepByKey(b, b[i].dependsOn[k]) == Some(j);
    }
    if DependsOn(b, i, j) {
      var k :| 0 <= k < |b[i].dependsOn| && StepByKey(b, b[i].dependsOn[k]) == Some(j);
      ShapeFixesLookup(a, b, b[i].dependsOn[k]);
      assert StepByKey(a, a[i].dependsOn[k]) == Some(j);
    }
  }

  /** The in-order, short-circuiting check answers Satisfied exactly when every named
      key resolves to a step that has succeeded. */
  lemma {:induction false} SatisfiedMeansAllSucceeded(steps: seq<Step>, keys: seq<string>)
    ensures CheckDependencies(steps, keys).Satisfied? <==>
            forall k :: 0 <= k < |keys| ==>
              StepByKey(steps, keys[k]).Some? && steps[StepByKey(steps, keys[k]).value].status.Succeeded?
  {
    if keys != [] {
      SatisfiedMeansAllSucceeded(steps, keys[1..]);
      assert forall k :: 1 <= k < |keys| ==> keys[k] == keys[1..][k - 1];
      if CheckDependencies(steps, keys[1..]).Satisfied? && StepByKey(steps, keys[0]).Some? {
        forall k | 0 <= k < |keys| && steps[StepByKey(steps, keys[0]).value].status.Succeeded?
          ensures StepByKey(steps, keys[k]).Some? && steps[StepByKey(steps, keys[k]).value].status.Succeeded?
        {
          if k > 0 { assert keys[k] == keys[1..][k - 1]; }
        }
      }
    }
  }

  lemma SatisfiedStepDependencies(steps: seq<Step>, i: nat, j: nat)
    requires i < |steps| && CheckDependencies(steps, steps[i].dependsOn).Satisfied? && DependsOn(steps, i, j)
    ensures j < |steps| && steps[j].status.Succeeded?
  {
    SatisfiedMeansAllSucceeded(steps, steps[i].dependsOn);
  }

  /** Only the set of succeeded steps matters to a dependency check. */
  lemma {:induction false} CheckReadsOnlySuccess(a: seq<Step>, b: seq<Step>, keys: seq<string>)
    requires SameShape(a, b)
    requires forall i :: 0 <= i < |a| ==> (a[i].status.Succeeded? <==> b[i].status.Succeeded?)
    ensures CheckDependencies(a, keys) == CheckDependencies(b, keys)
  {
    if keys != [] {
      ShapeFixesLookup(a, b, keys[0]);
      CheckReadsOnlySuccess(a, b, keys[1..]);
    }
  }

  // ----- promotion -----

  predicate Promotable(steps: seq<Step>, i: nat)
    requires i < |steps|
  {
    steps[i].status.Pending? && CheckDependencies(steps, steps[i].dependsOn).Satisfied?
  }

  predicate Promotes(steps: seq<Step>) {
    forall i :: 0 <= i < |steps| ==>
      !(steps[i].status.Pending? && CheckDependencies(steps, steps[i].dependsOn).UnknownKey?)
  }

  function PromotedStep(steps: seq<Step>, i: nat, now: int): (r: Step)
    requires i < |steps|
  {
    if Promotable(steps, i) then steps[i].(status := StepStatus.Ready, updatedAt := now) else steps[i]
  }

  /** Promotion decided for all steps at once against the state before it. */
  function Promoted(steps: seq<Step>, now: int): (r: seq<Step>)
    ensures |r| == |steps|
    ensures forall i :: 0 <= i < |steps| ==> r[i] == PromotedStep(steps, i, now)
  {
    seq(|steps|, i requires 0 <= i < |steps| => PromotedStep(steps, i, now))
  }

  function Promote(e: Execution, now: int): (r: Outcome<Execution>)
  {
    if Promotes(e.steps) then Ok(e.(steps := Promoted(e.steps, now))) else Raised
  }

  /** A ranking that falls along every dependency: the definition has no cycle, and
      names no unknown key. */
  ghost predicate RanksDependencies(steps: seq<Step>, rank: seq<nat>) {
    && |rank| == |steps|
    && (forall i, k :: 0 <= i < |steps| && 0 <= k < |steps[i].dependsOn| ==>
          var d := StepByKey(steps, steps[i].dependsOn[k]);
          d.Some? && rank[d.value] < rank[i])
  }

  /** In an acyclic definition promotion never stalls: while every step is pending or
      succeeded and some step is pending, at least one step becomes ready. */
  lemma PromotionMakesProgress(steps: seq<Step>, rank: seq<nat>, now: int)
    requires RanksDependencies(steps, rank)
    requires forall i :: 0 <= i < |steps| ==> steps[i].status.Pending? || steps[i].status.Succeeded?
    requires !AllSucceeded(steps)
    ensures Promotes(steps)
    ensures exists i :: 0 <= i < |steps| && steps[i].status.Pending? && Promoted(steps, now)[i].status.Ready?
  {
    forall i | 0 <= i < |steps| ensures !CheckDependencies(steps, steps[i].dependsOn).UnknownKey? {
      NoUnknownKey(steps, rank, i, steps[i].dependsOn);
    }
    var start :| 0 <= start < |steps| && !steps[start].status.Succeeded?;
    var i := LowestPending(steps, rank, start);
    forall k | 0 <= k < |steps[i].dependsOn|
      ensures StepByKey(steps, steps[i].dependsOn[k]).Some?
              && steps[StepByKey(steps, steps[i].dependsOn[k]).value].status.Succeeded?
    {
      var d := StepByKey(steps, steps[i].dependsOn[k]);
      assert d.Some? && rank[d.value] < rank[i];
    }
    SatisfiedMeansAllSucceeded(steps, steps[i].dependsOn);
    assert Promoted(steps, now)[i].status.Ready?;
  }

  lemma {:induction false} NoUnknownKey(steps: seq<Step>, rank: seq<nat>, i: nat, keys: seq<string>)
    requires RanksDependencies(steps, rank) && i < |steps|
    requires forall k :: 0 <= k < |keys| ==> keys[k] in steps[i].dependsOn
    ensures !CheckDependencies(steps, keys).UnknownKey?
  {
    if keys != [] {
      var k :| 0 <= k < |steps[i].dependsOn| && steps[i].dependsOn[k] == keys[0];
      assert StepByKey(steps, steps[i].dependsOn[k]).Some?;
      NoUnknownKey(steps, rank, i, keys[1..]);
    }
  }

  /** A pending step with no pending step ranked below it. */
  lemma LowestPending(steps: seq<Step>, rank: seq<nat>, start: nat) returns (i: nat)
    requires |rank| == |steps| && start < |steps| && steps[start].status.Pending?
    ensures i < |steps| && steps[i].status.Pending?
    ensures forall j :: 0 <= j < |steps| && steps[j].status.Pending? ==> rank[i] <= rank[j]
    decreases rank[start]
  {
    if j :| 0 <= j < |steps| && steps[j].status.Pending? && rank[j] < rank[start] {
      i := LowestPending(steps, rank, j);
    } else {
      i := start;
    }
  }

  // ----- reverse completion order -----

  /** The sort key: `completed_at or updated_at`. */
  function CompletionKey(s: Step): (r: int)
  {
    if s.completedAt.Some? then s.completedAt.value else s.updatedAt
  }

  /** `a` comes before `b` in the unwind: later completion first, list order on ties. */
  predicate UnwindsBefore(steps: seq<Step>, a: nat, b: nat)
    requires a < |steps| && b < |steps|
  {
    CompletionKey(steps[a]) > CompletionKey(steps[b]) ||
    (CompletionKey(steps[a]) == CompletionKey(steps[b]) && a < b)
  }

  /** Insertion that keeps equal keys in arrival order, as a stable descending sort does. */
  function InsertByCompletion(steps: seq<Step>, order: seq<nat>, x: nat): (r: seq<nat>)
    requires x < |steps| && forall y :: y in order ==> y < |steps|
    ensures forall y :: y in r <==> y == x || y in order
  {
    assert order != [] ==> order[0] in order && forall y :: y in order <==> y == order[0] || y in order[1..];
    if order == [] || CompletionKey(steps[order[0]]) < CompletionKey(steps[x]) then [x] + order
    else [order[0]] + InsertByCompletion(steps, order[1..], x)
  }

  /** `succeeded_in_reverse`, as positions in the step list. */
  function SucceededInReverse(steps: seq<Step>, n: nat): (r: seq<nat>)
    requires n <= |steps|
    ensures forall y :: y in r <==> 0 <= y < n && steps[y].status.Succeeded?
  {
    if n == 0 then []
    else
      var rest := SucceededInReverse(steps, n - 1);
      if steps[n - 1].status.Succeeded? then InsertByCompletion(steps, rest, n - 1) else rest
  }

  /** `x` unwinds before every step listed. */
  predicate UnwindsFirst(steps: seq<Step>, x: nat, order: seq<nat>)
    requires x < |steps|
  {
    forall y :: y in order ==> y < |steps| && UnwindsBefore(steps, x, y)
  }

  predicate InUnwindOrder(steps: seq<Step>, order: seq<nat>) {
    order == [] ||
    (order[0] < |steps| && UnwindsFirst(steps, order[0], order[1..]) && InUnwindOrder(steps, order[1..]))
  }

  lemma {:induction false} InsertKeepsOrder(steps: seq<Step>, order: seq<nat>, x: nat)
    requires x < |steps| && InUnwindOrder(steps, order)
    requires forall y :: y in order ==> y < x
    ensures forall y :: y in order ==> y < |steps|
    ensures InUnwindOrder(steps, InsertByCompletion(steps, order, x))
  {
    assert order != [] ==> forall y :: y in order <==> y == order[0] || y in order[1..];
    if order == [] {
    } else if CompletionKey(steps[order[0]]) < CompletionKey(steps[x]) {
      forall y | y in order ensures UnwindsBefore(steps, x, y) {
        assert y == order[0] || UnwindsBefore(steps, order[0], y);
      }
      assert ([x] + order)[1..] == order;
    } else {
      var rest := InsertByCompletion(steps, order[1..], x);
      InsertKeepsOrder(steps, order[1..], x);
      assert order[0] in order && UnwindsBefore(steps, order[0], x);
      assert UnwindsFirst(steps, order[0], rest);
      assert ([order[0]] + rest)[1..] == rest;
    }
  }

  /** The unwind list holds exactly the succeeded steps, latest completion first. */
  lemma {:induction false} ReverseCompletionOrder(steps: seq<Step>, n: nat)
    requires n <= |steps|
    ensures InUnwindOrder(steps, SucceededInReverse(steps, n))
  {
    if n > 0 {
      ReverseCompletionOrder(steps, n - 1);
      if steps[n - 1].status.Succeeded? {
        InsertKeepsOrder(steps, SucceededInReverse(steps, n - 1), n - 1);
      }
    }
  }

  /** The step an unwind compensates next: the head of the reverse completion order. */
  function NextToCompensate(steps: seq<Step>): (r: Option<nat>)
    ensures r.Some? ==> r.value < |steps| && steps[r.value].status.Succeeded?
    ensures r.None? <==> !AnySucceeded(steps)
  {
    var order := SucceededInReverse(steps, |steps|);
    if order == [] then None else assert order[0] in order; Some(order[0])
  }

  /** That step completed last among the succeeded steps. */
  lemma NextCompletedLast(steps: seq<Step>, j: nat)
    requires j < |steps| && steps[j].status.Succeeded?
    ensures NextToCompensate(steps).Some?
    ensures CompletionKey(steps[j]) <= CompletionKey(steps[NextToCompensate(steps).value])
  {
    var order := SucceededInReverse(steps, |steps|);
    ReverseCompletionOrder(steps, |steps|);
    assert j in order;
    assert j == order[0] || j in order[1..];
  }

  function Without(order: seq<nat>, x: nat): (r: seq<nat>)
    ensures forall y :: y in r <==> y in order && y != x
  {
    if order == [] then []
    else
      assert forall y :: y in order <==> y == order[0] || y in order[1..];
      if order[0] == x then Without(order[1..], x) else [order[0]] + Without(order[1..], x)
  }

  lemma {:induction false} InsertWithout(a: seq<Step>, b: seq<Step>, order: seq<nat>, x: nat, h: nat)
    requires |a| == |b| && x < |a| && x != h && InUnwindOrder(a, order)
    requires forall y :: y in order ==> y < |a|
    requires forall y :: 0 <= y < |a| && y != h ==> CompletionKey(a[y]) == CompletionKey(b[y])
    ensures InsertByCompletion(b, Without(order, h), x) == Without(InsertByCompletion(a, order, x), h)
  {
    if order != [] {
      assert order[0] in order && forall y :: y in order <==> y == order[0] || y in order[1..];
      if CompletionKey(a[order[0]]) < CompletionKey(a[x]) {
        assert ([x] + order)[1..] == order;
        var rest := Without(order, h);
        if rest != [] {
          assert rest[0] in rest;
          assert rest[0] == order[0] || UnwindsBefore(a, order[0], rest[0]);
        }
      } else {
        InsertWithout(a, b, order[1..], x, h);
        var tail := InsertByCompletion(a, order[1..], x);
        assert ([order[0]] + tail)[1..] == tail;
        if order[0] != h {
          assert ([order[0]] + Without(order[1..], h))[1..] == Without(order[1..], h);
        }
      }
    }
  }

  /** Taking one step out of the succeeded ones takes it out of the unwind list. */
  lemma {:induction false} OrderWithout(a: seq<Step>, h: nat, s: Step, n: nat)
    requires h < |a| && n <= |a| && !s.status.Succeeded?
    ensures SucceededInReverse(a[h := s], n) == Without(SucceededInReverse(a, n), h)
  {
    if n > 0 {
      OrderWithout(a, h, s, n - 1);
      var rest := SucceededInReverse(a, n - 1);
      ReverseCompletionOrder(a, n - 1);
      if n - 1 == h {
        WithoutAbsent(rest, h);
        if a[h].status.Succeeded? { InsertedRemoved(a, rest, h); }
      } else if a[n - 1].status.Succeeded? {
        InsertWithout(a, a[h := s], rest, n - 1, h);
      }
    }
  }

  lemma {:induction false} WithoutAbsent(order: seq<nat>, x: nat)
    requires x !in order
    ensures Without(order, x) == order
  {
    if order != [] {
      assert order[0] in order && forall y :: y in order[1..] ==> y in order;
      WithoutAbsent(order[1..], x);
    }
  }

  lemma {:induction false} InsertedRemoved(steps: seq<Step>, order: seq<nat>, x: nat)
    requires x < |steps| && x !in order && forall y :: y in order ==> y < |steps|
    ensures Without(InsertByCompletion(steps, order, x), x) == order
  {
    if order == [] {
    } else {
      assert order[0] in order && forall y :: y in order[1..] ==> y in order;
      if CompletionKey(steps[order[0]]) < CompletionKey(steps[x]) {
        assert ([x] + order)[1..] == order;
        WithoutAbsent(order, x);
      } else {
        InsertedRemoved(steps, order[1..], x);
        var tail := InsertByCompletion(steps, order[1..], x);
        assert ([order[0]] + tail)[1..] == tail;
      }
    }
  }

  lemma HeadIsSingle(steps: seq<Step>, order: seq<nat>)
    requires order != [] && InUnwindOrder(steps, order)
    ensures order[0] !in order[1..]
  {
    assert UnwindsFirst(steps, order[0], order[1..]);
  }

  lemma WithoutHead(steps: seq<Step>, order: seq<nat>)
    requires order != [] && InUnwindOrder(steps, order)
    ensures Without(order, order[0]) == order[1..]
  {
    HeadIsSingle(steps, order);
    WithoutAbsent(order[1..], order[0]);
  }

  lemma NextIsHead(steps: seq<Step>)
    requires NextToCompensate(steps).Some?
    ensures SucceededInReverse(steps, |steps|) != []
    ensures NextToCompensate(steps).value == SucceededInReverse(steps, |steps|)[0]
  {
  }

  lemma HeadAndRest(order: seq<nat>, h: nat, rest: seq<nat>)
    requires order != [] && order[0] == h && order[1..] == rest
    ensures order == [h] + rest
  {
  }

  lemma RestAfterHead(steps: seq<Step>, order: seq<nat>, h: nat, s: Step)
    requires order == SucceededInReverse(steps, |steps|) && order != [] && h == order[0] < |steps|
    requires !s.status.Succeeded?
    ensures order[1..] == SucceededInReverse(steps[h := s], |steps|)
  {
    ReverseCompletionOrder(steps, |steps|);
    WithoutHead(steps, order);
    OrderWithout(steps, h, s, |steps|);
  }

  /** When the next step begins, the rest of the list stays as it was. */
  lemma NextTaken(steps: seq<Step>, s: Step)
    requires NextToCompensate(steps).Some? && !s.status.Succeeded?
    ensures var h := NextToCompensate(steps).value;
            SucceededInReverse(steps, |steps|) == [h] + SucceededInReverse(steps[h := s], |steps|)
  {
    var h := NextToCompensate(steps).value;
    var order := SucceededInReverse(steps, |steps|);
    NextIsHead(steps);
    RestAfterHead(steps, order, h, s);
    HeadAndRest(order, h, SucceededInReverse(steps[h := s], |steps|));
  }

  /** A step that was not succeeded and is not succeeded does not matter to the list. */
  lemma OthersIgnored(steps: seq<Step>, i: nat, s: Step)
    requires i < |steps| && !steps[i].status.Succeeded? && !s.status.Succeeded?
    ensures SucceededInReverse(steps[i := s], |steps|) == SucceededInReverse(steps, |steps|)
  {
    OrderWithout(steps, i, s, |steps|);
    WithoutAbsent(SucceededInReverse(steps, |steps|), i);
  }
}
