/** What holds of one integration request in every run. */
module RequestTheorems {
  import opened Common
  import opened RequestStates
  import opened RetryPolicies
  import opened Requests
  import opened RequestTransactions
  import opened RequestMachine

  // ---- audit trail ----

  /** A row either notes an action that changed no status, or follows the transition table. */
  predicate RowLegal(row: AuditRow) {
    row.previous.Some? && (row.previous.value == row.next || CanTransition(row.previous.value, row.next))
  }

  predicate Chains(audit: seq<AuditRow>) {
    && |audit| > 0
    && audit[0].previous.None? && audit[0].next.Received?
    && forall i {:trigger audit[i]} :: 0 < i < |audit| ==>
        RowLegal(audit[i]) && audit[i].previous == Some(audit[i - 1].next)
  }

  /** Replaying the audit rows from the first one: the status they lead to. */
  function Replayed(audit: seq<AuditRow>): (r: RequestStatus)
    requires |audit| > 0
  {
    audit[|audit| - 1].next
  }

  predicate Publishes(row: AuditRow) {
    row.previous.None? || (row.previous.value != row.next && !row.next.Validating?)
  }

  /** The events an audit trail calls for: one for the creation and one per transition but the move to validating. */
  function EventsOf(audit: seq<AuditRow>): (r: seq<Event>) {
    if audit == [] then [] else
      var row := audit[|audit| - 1];
      EventsOf(audit[..|audit| - 1]) + (if Publishes(row) then [Event(row.previous, row.next, row.at)] else [])
  }

  predicate Journalled(s: Stored) {
    && Chains(s.audit)
    && Replayed(s.audit) == s.request.status
    && s.outbox == EventsOf(s.audit)
  }

  lemma EventsAppend(audit: seq<AuditRow>, row: AuditRow)
    ensures EventsOf(audit + [row]) == EventsOf(audit) + 
            (if Publishes(row) then [Event(row.previous, row.next, row.at)] else [])
  {
    assert (audit + [row])[..|audit|] == audit;
  }

  lemma ChainsAppend(audit: seq<AuditRow>, row: AuditRow)
    requires Chains(audit) && RowLegal(row) && row.previous == Some(Replayed(audit))
    ensures Chains(audit + [row]) && Replayed(audit + [row]) == row.next
  {
  }

  lemma ActionJournalled(s: Stored, now: real)
    requires Journalled(s)
    ensures Journalled(RecordAction(s, now))
  {
    EventsAppend(s.audit, AuditRow(Some(s.request.status), s.request.status, now));
    ChainsAppend(s.audit, AuditRow(Some(s.request.status), s.request.status, now));
  }

  lemma TransitionJournalled(s: Stored, r: Request, now: real, publish: bool)
    requires Journalled(s) && CanTransition(s.request.status, r.status) && (publish <==> !r.status.Validating?)
    ensures Journalled(RecordTransition(s, s.request.status, r, now, publish))
  {
    EventsAppend(s.audit, AuditRow(Some(s.request.status), r.status, now));
    ChainsAppend(s.audit, AuditRow(Some(s.request.status), r.status, now));
  }

  lemma CommitJournalled(s: Stored, after: Outcome<Request>, now: real)
    requires Journalled(s)
    requires after.Ok? ==> CanTransition(s.request.status, after.value.status) && !after.value.status.Validating?
    ensures Commit(s, after, now).Ok? ==> Journalled(Commit(s, after, now).value)
  {
    if after.Ok? {
      TransitionJournalled(s, after.value, now, true);
    }
  }

  lemma CreateJournalled(now: real)
    ensures Journalled(Create(now))
  {
    var s := RecordCreation(Created(now));
    EventsAppend([], s.audit[0]);
    ActionJournalled(s, now);
  }

  lemma DispatchJournalled(s: Stored, now: real)
    requires Journalled(s)
    ensures Dispatch(s, now).Ok? ==> Journalled(Dispatch(s, now).value)
  {
    if s.request.status.Received? {
      var validating := BeginValidation(s.request, now).value;
      TransitionJournalled(s, validating, now, false);
      var t := RecordTransition(s, s.request.status, validating, now, false);
      CommitJournalled(t, BeginDispatch(t.request, now), now);
    } else {
      CommitJournalled(s, BeginDispatch(s.request, now), now);
    }
  }

  lemma SettleJournalled(s: Stored, result: ProviderResult, policy: RetryPolicy, jitter: real, now: real)
    requires Journalled(s)
    ensures Settle(s, result, policy, jitter, now).Ok? ==> Journalled(Settle(s, result, policy, jitter, now).value)
  {
    if !s.request.status.Dispatching? {
      ActionJournalled(s, now);
      if Given(result.reference) && !Given(s.request.providerReference) {
        ActionJournalled(s.(request := AttachReference(s.request, result.reference.value, now).value), now);
      }
    } else if result.accepted {
      CommitJournalled(s, Acceptance(s.request, result, now), now);
    } else {
      CommitJournalled(s, Rejection(s.request, result, policy, jitter, now), now);
    }
  }

  lemma ReportJournalled(s: Stored, report: Report, now: real)
    requires Journalled(s)
    ensures ApplyReported(s, report, now).Ok? ==> Journalled(ApplyReported(s, report, now).value)
  {
    ReportsNeverRaise(s.request, report, now);
    var after := ApplyReport(s.request, report, now).value;
    if after.Some? {
      CommitJournalled(s, Ok(after.value), now);
    } else {
      ActionJournalled(s, now);
    }
  }

  lemma ReconcileJournalled(s: Stored, seen: Request, supportsLookup: bool, lookup: Lookup, reviewAfter: real,
                            now: real)
    requires Journalled(s)
    ensures var after := Reconcile(s, seen, supportsLookup, lookup, reviewAfter, now);
            after.Ok? ==> Journalled(after.value)
  {
    var after := Reconcile(s, seen, supportsLookup, lookup, reviewAfter, now);
    if seen.providerReference.Some? && supportsLookup && lookup.Answer? && !lookup.result.status.Unknown? {
      ReportJournalled(s, ResultReport(lookup.result), now);
    } else if after != Ok(s) {
      var reason :| after == Escalate(s, reason, now);
      CommitJournalled(s, MarkManualReview(s.request, reason, now), now);
    }
  }

  lemma CancelFirstJournalled(s: Stored, supportsCancellation: bool, reason: Option<string>, now: real)
    requires Journalled(s)
    ensures var t := CancelFirst(s, supportsCancellation, reason, now); t.Ok? ==> Journalled(t.value)
  {
    CommitJournalled(s, MarkCancelled(s.request, Some(CancelReason(reason, CancelledBeforeDispatch)), now), now);
  }

  lemma CancelCommitJournalled(s: Stored, result: ProviderResult, reason: Option<string>, now: real)
    requires Journalled(s)
    ensures var t := CancelCommit(s, result, reason, now); t.Ok? ==> Journalled(t.value)
  {
    ActionJournalled(s, now);
    CommitJournalled(s, MarkCancelled(s.request, Some(CancelReason(reason, CancelledAtProvider)), now), now);
  }

  lemma RetryJournalled(s: Stored, now: real)
    requires Journalled(s)
    ensures var t := OperatorRetry(s, now); t.Ok? ==> Journalled(t.value)
    ensures var t := RetryClaim(s, now); t.Ok? ==> Journalled(t.value)
  {
    CommitJournalled(s, RestoreForRetry(s.request, now, now), now);
    CommitJournalled(s, BeginDispatch(s.request, now), now);
  }

  lemma TransactJournalled(c: Config, s: System, a: Action)
    requires Enabled(c, s, a) && Journalled(s.stored)
    ensures Transact(c, s, a).Ok? ==> Journalled(Transact(c, s, a).value)
  {
    match a
    case InitialDispatch(now) => DispatchJournalled(s.stored, now);
    case SettleAnswer(i, jitter, now) => SettleJournalled(s.stored, s.answers[i].result, c.policy, jitter, now);
    case Webhook(report, now) => ReportJournalled(s.stored, report, now);
    case ReconcileSnapshot(k, lookup, now) =>
      ReconcileJournalled(s.stored, s.past[k], c.supportsLookup, lookup, c.reviewAfter, now);
    case WorkerClaim(now) => RetryJournalled(s.stored, now);
    case AskCancel(reason, now) => CancelFirstJournalled(s.stored, c.supportsCancellation, reason, now);
    case CommitCancel(_, result, reason, now) => CancelCommitJournalled(s.stored, result, reason, now);
    case RequestRetry(now) => RetryJournalled(s.stored, now);
    case CallProvider(_, _, _) =>
    case LoseClaim(_) =>
    case LoseAnswer(_) =>
  }

  lemma {:induction false} RunJournalled(c: Config, s: System, actions: seq<Action>)
    requires Journalled(s.stored)
    ensures Journalled(Run(c, s, actions).stored)
    decreases |actions|
  {
    if actions != [] {
      if Enabled(c, s, actions[0]) {
        TransactJournalled(c, s, actions[0]);
      }
      RunJournalled(c, Apply(c, s, actions[0]), actions[1..]);
    }
  }

  /** In every run the audit rows start at received, chain, follow the transition table and lead to the current
      status, and the outbox holds exactly the events they call for, in order. */
  lemma AuditReplays(c: Config, born: real, actions: seq<Action>)
    ensures Journalled(Run(c, Start(born), actions).stored)
  {
    CreateJournalled(born);
    RunJournalled(c, Start(born), actions);
  }

  // ---- the invariant ----

  /** Attempts left over by the policy and the operators: a scheduled retry has its attempt still to come. */
  predicate WithinBudget(c: Config, s: System) {
    var r := s.stored.request;
    r.attemptCount + (if r.status.RetryScheduled? then 1 else 0) <= c.policy.maxAttempts + s.operatorRetries
  }

  /** Every claimed attempt is waiting for its call, or has spent at most the calls one attempt may make. */
  predicate CallsCounted(c: Config, s: System) {
    && |s.claims| + |s.answers| <= s.stored.request.attemptCount
    && s.creates <= (s.stored.request.attemptCount - |s.claims|) * InProcessAttempts(c.idempotent)
  }

  /** An older version of the row: it left `received` no earlier than the row did, and its version tells it apart. */
  predicate Preceded(earlier: Request, r: Request) {
    && (r.status.Received? ==> earlier.status.Received?)
    && (earlier.attemptCount > 0 ==> r.attemptCount > 0)
    && earlier.version <= r.version
    && (earlier.version == r.version ==> earlier == r)
    && FieldsAgree(earlier)
  }

  ghost predicate Inv(c: Config, s: System) {
    && FieldsAgree(s.stored.request)
    && (forall k {:trigger s.past[k]} :: 0 <= k < |s.past| ==> Preceded(s.past[k], s.stored.request))
    && WithinBudget(c, s)
    && CallsCounted(c, s)
    && (!s.dispatched ==> s.stored.request.status.Received? || s.stored.request.status.Cancelled?)
    && (!s.dispatched ==> s.stored.request.attemptCount == 0)
    && (s.stored.request.attemptCount > 0 ==> !s.stored.request.status.Received?)
  }

  /** However old the snapshot that triggers it, no transaction attempts an illegal transition, except an initial
      dispatch of a request that was cancelled first. */
  lemma TransactSound(c: Config, s: System, a: Action)
    requires Inv(c, s) && Enabled(c, s, a)
    ensures Transact(c, s, a).Raised? <==> a.InitialDispatch? && s.stored.request.status.Cancelled?
    ensures Transact(c, s, a).Ok? ==> Sound(s.stored, Transact(c, s, a))
  {
    match a
    case InitialDispatch(now) => DispatchSound(s.stored, now);
    case SettleAnswer(i, jitter, now) => SettleSound(s.stored, s.answers[i].result, c.policy, jitter, now);
    case Webhook(report, now) => ReportSound(s.stored, report, now);
    case ReconcileSnapshot(k, lookup, now) =>
      assert Preceded(s.past[k], s.stored.request);
      ReconcileSound(s.stored, s.past[k], c.supportsLookup, lookup, c.reviewAfter, now);
    case WorkerClaim(now) => RetrySound(s.stored, now);
    case AskCancel(reason, now) =>
      CancelSound(s.stored, c.supportsCancellation, AsResult(Threw(MISSING_FAULT)), reason, now);
    case CommitCancel(_, result, reason, now) => CancelSound(s.stored, c.supportsCancellation, result, reason, now);
    case RequestRetry(now) => RetrySound(s.stored, now);
    case CallProvider(_, _, _) =>
    case LoseClaim(_) =>
    case LoseAnswer(_) =>
  }

  // ---- attempts ----

  /** How one transaction spends attempts: only a claim counts one, and only the policy, while attempts remain, or
      an operator schedules another. */
  predicate Spends(c: Config, before: Request, after: Request, claims: bool, granted: bool) {
    && after.attemptCount == before.attemptCount + (if claims then 1 else 0)
    && (claims ==> after.status.Dispatching? && (before.status.RetryScheduled? || before.status.Received?))
    && (after.status.RetryScheduled? && !before.status.RetryScheduled? ==>
        granted || after.attemptCount < c.policy.maxAttempts)
    && (granted ==> before.status.IsManuallyRetryable())
  }

  predicate Granted(s: System, a: Action) {
    a.RequestRetry? && s.stored.request.status.IsManuallyRetryable()
  }

  lemma SettleSpends(c: Config, s: Stored, result: ProviderResult, jitter: real, now: real)
    requires Settle(s, result, c.policy, jitter, now).Ok?
    ensures Spends(c, s.request, Settle(s, result, c.policy, jitter, now).value.request, false, false)
  {
    if s.request.status.Dispatching? {
      if result.accepted {
        assert Acceptance(s.request, result, now).value.attemptCount == s.request.attemptCount;
      } else {
        assert Rejection(s.request, result, c.policy, jitter, now).value.attemptCount == s.request.attemptCount;
      }
    }
  }

  lemma ReconcileSpends(c: Config, s: Stored, seen: Request, lookup: Lookup, now: real)
    requires Reconcile(s, seen, c.supportsLookup, lookup, c.reviewAfter, now).Ok?
    ensures Spends(c, s.request, Reconcile(s, seen, c.supportsLookup, lookup, c.reviewAfter, now).value.request,
            false, false)
  {
    if lookup.Answer? {
      ReportsNeverRaise(s.request, ResultReport(lookup.result), now);
    }
  }

  lemma TransactSpends(c: Config, s: System, a: Action)
    requires Inv(c, s) && Enabled(c, s, a) && Transact(c, s, a).Ok?
    ensures Spends(c, s.stored.request, Transact(c, s, a).value.request, Claims(s, a), Granted(s, a))
  {
    match a
    case SettleAnswer(i, jitter, now) => SettleSpends(c, s.stored, s.answers[i].result, jitter, now);
    case Webhook(report, now) => ReportsNeverRaise(s.stored.request, report, now);
    case ReconcileSnapshot(k, lookup, now) => ReconcileSpends(c, s.stored, s.past[k], lookup, now);
    case InitialDispatch(now) => DispatchSound(s.stored, now);
    case _ =>
  }

  lemma CallsStayCounted(c: Config, s: System, a: Action)
    requires Inv(c, s) && Enabled(c, s, a) && Transact(c, s, a).Ok?
    ensures CallsCounted(c, Apply(c, s, a))
  {
    TransactSpends(c, s, a);
    var per := InProcessAttempts(c.idempotent);
    var t := Apply(c, s, a);
    assert t.stored.request.attemptCount - |t.claims| >= s.stored.request.attemptCount - |s.claims|;
    assert a.CallProvider? ==>
        t.stored.request.attemptCount - |t.claims| == s.stored.request.attemptCount - |s.claims| + 1;
    assert t.creates <= s.creates + (if a.CallProvider? then per else 0);
  }

  lemma PastStaysPreceded(earlier: Request, r: Request, after: Request)
    requires Preceded(earlier, r) && Moves(r, after) && after.attemptCount >= r.attemptCount
    ensures Preceded(earlier, after)
  {
  }

  lemma ApplyKeepsInv(c: Config, s: System, a: Action)
    requires c.Valid() && Inv(c, s)
    ensures Inv(c, Apply(c, s, a))
  {
    if Enabled(c, s, a) {
      TransactSound(c, s, a);
      if Transact(c, s, a).Ok? {
        TransactSpends(c, s, a);
        CallsStayCounted(c, s, a);
        var t := Apply(c, s, a);
        var before, after := s.stored.request, t.stored.request;
        assert WithinBudget(c, t);
        forall k | 0 <= k < |t.past| ensures Preceded(t.past[k], after) {
          if k < |s.past| {
            PastStaysPreceded(s.past[k], before, after);
          }
        }
        assert !t.dispatched ==> !s.dispatched && !a.InitialDispatch?;
      }
    }
  }

  lemma {:induction false} RunKeepsInv(c: Config, s: System, actions: seq<Action>)
    requires c.Valid() && Inv(c, s)
    ensures Inv(c, Run(c, s, actions))
    decreases |actions|
  {
    if actions != [] {
      ApplyKeepsInv(c, s, actions[0]);
      RunKeepsInv(c, Apply(c, s, actions[0]), actions[1..]);
    }
  }

  lemma Reachable(c: Config, born: real, actions: seq<Action>)
    requires c.Valid()
    ensures Inv(c, Run(c, Start(born), actions))
  {
    RunKeepsInv(c, Start(born), actions);
  }

  // ---- main results ----

  /** After any run, whatever fires next and however old its snapshot, the entity refuses it only when it is the
      initial dispatch and a cancellation committed first. */
  lemma StaleSnapshotsAreSafe(c: Config, born: real, actions: seq<Action>, a: Action)
    requires c.Valid() && Enabled(c, Run(c, Start(born), actions), a)
    ensures var s := Run(c, Start(born), actions);
            Transact(c, s, a).Raised? <==> a.InitialDispatch? && s.stored.request.status.Cancelled?
  {
    Reachable(c, born, actions);
    TransactSound(c, Run(c, Start(born), actions), a);
  }

  /** In every committed row the retry time, the provider reference and the completion time agree with the status. */
  lemma FieldsAlwaysAgree(c: Config, born: real, actions: seq<Action>)
    requires c.Valid()
    ensures FieldsAgree(Run(c, Start(born), actions).stored.request)
  {
    Reachable(c, born, actions);
  }

  /** Attempts stay within the policy plus what operators granted, and the adapter is asked to create at most once
      per attempt, twice when the provider collapses duplicates. */
  lemma AttemptsAreBounded(c: Config, born: real, actions: seq<Action>)
    requires c.Valid()
    ensures var s := Run(c, Start(born), actions);
            && s.stored.request.attemptCount <= c.policy.maxAttempts + s.operatorRetries
            && s.creates <= (c.policy.maxAttempts + s.operatorRetries) * (if c.idempotent then 2 else 1)
  {
    Reachable(c, born, actions);
    var s := Run(c, Start(born), actions);
    var per := InProcessAttempts(c.idempotent);
    assert (s.stored.request.attemptCount - |s.claims|) * per <= (c.policy.maxAttempts + s.operatorRetries) * per;
  }

  /** A snapshot with the row's version is the row: the version check of the versioned update misses no change. */
  lemma VersionsIdentifyRows(c: Config, born: real, actions: seq<Action>, k: nat)
    requires c.Valid() && k < |Run(c, Start(born), actions).past|
    ensures var s := Run(c, Start(born), actions);
            s.past[k].version == s.stored.request.version ==> s.past[k] == s.stored.request
  {
    Reachable(c, born, actions);
    assert Preceded(Run(c, Start(born), actions).past[k], Run(c, Start(born), actions).stored.request);
  }

  /** A succeeded or cancelled request keeps its status whatever arrives later. */
  lemma {:induction false} TerminalStatusStays(c: Config, s: System, actions: seq<Action>)
    requires c.Valid() && Inv(c, s) && s.stored.request.status.IsTerminal()
    ensures Run(c, s, actions).stored.request.status == s.stored.request.status
    decreases |actions|
  {
    if actions != [] {
      ApplyKeepsInv(c, s, actions[0]);
      if Enabled(c, s, actions[0]) {
        TransactSound(c, s, actions[0]);
      }
      TerminalStatusStays(c, Apply(c, s, actions[0]), actions[1..]);
    }
  }

  lemma {:induction false} RunsCompose(c: Config, s: System, first: seq<Action>, rest: seq<Action>)
    ensures Run(c, s, first + rest) == Run(c, Run(c, s, first), rest)
    decreases |first|
  {
    if first == [] {
      assert first + rest == rest;
    } else {
      assert (first + rest)[1..] == first[1..] + rest;
      RunsCompose(c, Apply(c, s, first[0]), first[1..], rest);
    }
  }

  /** Once a run has brought a request to a terminal status, no continuation of the run changes it. */
  lemma TerminalForever(c: Config, born: real, first: seq<Action>, rest: seq<Action>)
    requires c.Valid() && Run(c, Start(born), first).stored.request.status.IsTerminal()
    ensures Run(c, Start(born), first + rest).stored.request.status == Run(c, Start(born), first).stored.request.status
  {
    Reachable(c, born, first);
    TerminalStatusStays(c, Run(c, Start(born), first), rest);
    RunsCompose(c, Start(born), first, rest);
  }

  // ---- which attempt an answer belongs to ----

  /** Calls to be made and answers to be settled carry the numbers of different attempts made so far, and an answer is
      accepted exactly when it carries no error. */
  predicate TagsFit(claims: seq<nat>, answers: seq<Tagged>, n: nat) {
    && (forall i :: 0 <= i < |claims| ==> 1 <= claims[i] <= n)
    && (forall i :: 0 <= i < |answers| ==> 1 <= answers[i].attempt <= n && answers[i].result.Valid())
    && (forall i, j :: 0 <= i < j < |claims| ==> claims[i] != claims[j])
    && (forall i, j :: 0 <= i < j < |answers| ==> answers[i].attempt != answers[j].attempt)
    && (forall i, j :: 0 <= i < |claims| && 0 <= j < |answers| ==> claims[i] != answers[j].attempt)
  }

  predicate TagsOk(s: System) {
    TagsFit(s.claims, s.answers, s.stored.request.attemptCount)
  }

  lemma ClaimFits(claims: seq<nat>, answers: seq<Tagged>, n: nat)
    requires TagsFit(claims, answers, n)
    ensures TagsFit(claims + [n + 1], answers, n + 1)
  {
  }

  lemma CallFits(claims: seq<nat>, answers: seq<Tagged>, n: nat, k: nat, result: ProviderResult)
    requires TagsFit(claims, answers, n) && k < |claims| && result.Valid()
    ensures TagsFit(Without(claims, k), answers + [Tagged(claims[k], result)], n)
  {
    ClaimDropFits(claims, answers, n, k);
  }

  lemma ClaimDropFits(claims: seq<nat>, answers: seq<Tagged>, n: nat, k: nat)
    requires TagsFit(claims, answers, n) && k < |claims|
    ensures TagsFit(Without(claims, k), answers, n) && claims[k] !in Without(claims, k)
  {
  }

  lemma AnswerDropFits(claims: seq<nat>, answers: seq<Tagged>, n: nat, k: nat)
    requires TagsFit(claims, answers, n) && k < |answers|
    ensures TagsFit(claims, Without(answers, k), n)
  {
  }

  lemma SurroundingsKeepTags(c: Config, s: System, a: Action)
    requires TagsOk(s) && Enabled(c, s, a)
    ensures var n := s.stored.request.attemptCount + (if Claims(s, a) then 1 else 0);
            var t := Surroundings(c, s, a);
            TagsFit(t.claims, t.answers, n)
  {
    var n := s.stored.request.attemptCount;
    if Claims(s, a) {
      ClaimFits(s.claims, s.answers, n);
    } else if a.CallProvider? {
      CallKeepsTags(c, s, a);
    } else if a.LoseClaim? {
      ClaimDropFits(s.claims, s.answers, n, a.claim);
    } else if a.SettleAnswer? || a.LoseAnswer? {
      AnswerDropFits(s.claims, s.answers, n, a.which);
    }
  }

  lemma CallKeepsTags(c: Config, s: System, a: Action)
    requires TagsOk(s) && Enabled(c, s, a) && a.CallProvider?
    ensures TagsFit(Surroundings(c, s, a).claims, Surroundings(c, s, a).answers, s.stored.request.attemptCount)
  {
    var result := if a.refusal.Some? then AsResult(Threw(a.refusal.value)) else AsResult(FinalReply(c, a.replies));
    CallFits(s.claims, s.answers, s.stored.request.attemptCount, a.claim, result);
  }

  lemma ApplyKeepsTags(c: Config, s: System, a: Action)
    requires c.Valid() && Inv(c, s) && TagsOk(s)
    ensures TagsOk(Apply(c, s, a))
  {
    if Enabled(c, s, a) && Transact(c, s, a).Ok? {
      TransactSpends(c, s, a);
      SurroundingsKeepTags(c, s, a);
    }
  }

  lemma {:induction false} RunKeepsTags(c: Config, s: System, actions: seq<Action>)
    requires c.Valid() && Inv(c, s) && TagsOk(s)
    ensures Inv(c, Run(c, s, actions)) && TagsOk(Run(c, s, actions))
    decreases |actions|
  {
    if actions != [] {
      ApplyKeepsInv(c, s, actions[0]);
      ApplyKeepsTags(c, s, actions[0]);
      RunKeepsTags(c, Apply(c, s, actions[0]), actions[1..]);
    }
  }

  /** In every run a rejected answer that settles a dispatching request is recorded with its own error: the settling
      transaction never has to make one up, and sends the request to review only for a timeout. */
  lemma RejectionsAreExplained(c: Config, born: real, actions: seq<Action>, i: nat, jitter: real, now: real)
    requires c.Valid() && IsJitter(jitter) && i < |Run(c, Start(born), actions).answers|
    requires var s := Run(c, Start(born), actions);
      s.stored.request.status.Dispatching? && !s.answers[i].result.accepted
    ensures var s := Run(c, Start(born), actions);
            var result := s.answers[i].result;
            && result.fault.Some?
            && var t := Transact(c, s, SettleAnswer(i, jitter, now));
               && t.Ok?
               && (t.value.request.status.ManualReview? ==> result.fault.value.failure.category.ProviderTimeout?)
               && (!t.value.request.status.ManualReview? ==>
                     t.value.request.errorCode == Some(result.fault.value.failure.code))
  {
    RunKeepsTags(c, Start(born), actions);
    var s := Run(c, Start(born), actions);
    RejectionOutcome(s.stored, s.answers[i].result, c.policy, jitter, now);
  }

  /** Settling as it would be if it compared attempt numbers: the answer of an older attempt decides nothing. */
  function SettleChecked(s: Stored, answer: Tagged, policy: RetryPolicy, jitter: real, now: real)
    : (r: Outcome<Stored>)
  {
    if answer.attempt != s.request.attemptCount then Superseded(s, answer.result, now)
    else Settle(s, answer.result, policy, jitter, now)
  }

  /** After any run, settling an answer does what it would do with its attempt number checked, exactly unless a newer
      attempt is being dispatched; then the old answer decides the newer attempt. */
  lemma SettlesOwnAttemptExactlyWhen(c: Config, born: real, actions: seq<Action>, i: nat, jitter: real, now: real)
    requires c.Valid() && IsJitter(jitter) && i < |Run(c, Start(born), actions).answers|
    ensures var s := Run(c, Start(born), actions);
            Transact(c, s, SettleAnswer(i, jitter, now)) ==
              SettleChecked(s.stored, s.answers[i], c.policy, jitter, now) <==>
            !(s.stored.request.status.Dispatching? && s.answers[i].attempt < s.stored.request.attemptCount)
  {
    RunKeepsTags(c, Start(born), actions);
    var s := Run(c, Start(born), actions);
    if s.stored.request.status.Dispatching? {
      SettlingMoves(s.stored, s.answers[i].result, c.policy, jitter, now);
    }
  }

  lemma SettlingMoves(s: Stored, result: ProviderResult, policy: RetryPolicy, jitter: real, now: real)
    requires FieldsAgree(s.request) && s.request.status.Dispatching? && IsJitter(jitter)
    ensures var t := Settle(s, result, policy, jitter, now); t.Ok? && !t.value.request.status.Dispatching?
  {
    if result.accepted {
      AcceptanceMarks(s.request, result, now);
    } else {
      RejectionMarks(s.request, result, policy, jitter, now);
    }
  }

  predicate AllOf(claims: seq<nat>, answers: seq<Tagged>, n: nat) {
    && (forall i :: 0 <= i < |claims| ==> claims[i] == n)
    && (forall i :: 0 <= i < |answers| ==> answers[i].attempt == n)
  }

  /** All work in flight belongs to the current attempt. */
  predicate Current(s: System) {
    AllOf(s.claims, s.answers, s.stored.request.attemptCount)
  }

  /** An attempt is claimed while work of an earlier one is still in flight. */
  predicate Overlaps(c: Config, s: System, a: Action) {
    Enabled(c, s, a) && Claims(s, a) && Transact(c, s, a).Ok? && (s.claims != [] || s.answers != [])
  }

  /** A new claim joins work of the attempt before it, which is then no longer current. */
  lemma ClaimOverlaps(claims: seq<nat>, answers: seq<Tagged>, n: nat)
    requires AllOf(claims, answers, n)
    ensures AllOf(claims + [n + 1], answers, n + 1) <==> claims == [] && answers == []
  {
    if claims != [] {
      assert (claims + [n + 1])[0] == n;
    } else if answers != [] {
      assert answers[0].attempt == n;
    }
  }

  /** Without a claim, work in flight only moves on or is dropped. */
  lemma SurroundingsStayCurrent(c: Config, s: System, a: Action)
    requires Enabled(c, s, a) && Current(s) && !Claims(s, a)
    ensures var t := Surroundings(c, s, a); AllOf(t.claims, t.answers, s.stored.request.attemptCount)
  {
  }

  lemma CurrentUnlessOverlap(c: Config, s: System, a: Action)
    requires c.Valid() && Inv(c, s) && Current(s)
    ensures Current(Apply(c, s, a)) <==> !Overlaps(c, s, a)
  {
    if Enabled(c, s, a) && Transact(c, s, a).Ok? {
      TransactSpends(c, s, a);
      if Claims(s, a) {
        ClaimOverlaps(s.claims, s.answers, s.stored.request.attemptCount);
      } else {
        SurroundingsStayCurrent(c, s, a);
      }
    }
  }

  predicate AlwaysCurrent(c: Config, s: System, actions: seq<Action>)
    decreases |actions|
  {
    Current(s) && (actions != [] ==> AlwaysCurrent(c, Apply(c, s, actions[0]), actions[1..]))
  }

  predicate NeverOverlaps(c: Config, s: System, actions: seq<Action>)
    decreases |actions|
  {
    actions != [] ==> !Overlaps(c, s, actions[0]) && NeverOverlaps(c, Apply(c, s, actions[0]), actions[1..])
  }

  lemma {:induction false} CurrentFrom(c: Config, s: System, actions: seq<Action>)
    requires c.Valid() && Inv(c, s) && TagsOk(s) && Current(s)
    ensures AlwaysCurrent(c, s, actions) <==> NeverOverlaps(c, s, actions)
    decreases |actions|
  {
    if actions != [] {
      CurrentUnlessOverlap(c, s, actions[0]);
      if !Overlaps(c, s, actions[0]) {
        ApplyKeepsInv(c, s, actions[0]);
        ApplyKeepsTags(c, s, actions[0]);
        CurrentFrom(c, Apply(c, s, actions[0]), actions[1..]);
      }
    }
  }

  /** Throughout a run every call and answer in flight belongs to the current attempt, so that no answer decides another
      attempt, exactly when no attempt is claimed while work of an earlier one is in flight. */
  lemma CurrentThroughoutExactlyWhen(c: Config, born: real, actions: seq<Action>)
    requires c.Valid()
    ensures AlwaysCurrent(c, Start(born), actions) <==> NeverOverlaps(c, Start(born), actions)
  {
    CurrentFrom(c, Start(born), actions);
  }

  // ---- a run in which an old answer decides a newer attempt ----

  const ONCE := Config(RetryPolicy(1, 1.0, 1.0, 1.0, 1.0), false, false, false, 60.0)
  const REFUSED := ProviderFault(Failure(Words("r"), Words("r"), ProviderUnavailable, false, None), None)

  /** The first attempt is refused, but before that answer is settled the request has been escalated, handed back by an
      operator, and claimed again. */
  const OVERLAP_RUN: seq<Action> := [
    InitialDispatch(0.0),
    CallProvider(0, Some(REFUSED), (k: nat) => Threw(REFUSED)),
    ReconcileSnapshot(1, Unreachable, 60.0),
    RequestRetry(61.0),
    WorkerClaim(61.0)]

  predicate FirstOut(s: System) {
    && s.claims == [] && |s.answers| == 1 && s.answers[0] == Tagged(1, AsResult(Threw(REFUSED)))
    && s.stored.request.attemptCount == 1
  }

  lemma OverlapCalled(s: System)
    requires s == Apply(ONCE, Apply(ONCE, Start(0.0), OVERLAP_RUN[0]), OVERLAP_RUN[1])
    ensures FirstOut(s) && s.stored.request.status.Dispatching? && s.stored.request.updatedAt == 0.0
    ensures s.stored.request.providerReference.None?
    ensures |s.past| == 3 && s.past[1] == s.stored.request
  {
  }

  lemma OverlapEscalated(s: System)
    requires FirstOut(s) && s.stored.request.status.Dispatching? && s.stored.request.updatedAt == 0.0
    requires s.stored.request.providerReference.None? && |s.past| == 3 && s.past[1] == s.stored.request
    ensures var t := Apply(ONCE, s, OVERLAP_RUN[2]); FirstOut(t) && t.stored.request.status.ManualReview?
  {
  }

  lemma OverlapReclaimed(s: System)
    requires FirstOut(s) && s.stored.request.status.ManualReview?
    ensures var t := Apply(ONCE, Apply(ONCE, s, OVERLAP_RUN[3]), OVERLAP_RUN[4]);
            && t.claims == [2] && |t.answers| == 1 && t.answers[0].attempt == 1
            && t.answers[0].result == AsResult(Threw(REFUSED))
            && t.stored.request.attemptCount == 2 && t.stored.request.status.Dispatching?
  {
    var t := Apply(ONCE, s, OVERLAP_RUN[3]);
    assert FirstOut(t) && t.stored.request.status.RetryScheduled? && t.stored.request.nextRetryAt == Some(61.0);
  }

  lemma UnfoldFive(c: Config, s: System, actions: seq<Action>)
    requires |actions| == 5
    ensures Run(c, s, actions) ==
            Apply(c, Apply(c, Apply(c, Apply(c, Apply(c, s, actions[0]), actions[1]), actions[2]), actions[3]),
                  actions[4])
  {
    var s1 := Apply(c, s, actions[0]);
    var s2 := Apply(c, s1, actions[1]);
    var s3 := Apply(c, s2, actions[2]);
    RunFirst(c, s, actions);
    RunFirst(c, s1, actions[1..]);
    assert actions[1..][1..] == actions[2..];
    RunFirst(c, s2, actions[2..]);
    assert actions[2..][1..] == actions[3..];
    RunFirst(c, s3, actions[3..]);
    assert actions[3..][1..] == actions[4..];
    RunFirst(c, Apply(c, s3, actions[3]), actions[4..]);
    assert actions[4..][1..] == [];
  }

  lemma RunFirst(c: Config, s: System, actions: seq<Action>)
    requires actions != []
    ensures Run(c, s, actions) == Run(c, Apply(c, s, actions[0]), actions[1..])
  {
  }

  /** The second attempt is claimed and its call not made yet, and the answer of the first one fails it. */
  lemma OldAnswerDecides()
    ensures var s := Run(ONCE, Start(0.0), OVERLAP_RUN);
            && s.claims == [2] && |s.answers| == 1 && s.answers[0].attempt == 1
            && s.stored.request.attemptCount == 2 && s.stored.request.status.Dispatching?
            && Apply(ONCE, s, SettleAnswer(0, 0.0, 62.0)).stored.request.status.Failed?
  {
    UnfoldFive(ONCE, Start(0.0), OVERLAP_RUN);
    var s := Apply(ONCE, Apply(ONCE, Start(0.0), OVERLAP_RUN[0]), OVERLAP_RUN[1]);
    OverlapCalled(s);
    OverlapEscalated(s);
    OverlapReclaimed(Apply(ONCE, s, OVERLAP_RUN[2]));
  }
}
