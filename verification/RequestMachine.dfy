/** One integration request under every interleaving of its transactions. Provider calls happen between
    transactions; replies, webhooks, crashes and stale snapshots come from the environment. */
module RequestMachine {
  import opened Common
  import opened RequestStates
  import opened RetryPolicies
  import opened Requests
  import opened RequestTransactions

  datatype Config = Config(
    policy: RetryPolicy,
    idempotent: bool,
    supportsLookup: bool,
    supportsCancellation: bool,
    reviewAfter: real)
  {
    predicate Valid() {
      policy.Valid()
    }
  }

  /** A result, and the attempt whose call it answers. */
  datatype Tagged = Tagged(attempt: nat, result: ProviderResult)

  /** `past` holds every committed version of the request, oldest first: any of them may be the snapshot
      a reconciliation or a cancellation still works from. `claims` lists the claimed attempts whose provider
      call has not been made yet, by number, and `answers` the results nobody has settled yet, each with the
      attempt it answers. */
  datatype System = System(
    stored: Stored,
    past: seq<Request>,
    dispatched: bool,
    claims: seq<nat>,
    answers: seq<Tagged>,
    creates: nat,
    operatorRetries: nat)

  datatype Action =
    | InitialDispatch(now: real)
    | WorkerClaim(now: real)
    | CallProvider(claim: nat, refusal: Option<ProviderFault>, replies: nat -> Reply)
    | SettleAnswer(which: nat, jitter: real, now: real)
    | LoseClaim(claim: nat)
    | LoseAnswer(which: nat)
    | Webhook(report: Report, now: real)
    | ReconcileSnapshot(snapshot: nat, lookup: Lookup, now: real)
    | AskCancel(reason: Option<string>, now: real)
    | CommitCancel(snapshot: nat, result: ProviderResult, reason: Option<string>, now: real)
    | RequestRetry(now: real)

  /** The reply the in-process loop ends on. */
  function FinalReply(c: Config, replies: nat -> Reply): (r: Reply) {
    replies(LastAttempt(replies, 1, InProcessAttempts(c.idempotent)))
  }

  /** Whether the environment can take an action in a state at all. */
  predicate Enabled(c: Config, s: System, a: Action) {
    match a
    case InitialDispatch(_) => !s.dispatched
    case CallProvider(k, refusal, replies) =>
      k < |s.claims| && (refusal.None? ==> AsResult(FinalReply(c, replies)).Valid())
    case LoseClaim(k) => k < |s.claims|
    case SettleAnswer(i, jitter, _) => i < |s.answers| && IsJitter(jitter)
    case LoseAnswer(i) => i < |s.answers|
    case Webhook(report, _) =>
      Given(report.providerReference) && report.providerReference == s.stored.request.providerReference
    case ReconcileSnapshot(k, _, _) => k < |s.past| && s.past[k].status.IsReconcilable()
    case CommitCancel(k, _, _, _) =>
      k < |s.past| && MayCancel(s.past[k], c.supportsCancellation) && s.past[k].providerReference.Some?
    case _ => true
  }

  /** The transaction an action runs; `Raised` is an error out of the entity. */
  function Transact(c: Config, s: System, a: Action): (r: Outcome<Stored>)
    requires Enabled(c, s, a)
  {
    match a
    case InitialDispatch(now) => Dispatch(s.stored, now)
    case WorkerClaim(now) => RetryClaim(s.stored, now)
    case SettleAnswer(i, jitter, now) => Settle(s.stored, s.answers[i].result, c.policy, jitter, now)
    case Webhook(report, now) => ApplyReported(s.stored, report, now)
    case ReconcileSnapshot(k, lookup, now) =>
      Reconcile(s.stored, s.past[k], c.supportsLookup, lookup, c.reviewAfter, now)
    case AskCancel(reason, now) => CancelFirst(s.stored, c.supportsCancellation, reason, now)
    case CommitCancel(_, result, reason, now) => CancelCommit(s.stored, result, reason, now)
    case RequestRetry(now) => OperatorRetry(s.stored, now)
    case CallProvider(_, _, _) | LoseClaim(_) | LoseAnswer(_) => Ok(s.stored)
  }

  predicate Claims(s: System, a: Action) {
    a.InitialDispatch? || (a.WorkerClaim? && IsDue(s.stored.request, a.now))
  }

  function Without<T>(xs: seq<T>, i: nat): (r: seq<T>)
    requires i < |xs|
    ensures |r| == |xs| - 1
    ensures forall j :: 0 <= j < |r| ==> r[j] == xs[if j < i then j else j + 1]
  {
    xs[..i] + xs[i + 1..]
  }

  /** Everything an action changes besides the row: in-flight work and the counters. */
  function Surroundings(c: Config, s: System, a: Action): (r: System)
    requires Enabled(c, s, a)
  {
    match a
    case InitialDispatch(_) => s.(dispatched := true, claims := s.claims + [s.stored.request.attemptCount + 1])
    case WorkerClaim(_) =>
      if Claims(s, a) then s.(claims := s.claims + [s.stored.request.attemptCount + 1]) else s
    case CallProvider(k, refusal, replies) =>
      var result := if refusal.Some? then AsResult(Threw(refusal.value)) else AsResult(FinalReply(c, replies));
      var made := if refusal.Some? then 0 else LastAttempt(replies, 1, InProcessAttempts(c.idempotent));
      s.(claims := Without(s.claims, k),
         creates := s.creates + made,
         answers := s.answers + [Tagged(s.claims[k], result)])
    case LoseClaim(k) => s.(claims := Without(s.claims, k))
    case SettleAnswer(i, _, _) => s.(answers := Without(s.answers, i))
    case LoseAnswer(i) => s.(answers := Without(s.answers, i))
    case RequestRetry(_) =>
      if s.stored.request.status.IsManuallyRetryable() then s.(operatorRetries := s.operatorRetries + 1) else s
    case _ => s
  }

  function Apply(c: Config, s: System, a: Action): (r: System) {
    if !Enabled(c, s, a) then s else
      var t := Transact(c, s, a);
      if t.Raised? then (if a.InitialDispatch? then s.(dispatched := true) else s)
      else Surroundings(c, s, a).(stored := t.value, past := s.past + [t.value.request])
  }

  function Run(c: Config, s: System, actions: seq<Action>): (r: System)
    decreases |actions|
  {
    if actions == [] then s else Run(c, Apply(c, s, actions[0]), actions[1..])
  }

  function Start(now: real): (r: System) {
    System(Create(now), [Created(now)], false, [], [], 0, 0)
  }

  // ---- one transaction, seen from the row ----

  /** What one committed transaction may do to the request: leave it alone, or move it to a newer version. */
  predicate Moves(before: Request, after: Request) {
    after == before ||
    (&& after.version > before.version
     && (before.status != after.status ==> Reached(before.status, after.status))
     && FieldsAgree(after)
     && !after.status.Received?)
  }

  /** A transition of the table, or the two taken together by the first dispatch. */
  predicate Reached(before: RequestStatus, after: RequestStatus) {
    CanTransition(before, after) || (before.Received? && after.Dispatching?)
  }

  /** A transaction that goes through without an entity error and moves the row as allowed. */
  predicate Sound(before: Stored, after: Outcome<Stored>) {
    after.Ok? && Moves(before.request, after.value.request)
  }

  lemma DispatchSound(s: Stored, now: real)
    requires FieldsAgree(s.request) && (s.request.status.Received? || s.request.status.Cancelled?)
    ensures Dispatch(s, now).Raised? <==> s.request.status.Cancelled?
    ensures s.request.status.Received? ==>
            Sound(s, Dispatch(s, now)) && Dispatch(s, now).value.request.attemptCount == 1
  {
  }

  /** A mutator that neither raises nor breaks a promise about the fields. */
  predicate Marks(before: Request, after: Outcome<Request>) {
    after.Ok? && Moves(before, after.value)
  }

  lemma MarksCommit(s: Stored, after: Outcome<Request>, now: real)
    requires Marks(s.request, after)
    ensures Sound(s, Commit(s, after, now))
  {
  }

  lemma AcceptanceMarks(r: Request, result: ProviderResult, now: real)
    requires FieldsAgree(r) && r.status.Dispatching?
    ensures Marks(r, Acceptance(r, result, now))
  {
  }

  lemma RejectionMarks(r: Request, result: ProviderResult, policy: RetryPolicy, jitter: real, now: real)
    requires FieldsAgree(r) && r.status.Dispatching? && IsJitter(jitter)
    ensures Marks(r, Rejection(r, result, policy, jitter, now))
  {
  }

  lemma SupersededSound(s: Stored, result: ProviderResult, now: real)
    requires FieldsAgree(s.request) && !s.request.status.Received? && s.request.attemptCount > 0
    ensures Sound(s, Superseded(s, result, now))
  {
  }

  lemma SettleSound(s: Stored, result: ProviderResult, policy: RetryPolicy, jitter: real, now: real)
    requires FieldsAgree(s.request) && !s.request.status.Received? && s.request.attemptCount > 0 && IsJitter(jitter)
    ensures Sound(s, Settle(s, result, policy, jitter, now))
  {
    if !s.request.status.Dispatching? {
      SupersededSound(s, result, now);
    } else if result.accepted {
      AcceptanceMarks(s.request, result, now);
      MarksCommit(s, Acceptance(s.request, result, now), now);
    } else {
      RejectionMarks(s.request, result, policy, jitter, now);
      MarksCommit(s, Rejection(s.request, result, policy, jitter, now), now);
    }
  }

  /** Settling an accepted answer and applying a webhook with the same content lead a dispatching request to the same
      status, exactly unless the answer leaves its outcome in doubt; then settling asks for a review. */
  lemma AnswersAndReportsAgreeWhen(s: Stored, result: ProviderResult, policy: RetryPolicy, jitter: real, now: real)
    requires FieldsAgree(s.request) && s.request.status.Dispatching? && result.accepted
    ensures Settle(s, result, policy, jitter, now).Ok? && ApplyReported(s, ResultReport(result), now).Ok?
    ensures var settled := Settle(s, result, policy, jitter, now).value.request.status;
            var reported := ApplyReported(s, ResultReport(result), now).value.request.status;
            && (settled == reported <==>
                  || result.status.Succeeded? || result.status.Cancelled?
                  || ((result.status.Accepted? || result.status.Pending?) && Given(result.reference)))
            && (settled != reported ==> settled.ManualReview?)
  {
    AcceptanceMarks(s.request, result, now);
    ReportsNeverRaise(s.request, ResultReport(result), now);
  }

  /** A rejected attempt is retried exactly while its error is retryable and attempts remain, is sent to review exactly
      when a timeout has used them up, and fails otherwise; the attempt count does not move. */
  lemma RejectionOutcome(s: Stored, result: ProviderResult, policy: RetryPolicy, jitter: real, now: real)
    requires FieldsAgree(s.request) && s.request.status.Dispatching? && !result.accepted && result.Valid() &&
             IsJitter(jitter)
    ensures Settle(s, result, policy, jitter, now).Ok?
    ensures Delay(policy, s.request.attemptCount, jitter, result.fault.value.retryAfterSeconds).Ok?
    ensures var failure := result.fault.value.failure;
            var after := Settle(s, result, policy, jitter, now).value.request;
            var remain := s.request.attemptCount < policy.maxAttempts;
            var delay := Delay(policy, s.request.attemptCount, jitter, result.fault.value.retryAfterSeconds);
            && (after.status.RetryScheduled? <==> failure.retryable && remain)
            && (after.status.ManualReview? <==> failure.retryable && !remain && failure.category.ProviderTimeout?)
            && (after.status.Failed? <==> !after.status.RetryScheduled? && !after.status.ManualReview?)
            && (after.status.RetryScheduled? ==>
                after.nextRetryAt == Some(now + delay.value) && after.completedAt.None?)
            && (after.status.Failed? ==> after.completedAt == Some(now))
            && (!after.status.ManualReview? ==> after.errorCode == Some(failure.code))
            && after.attemptCount == s.request.attemptCount && after.providerReference == s.request.providerReference
  {
    assert Rejection(s.request, result, policy, jitter, now).Ok?;
  }

  lemma ReportSound(s: Stored, report: Report, now: real)
    requires FieldsAgree(s.request) && !s.request.status.Received?
    requires Given(report.providerReference) ==> s.request.attemptCount > 0
    ensures Sound(s, ApplyReported(s, report, now))
  {
    ReportsNeverRaise(s.request, report, now);
  }

  lemma EscalateSound(s: Stored, reason: Text, now: real)
    requires FieldsAgree(s.request) && !s.request.status.Received?
    ensures Sound(s, Escalate(s, reason, now))
  {
  }

  lemma ReconcileSound(s: Stored, seen: Request, supportsLookup: bool, lookup: Lookup, reviewAfter: real, now: real)
    requires FieldsAgree(s.request) && !s.request.status.Received? && s.request.attemptCount > 0
    ensures Sound(s, Reconcile(s, seen, supportsLookup, lookup, reviewAfter, now))
  {
    var after := Reconcile(s, seen, supportsLookup, lookup, reviewAfter, now);
    if seen.providerReference.Some? && supportsLookup && lookup.Answer? && !lookup.result.status.Unknown? {
      ReportSound(s, ResultReport(lookup.result), now);
    } else if after != Ok(s) {
      var reason :| after == Escalate(s, reason, now);
      EscalateSound(s, reason, now);
    }
  }

  lemma CancelSound(s: Stored, supportsCancellation: bool, result: ProviderResult, reason: Option<string>, now: real)
    requires FieldsAgree(s.request)
    ensures Sound(s, CancelFirst(s, supportsCancellation, reason, now))
    ensures Sound(s, CancelCommit(s, result, reason, now))
  {
  }

  lemma RetrySound(s: Stored, now: real)
    requires FieldsAgree(s.request)
    ensures Sound(s, OperatorRetry(s, now))
    ensures Sound(s, RetryClaim(s, now))
  {
  }
}
