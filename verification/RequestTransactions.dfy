/** Every transaction that moves one integration request, each written as a function of the row it
    locks. A transaction updates the request, appends audit rows and appends outbox events together.
    `Raised` is an error raised by the entity; a use case that refuses leaves the row as it is. */
module RequestTransactions {
  import opened Common
  import opened RequestStates
  import opened RetryPolicies
  import opened Requests

  datatype AuditRow = AuditRow(previous: Option<RequestStatus>, next: RequestStatus, at: real)

  datatype Event = Event(previous: Option<RequestStatus>, status: RequestStatus, at: real)

  /** A request together with the rows its journal wrote in the same transactions. */
  datatype Stored = Stored(request: Request, audit: seq<AuditRow>, outbox: seq<Event>)

  datatype ProviderFault = ProviderFault(failure: Failure, retryAfterSeconds: Option<real>)

  /** The neutral outcome of a provider call. The source refuses to build one whose `accepted`
      flag and error disagree. */
  datatype ProviderResult = ProviderResult(
    accepted: bool,
    status: NormalizedStatus,
    reference: Option<string>,
    providerStatus: Option<string>,
    fault: Option<ProviderFault>)
  {
    predicate Valid() {
      accepted <==> fault.None?
    }
  }

  const MISSING_FAULT := ProviderFault(
    Failure(Fixed(MissingErrorCode), Fixed(MissingErrorMessage), Internal, false, None), None)

  // ---- the journal ----

  function RecordCreation(r: Request): (after: Stored) {
    Stored(r, [AuditRow(None, r.status, r.updatedAt)], [Event(None, r.status, r.updatedAt)])
  }

  function RecordTransition(s: Stored, from: RequestStatus, r: Request, now: real, publish: bool): (after: Stored) {
    Stored(r, s.audit + [AuditRow(Some(from), r.status, now)],
           if publish then s.outbox + [Event(Some(from), r.status, now)] else s.outbox)
  }

  function RecordAction(s: Stored, now: real): (r: Stored) {
    s.(audit := s.audit + [AuditRow(Some(s.request.status), s.request.status, now)])
  }

  /** Commits what a mutator returned, with its audit row and its event. */
  function Commit(s: Stored, after: Outcome<Request>, now: real): (r: Outcome<Stored>) {
    var r :- after;
    Ok(RecordTransition(s, s.request.status, r, now, true))
  }

  /** Creation also notes which provider was selected. */
  function Create(now: real): (r: Stored) {
    RecordAction(RecordCreation(Created(now)), now)
  }

  // ---- claim, dispatch, settle ----

  function Claim(s: Stored, now: real): (r: Outcome<Stored>) {
    Commit(s, BeginDispatch(s.request, now), now)
  }

  /** The first transaction of a full dispatch: validate when just received, then claim. */
  function Dispatch(s: Stored, now: real): (r: Outcome<Stored>) {
    if s.request.status.Received? then
      var validating :- BeginValidation(s.request, now);
      Claim(RecordTransition(s, s.request.status, validating, now, false), now)
    else
      Claim(s, now)
  }

  function Acceptance(r: Request, result: ProviderResult, now: real): (after: Outcome<Request>) {
    match result.status
    case Succeeded => MarkSucceeded(r, result.reference, now)
    case Accepted | Pending =>
      if Given(result.reference) then MarkAccepted(r, result.reference.value, now)
      else MarkManualReview(r, Fixed(AcceptedWithoutReference), now)
    case Cancelled => MarkCancelled(r, Some(Fixed(CancelledByProvider)), now)
    case Failed | Unknown => MarkManualReview(r, Uninterpretable(result.providerStatus), now)
  }

  function Rejection(r: Request, result: ProviderResult, policy: RetryPolicy, jitter: real, now: real)
    : (after: Outcome<Request>)
  {
    var fault := if result.fault.Some? then result.fault.value else MISSING_FAULT;
    var failure := fault.failure;
    if ShouldRetry(policy, r.attemptCount, failure.retryable) then
      var delay :- Delay(policy, r.attemptCount, jitter, fault.retryAfterSeconds);
      ScheduleRetry(r, failure, now + delay, now)
    else if failure.retryable && failure.category.ProviderTimeout? then
      MarkManualReview(r, Fixed(AmbiguousTimeout), now)
    else
      MarkFailed(r, failure, now)
  }

  /** The answer came after the request had moved on: keep its reference, note the answer, change nothing else. */
  function Superseded(s: Stored, result: ProviderResult, now: real): (r: Outcome<Stored>) {
    if Given(result.reference) && !Given(s.request.providerReference) then
      var linked :- AttachReference(s.request, result.reference.value, now);
      Ok(RecordAction(s.(request := linked), now))
    else
      Ok(RecordAction(s, now))
  }

  function Settle(s: Stored, result: ProviderResult, policy: RetryPolicy, jitter: real, now: real)
    : (r: Outcome<Stored>)
  {
    if !s.request.status.Dispatching? then Superseded(s, result, now)
    else if result.accepted then Commit(s, Acceptance(s.request, result, now), now)
    else Commit(s, Rejection(s.request, result, policy, jitter, now), now)
  }

  // ---- webhooks and reconciliation ----

  /** Applies a report, or notes that it carried no forward progress. */
  function ApplyReported(s: Stored, report: Report, now: real): (r: Outcome<Stored>) {
    var after :- ApplyReport(s.request, report, now);
    if after.Some? then Commit(s, Ok(after.value), now) else Ok(RecordAction(s, now))
  }

  function Escalate(s: Stored, reason: Text, now: real): (r: Outcome<Stored>) {
    if s.request.status.ManualReview? || s.request.status.IsTerminal() then Ok(s)
    else Commit(s, MarkManualReview(s.request, reason, now), now)
  }

  datatype Lookup = Unrecognised | Unsupported | Unreachable | Answer(result: ProviderResult)

  function ResultReport(result: ProviderResult): (r: Report) {
    Report(result.status, result.reference, if result.fault.Some? then Some(result.fault.value.failure) else None)
  }

  function AfterGrace(s: Stored, seen: Request, reviewAfter: real, reason: Text, now: real): (r: Outcome<Stored>) {
    if now - seen.updatedAt < reviewAfter then Ok(s) else Escalate(s, reason, now)
  }

  /** Reconciles the row `s` on the strength of an older snapshot `seen`. */
  function Reconcile(s: Stored, seen: Request, supportsLookup: bool, lookup: Lookup, reviewAfter: real,
                     now: real)
    : (r: Outcome<Stored>)
  {
    if seen.providerReference.None? then
      AfterGrace(s, seen, reviewAfter, Fixed(NoReferenceForTooLong), now)
    else if !supportsLookup then
      AfterGrace(s, seen, reviewAfter, Fixed(NoStatusLookup), now)
    else
      match lookup
      case Unrecognised => Escalate(s, Fixed(ReferenceNotRecognised), now)
      case Unsupported => AfterGrace(s, seen, reviewAfter, Fixed(LookupUnsupported), now)
      case Unreachable => Ok(s)
      case Answer(result) =>
        if result.status.Unknown? then Escalate(s, Uninterpretable(result.providerStatus), now)
        else ApplyReported(s, ResultReport(result), now)
  }

  // ---- operators ----

  predicate MayCancel(r: Request, supportsCancellation: bool) {
    r.status.IsCancellable() && (r.status.Pending? ==> supportsCancellation)
  }

  function CancelReason(reason: Option<string>, otherwise: Wording): (r: Text) {
    if Given(reason) then Words(reason.value) else Fixed(otherwise)
  }

  /** The first cancellation transaction. It cancels on the spot only while nothing exists at the provider. */
  function CancelFirst(s: Stored, supportsCancellation: bool, reason: Option<string>, now: real): (r: Outcome<Stored>) {
    if !MayCancel(s.request, supportsCancellation) || s.request.providerReference.Some? then Ok(s)
    else Commit(s, MarkCancelled(s.request, Some(CancelReason(reason, CancelledBeforeDispatch)), now), now)
  }

  /** The second cancellation transaction, after the provider has answered. */
  function CancelCommit(s: Stored, result: ProviderResult, reason: Option<string>, now: real): (r: Outcome<Stored>) {
    if s.request.status.IsTerminal() then Ok(RecordAction(s, now))
    else if result.accepted && (result.status.Cancelled? || result.status.Accepted?) then
      Commit(s, MarkCancelled(s.request, Some(CancelReason(reason, CancelledAtProvider)), now), now)
    else Ok(RecordAction(s, now))
  }

  function OperatorRetry(s: Stored, now: real): (r: Outcome<Stored>) {
    if !s.request.status.IsManuallyRetryable() then Ok(s)
    else Commit(s, RestoreForRetry(s.request, now, now), now)
  }

  /** The retry worker claims a row only while it is due. */
  function RetryClaim(s: Stored, now: real): (r: Outcome<Stored>) {
    if !IsDue(s.request, now) then Ok(s) else Claim(s, now)
  }

  // ---- the guarded provider call ----

  /** One reply of the adapter: a result, or a provider error it raised. */
  datatype Reply = Returned(result: ProviderResult) | Threw(fault: ProviderFault)

  const IN_PROCESS_MAX_ATTEMPTS: nat := 2

  predicate RetryableInProcess(fault: ProviderFault) {
    fault.failure.retryable && (fault.failure.category.ProviderTimeout? || fault.failure.category.ProviderUnavailable?)
  }

  function InProcessAttempts(idempotent: bool): (r: nat) {
    if idempotent then IN_PROCESS_MAX_ATTEMPTS else 1
  }

  /** Which attempt the bounded in-process loop ends on, when attempt `k` would get `replies(k)`. */
  function LastAttempt(replies: nat -> Reply, attempt: nat, attempts: nat): (last: nat)
    requires attempt <= attempts
    ensures attempt <= last <= attempts
    ensures forall k :: attempt <= k < last ==> replies(k).Threw? && RetryableInProcess(replies(k).fault)
    ensures last == attempts || replies(last).Returned? || !RetryableInProcess(replies(last).fault)
    decreases attempts - attempt
  {
    if attempt == attempts || replies(attempt).Returned? || !RetryableInProcess(replies(attempt).fault) then attempt
    else LastAttempt(replies, attempt + 1, attempts)
  }

  /** A provider error becomes a rejected result. */
  function AsResult(reply: Reply): (r: ProviderResult) {
    match reply
    case Returned(result) => result
    case Threw(fault) => ProviderResult(false, NormalizedStatus.Failed, None, None, Some(fault))
  }
}
