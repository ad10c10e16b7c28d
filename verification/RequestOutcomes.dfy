/** What each transaction makes of a request, stated on the fields of the row and its journal: exactly when it moves,
    where to, and what is recorded. */
module RequestOutcomes {
  import opened Common
  import opened RequestStates
  import opened RetryPolicies
  import opened Requests
  import opened RequestTransactions
  import opened RequestMachine

  // ---- the journal ----

  /** Nothing but one audit row that notes an action. */
  predicate OnlyNoted(s: Stored, t: Stored, now: real) {
    && t.request == s.request && t.outbox == s.outbox
    && t.audit == s.audit + [AuditRow(Some(s.request.status), s.request.status, now)]
  }

  /** One audit row and one event for the move. */
  predicate Recorded(s: Stored, t: Stored, now: real) {
    && t.audit == s.audit + [AuditRow(Some(s.request.status), t.request.status, now)]
    && t.outbox == s.outbox + [Event(Some(s.request.status), t.request.status, now)]
  }

  predicate Moved(r: Request, t: Request, status: RequestStatus, now: real) {
    t.status == status && t.updatedAt == now && t.version == r.version + 1
  }

  predicate SameError(r: Request, t: Request) {
    t.errorCode == r.errorCode && t.errorMessage == r.errorMessage && t.errorCategory == r.errorCategory
  }

  predicate NoError(t: Request) {
    t.errorCode.None? && t.errorMessage.None? && t.errorCategory.None?
  }

  predicate HasError(t: Request, f: Failure) {
    t.errorCode == Some(f.code) && t.errorMessage == Some(f.message) && t.errorCategory == Some(f.category)
  }

  // ---- where a request can end up ----

  /** In review, for the reason given. */
  predicate Reviewed(r: Request, t: Request, reason: Text, now: real) {
    && Moved(r, t, RequestStatus.ManualReview, now) && t.manualReviewReason == Some(reason)
    && t.nextRetryAt.None? && t.completedAt == r.completedAt && t.attemptCount == r.attemptCount
    && t.providerReference == r.providerReference && SameError(r, t)
  }

  /** Cancelled, for the reason given. */
  predicate CancelledFor(r: Request, t: Request, reason: Text, now: real) {
    && Moved(r, t, RequestStatus.Cancelled, now) && t.completedAt == Some(now) && t.nextRetryAt.None?
    && t.attemptCount == r.attemptCount && t.errorCode == r.errorCode && t.errorCategory == r.errorCategory
    && (if reason == Words("") then t.errorMessage == r.errorMessage && t.manualReviewReason == r.manualReviewReason
        else t.errorMessage == Some(reason) && t.manualReviewReason.None?)
  }

  predicate SucceededWith(r: Request, t: Request, reference: Option<string>, now: real) {
    && Moved(r, t, RequestStatus.Succeeded, now) && t.completedAt == Some(now) && t.nextRetryAt.None? && NoError(t)
    && t.attemptCount == r.attemptCount && t.manualReviewReason == r.manualReviewReason
    && t.providerReference == if Given(reference) then reference else r.providerReference
  }

  predicate PendingUnder(r: Request, t: Request, reference: string, now: real) {
    && Moved(r, t, RequestStatus.Pending, now) && t.providerReference == Some(reference) && NoError(t)
    && t.completedAt == r.completedAt && t.nextRetryAt == r.nextRetryAt && t.attemptCount == r.attemptCount
    && t.manualReviewReason == r.manualReviewReason
  }

  predicate FailedWith(r: Request, t: Request, f: Failure, now: real) {
    && Moved(r, t, RequestStatus.Failed, now) && HasError(t, f) && t.completedAt == Some(now) && t.nextRetryAt.None?
    && t.attemptCount == r.attemptCount && t.manualReviewReason == r.manualReviewReason
  }

  predicate Postponed(r: Request, t: Request, f: Failure, retryAt: real, now: real) {
    && Moved(r, t, RequestStatus.RetryScheduled, now) && HasError(t, f) && t.nextRetryAt == Some(retryAt)
    && t.completedAt.None? && t.attemptCount == r.attemptCount && t.providerReference == r.providerReference
    && t.manualReviewReason == r.manualReviewReason
  }

  // ---- creation ----

  /** A request is created as received, with one event; besides the creation its journal notes the provider selected. */
  lemma CreateOutcome(now: real)
    ensures var s := Create(now);
            && s.request.status.Received? && s.request.attemptCount == 0 && s.request.version == 0
            && s.request.updatedAt == now && s.request.providerReference.None? && s.request.nextRetryAt.None?
            && s.request.completedAt.None? && s.request.manualReviewReason.None? && NoError(s.request)
            && s.audit == [AuditRow(None, RequestStatus.Received, now),
                           AuditRow(Some(RequestStatus.Received), RequestStatus.Received, now)]
            && s.outbox == [Event(None, RequestStatus.Received, now)]
  {
  }

  /** A reference is linked unless it is empty or contradicts the one there is. */
  lemma AttachOutcome(r: Request, reference: string, now: real)
    ensures AttachReference(r, reference, now) ==
            if reference == "" || (Given(r.providerReference) && r.providerReference.value != reference) then Raised
            else Ok(r.(providerReference := Some(reference), updatedAt := now, version := r.version + 1))
  {
  }

  // ---- the provider call ----

  /** The call is worth repeating at once: it timed out or did not get through, and says so. */
  predicate WorthRepeating(reply: Reply) {
    reply.Threw? && reply.fault.failure.retryable &&
    (reply.fault.failure.category == ProviderTimeout || reply.fault.failure.category == ProviderUnavailable)
  }

  /** A provider that collapses duplicates is called a second time exactly when the first call is worth repeating, any
      other one only once. */
  lemma CallsMade(replies: nat -> Reply, idempotent: bool)
    ensures LastAttempt(replies, 1, InProcessAttempts(idempotent)) ==
            if idempotent && WorthRepeating(replies(1)) then 2 else 1
  {
  }

  /** A call uses up its claim and leaves one answer for the attempt it was claimed for: the last reply, or the error
      that was thrown. The calls made are counted; a call refused before it is made counts none. */
  lemma CallOutcome(c: Config, s: System, k: nat, refusal: Option<ProviderFault>, replies: nat -> Reply)
    requires Enabled(c, s, CallProvider(k, refusal, replies))
    ensures var t := Apply(c, s, CallProvider(k, refusal, replies));
            var made := if refusal.Some? then 0 else if c.idempotent && WorthRepeating(replies(1)) then 2 else 1;
            && t.stored == s.stored && t.creates == s.creates + made && |t.claims| == |s.claims| - 1
            && |t.answers| == |s.answers| + 1 && t.answers[..|s.answers|] == s.answers
            && t.answers[|s.answers|].attempt == s.claims[k]
            && var result := t.answers[|s.answers|].result;
               if refusal.Some? then !result.accepted && result.fault == refusal
               else match replies(made)
                 case Returned(answer) => result == answer
                 case Threw(fault) => !result.accepted && result.fault == Some(fault)
  {
    CallsMade(replies, c.idempotent);
  }

  // ---- dispatch and claims ----

  /** The first dispatch validates and claims: two audit rows, one event, one attempt. */
  lemma DispatchOutcome(s: Stored, now: real)
    requires FieldsAgree(s.request) && s.request.status.Received?
    ensures Dispatch(s, now).Ok?
    ensures var t := Dispatch(s, now).value;
            && t.request == s.request.(status := RequestStatus.Dispatching, attemptCount := 1, updatedAt := now,
                                       version := s.request.version + 2)
            && t.audit == s.audit + [AuditRow(Some(RequestStatus.Received), RequestStatus.Validating, now),
                                     AuditRow(Some(RequestStatus.Validating), RequestStatus.Dispatching, now)]
            && t.outbox == s.outbox + [Event(Some(RequestStatus.Validating), RequestStatus.Dispatching, now)]
  {
  }

  /** The retry worker claims a row exactly when it is scheduled and its time has come; otherwise it leaves it. */
  lemma RetryClaimOutcome(s: Stored, now: real)
    requires FieldsAgree(s.request)
    ensures RetryClaim(s, now).Ok?
    ensures var t := RetryClaim(s, now).value;
            if s.request.status.RetryScheduled? && s.request.nextRetryAt.value <= now then
              && t.request == s.request.(status := RequestStatus.Dispatching, nextRetryAt := None, updatedAt := now,
                                         attemptCount := s.request.attemptCount + 1, version := s.request.version + 1)
              && Recorded(s, t, now)
            else t == s
  {
  }

  /** An operator schedules another attempt for now exactly when the request failed or is under review. */
  lemma OperatorRetryOutcome(s: Stored, now: real)
    requires FieldsAgree(s.request)
    ensures OperatorRetry(s, now).Ok?
    ensures var t := OperatorRetry(s, now).value;
            if s.request.status.Failed? || s.request.status.ManualReview? then
              && t.request == s.request.(status := RequestStatus.RetryScheduled, nextRetryAt := Some(now),
                                         completedAt := None, manualReviewReason := None, updatedAt := now,
                                         version := s.request.version + 1)
              && Recorded(s, t, now)
            else t == s
  {
  }

  /** What runs count: an operator's retry exactly when it is granted, and a claim, by the number of its attempt,
      exactly when the worker makes one. */
  lemma CountsOutcome(c: Config, s: System, now: real)
    requires FieldsAgree(s.stored.request)
    ensures var r, t := s.stored.request, Apply(c, s, RequestRetry(now));
            && t.operatorRetries == s.operatorRetries + (if r.status.Failed? || r.status.ManualReview? then 1 else 0)
            && t.claims == s.claims && t.answers == s.answers
    ensures var r, t := s.stored.request, Apply(c, s, WorkerClaim(now));
            && t.claims == s.claims + (if r.status.RetryScheduled? && r.nextRetryAt.value <= now
                                       then [r.attemptCount + 1] else [])
            && t.operatorRetries == s.operatorRetries && t.answers == s.answers
  {
    OperatorRetryOutcome(s.stored, now);
    RetryClaimOutcome(s.stored, now);
  }

  // ---- answers ----

  /** What an accepted answer makes of the attempt it settles. */
  lemma AcceptanceOutcome(s: Stored, result: ProviderResult, policy: RetryPolicy, jitter: real, now: real)
    requires s.request.status.Dispatching? && result.accepted
    ensures Settle(s, result, policy, jitter, now).Ok?
    ensures var r, t := s.request, Settle(s, result, policy, jitter, now).value;
            && Recorded(s, t, now)
            && match result.status
               case Succeeded => SucceededWith(r, t.request, result.reference, now)
               case Accepted | Pending =>
                 if Given(result.reference) then PendingUnder(r, t.request, result.reference.value, now)
                 else Reviewed(r, t.request, Fixed(AcceptedWithoutReference), now)
               case Cancelled =>
                 CancelledFor(r, t.request, Fixed(CancelledByProvider), now) &&
                 t.request.providerReference == r.providerReference
               case Failed | Unknown => Reviewed(r, t.request, Uninterpretable(result.providerStatus), now)
  {
  }

  /** What a rejected answer makes of the attempt it settles: another attempt while the policy has one left and the
      error is worth it, review when a timeout has used the last one up, failure otherwise. */
  lemma RejectedOutcome(s: Stored, result: ProviderResult, policy: RetryPolicy, jitter: real, now: real)
    requires FieldsAgree(s.request) && s.request.status.Dispatching? && !result.accepted && result.Valid()
    requires IsJitter(jitter)
    ensures Settle(s, result, policy, jitter, now).Ok?
    ensures var r, t, fault := s.request, Settle(s, result, policy, jitter, now).value, result.fault.value;
            && Recorded(s, t, now)
            && if fault.failure.retryable && r.attemptCount < policy.maxAttempts then
                 && Delay(policy, r.attemptCount, jitter, fault.retryAfterSeconds).Ok?
                 && Postponed(r, t.request, fault.failure,
                              now + Delay(policy, r.attemptCount, jitter, fault.retryAfterSeconds).value, now)
               else if fault.failure.retryable && fault.failure.category.ProviderTimeout? then
                 Reviewed(r, t.request, Fixed(AmbiguousTimeout), now)
               else
                 FailedWith(r, t.request, fault.failure, now) && t.request.providerReference == r.providerReference
  {
  }

  /** An answer that comes too late is noted; all it can still give is a reference that was missing. */
  lemma SupersededOutcome(s: Stored, result: ProviderResult, policy: RetryPolicy, jitter: real, now: real)
    requires !s.request.status.Dispatching?
    ensures Settle(s, result, policy, jitter, now).Ok?
    ensures var r, t := s.request, Settle(s, result, policy, jitter, now).value;
            && t.outbox == s.outbox && t.audit == s.audit + [AuditRow(Some(r.status), r.status, now)]
            && t.request ==
               if Given(result.reference) && !Given(r.providerReference)
               then r.(providerReference := result.reference, updatedAt := now, version := r.version + 1)
               else r
  {
  }

  // ---- reports ----

  /** What a report of forward progress makes of a request: the status it reports, with the reference it brings. */
  lemma ReportOutcome(r: Request, report: Report, now: real)
    requires ApplyReport(r, report, now).Ok? && ApplyReport(r, report, now).value.Some?
    ensures var t := ApplyReport(r, report, now).value.value;
            var linked := if Given(report.providerReference) && !Given(r.providerReference)
                          then r.(providerReference := report.providerReference) else r;
            match report.status
            case Succeeded => SucceededWith(r, t, report.providerReference, now)
            case Failed =>
              && FailedWith(r, t, if report.failure.Some? then report.failure.value else UNSPECIFIED_FAILURE, now)
              && t.providerReference == linked.providerReference
            case Cancelled =>
              CancelledFor(r, t, Fixed(CancelledByProvider), now) && t.providerReference == linked.providerReference
            case Accepted | Pending =>
              && Given(t.providerReference) && PendingUnder(r, t, t.providerReference.value, now)
              && t.providerReference ==
                 if Given(report.providerReference) then report.providerReference else r.providerReference
            case Unknown => false
  {
  }

  /** A report moves a request exactly when it tells something new that the table allows; otherwise it is noted. */
  lemma ReportedOutcome(s: Stored, report: Report, now: real)
    ensures ApplyReported(s, report, now).Ok?
    ensures var t := ApplyReported(s, report, now).value;
            var target := Project(report.status);
            if && target.Some? && target.value != s.request.status && CanTransition(s.request.status, target.value)
               && (target.value.Pending? ==> Given(report.providerReference) || Given(s.request.providerReference))
            then Recorded(s, t, now) && Some(t.request.status) == target
            else OnlyNoted(s, t, now)
  {
    ReportsNeverRaise(s.request, report, now);
  }

  // ---- reconciliation ----

  /** The provider is asked: the snapshot has a reference and the provider has a lookup. */
  predicate Asks(seen: Request, supportsLookup: bool) {
    seen.providerReference.Some? && supportsLookup
  }

  predicate CannotTell(seen: Request, supportsLookup: bool, lookup: Lookup) {
    Asks(seen, supportsLookup) ==> lookup.Unsupported?
  }

  /** The provider contradicts the row, says something nobody understands, or cannot tell for too long. */
  predicate CallsForReview(seen: Request, supportsLookup: bool, lookup: Lookup, reviewAfter: real, now: real) {
    || (Asks(seen, supportsLookup) && lookup.Unrecognised?)
    || (Asks(seen, supportsLookup) && lookup.Answer? && lookup.result.status.Unknown?)
    || (CannotTell(seen, supportsLookup, lookup) && now - seen.updatedAt >= reviewAfter)
  }

  function ReviewReason(seen: Request, supportsLookup: bool, lookup: Lookup): (r: Text) {
    if seen.providerReference.None? then Fixed(NoReferenceForTooLong)
    else if !supportsLookup then Fixed(NoStatusLookup)
    else match lookup
      case Unsupported => Fixed(LookupUnsupported)
      case Answer(result) => Uninterpretable(result.providerStatus)
      case Unrecognised | Unreachable => Fixed(ReferenceNotRecognised)
  }

  predicate Reviewable(r: Request) {
    !r.status.ManualReview? && !r.status.Succeeded? && !r.status.Cancelled?
  }

  /** An escalation sends an open row to review and leaves any other as it is. */
  lemma EscalateOutcome(s: Stored, reason: Text, now: real)
    requires FieldsAgree(s.request) && s.request.attemptCount > 0
    ensures var r := Escalate(s, reason, now);
            && r.Ok?
            && (if Reviewable(s.request)
                then Reviewed(s.request, r.value.request, reason, now) && Recorded(s, r.value, now)
                else r.value == s)
  {
  }

  lemma ReconcileEscalates(s: Stored, seen: Request, supportsLookup: bool, lookup: Lookup, reviewAfter: real, now: real)
    requires !(Asks(seen, supportsLookup) && lookup.Answer? && !lookup.result.status.Unknown?)
    ensures Reconcile(s, seen, supportsLookup, lookup, reviewAfter, now) ==
            if CallsForReview(seen, supportsLookup, lookup, reviewAfter, now)
            then Escalate(s, ReviewReason(seen, supportsLookup, lookup), now) else Ok(s)
  {
  }

  /** Reconciling a dispatched request, on the strength of any older snapshot. It newly enters review exactly when the
      row is open and one of the three reasons holds, which is then recorded; an answer that can be read does what a
      webhook with its content does; in every other case row and journal stay as they are. */
  lemma ReconcileOutcome(s: Stored, seen: Request, supportsLookup: bool, lookup: Lookup, reviewAfter: real, now: real)
    requires FieldsAgree(s.request) && s.request.attemptCount > 0
    ensures var r := Reconcile(s, seen, supportsLookup, lookup, reviewAfter, now);
            && r.Ok?
            && (!s.request.status.ManualReview? && r.value.request.status.ManualReview? <==>
                Reviewable(s.request) && CallsForReview(seen, supportsLookup, lookup, reviewAfter, now))
            && (if Asks(seen, supportsLookup) && lookup.Answer? && !lookup.result.status.Unknown? then
                  r == ApplyReported(s, Report(lookup.result.status, lookup.result.reference,
                                               if lookup.result.fault.Some? then Some(lookup.result.fault.value.failure)
                                               else None), now)
                else if Reviewable(s.request) && CallsForReview(seen, supportsLookup, lookup, reviewAfter, now) then
                  && Reviewed(s.request, r.value.request, ReviewReason(seen, supportsLookup, lookup), now)
                  && Recorded(s, r.value, now)
                else r.value == s)
  {
    if Asks(seen, supportsLookup) && lookup.Answer? && !lookup.result.status.Unknown? {
      ReportedOutcome(s, ResultReport(lookup.result), now);
    } else {
      EscalateOutcome(s, ReviewReason(seen, supportsLookup, lookup), now);
      ReconcileEscalates(s, seen, supportsLookup, lookup, reviewAfter, now);
    }
  }

  // ---- cancellation ----

  /** An operator's words, or the wording of the code. */
  function Reason(reason: Option<string>, otherwise: Wording): (r: Text) {
    if reason.Some? && reason.value != "" then Words(reason.value) else Fixed(otherwise)
  }

  /** The first transaction cancels on the spot exactly when the request may be cancelled and the provider knows nothing
      of it; otherwise it leaves the row. */
  lemma CancelFirstOutcome(s: Stored, supportsCancellation: bool, reason: Option<string>, now: real)
    ensures var r := CancelFirst(s, supportsCancellation, reason, now);
            && r.Ok?
            && (if && !s.request.status.Dispatching? && !s.request.status.Succeeded? && !s.request.status.Cancelled?
                   && (s.request.status.Pending? ==> supportsCancellation) && s.request.providerReference.None?
                then
                  && CancelledFor(s.request, r.value.request, Reason(reason, CancelledBeforeDispatch), now)
                  && r.value.request.providerReference.None? && Recorded(s, r.value, now)
                else r.value == s)
  {
  }

  /** After the second transaction the request is cancelled exactly when it was before, or was not finished and the
      provider agreed to stop; in every other case the answer is only noted. */
  lemma CancelCommitOutcome(s: Stored, result: ProviderResult, reason: Option<string>, now: real)
    requires FieldsAgree(s.request)
    ensures var r := CancelCommit(s, result, reason, now);
            var agreed := result.accepted && (result.status.Cancelled? || result.status.Accepted?);
            && r.Ok?
            && (r.value.request.status.Cancelled? <==>
                s.request.status.Cancelled? || (!s.request.status.Succeeded? && agreed))
            && (if agreed && !s.request.status.Succeeded? && !s.request.status.Cancelled? then
                  && CancelledFor(s.request, r.value.request, Reason(reason, CancelledAtProvider), now)
                  && r.value.request.providerReference == s.request.providerReference && Recorded(s, r.value, now)
                else OnlyNoted(s, r.value, now))
  {
  }

  // ---- the transition table ----

  /** Terminal statuses are the ones without a way out, and each named set of statuses has the moves it is named for. */
  lemma TableFacts(current: RequestStatus)
    ensures current.IsTerminal() <==> forall next :: !CanTransition(current, next)
    ensures current.IsCancellable() ==> CanTransition(current, RequestStatus.Cancelled)
    ensures CanTransition(current, RequestStatus.Cancelled) ==> current.IsCancellable() || current.Dispatching?
    ensures current.IsManuallyRetryable() ==> CanTransition(current, RequestStatus.RetryScheduled)
    ensures CanTransition(current, RequestStatus.RetryScheduled) ==>
              current.IsManuallyRetryable() || current.Dispatching?
    ensures current.IsReconcilable() ==>
              CanTransition(current, RequestStatus.ManualReview) && CanTransition(current, RequestStatus.Succeeded) &&
              CanTransition(current, RequestStatus.Failed)
    ensures !CanTransition(current, RequestStatus.Received) && !CanTransition(current, current)
  {
    if !current.IsTerminal() {
      assert CanTransition(current, RequestStatus.Failed) || CanTransition(current, RequestStatus.RetryScheduled) ||
             CanTransition(current, RequestStatus.ManualReview);
    }
  }

  /** From where each status can be reached. */
  lemma RequestSources(current: RequestStatus, next: RequestStatus)
    ensures CanTransition(current, next) <==>
      match next
      case Received => false
      case Validating => current.Received?
      case Dispatching => current.Validating? || current.RetryScheduled? || current.ManualReview?
      case Pending => current.Dispatching?
      case Succeeded => current.Dispatching? || current.Pending? || current.ManualReview?
      case Failed =>
        current.Received? || current.Validating? || current.Dispatching? || current.Pending? ||
        current.RetryScheduled? || current.ManualReview?
      case RetryScheduled => current.Dispatching? || current.Failed? || current.ManualReview?
      case Cancelled => !current.Succeeded? && !current.Cancelled?
      case ManualReview => current.Dispatching? || current.Pending? || current.Failed? || current.RetryScheduled?
  {
  }
}
