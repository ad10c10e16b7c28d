/** The integration request entity: its fields and the mutators that change them.
    A mutator that raises leaves nothing behind, because its transaction aborts. */
module Requests {
  import opened Common
  import opened RequestStates

  datatype ErrorCategory =
    | Validation | Authentication | Authorization | ProviderValidation | ProviderAuthentication | ProviderRateLimit
    | ProviderTimeout | ProviderUnavailable | Conflict | NotFound | UnsupportedOperation | Internal

  /** The fixed wordings the code itself writes; everything else is text it was handed. */
  datatype Wording =
    | UnspecifiedCode | UnspecifiedMessage | MissingErrorCode | MissingErrorMessage
    | CancelledByProvider | CancelledBeforeDispatch | CancelledAtProvider
    | AcceptedWithoutReference | AmbiguousTimeout | NoReferenceForTooLong | NoStatusLookup
    | LookupUnsupported | ReferenceNotRecognised

  /** `Uninterpretable` quotes the provider status it could not read. */
  datatype Text = Words(text: string) | Fixed(wording: Wording) | Uninterpretable(providerStatus: Option<string>)

  datatype Failure = Failure(
    code: Text,
    message: Text,
    category: ErrorCategory,
    retryable: bool,
    providerCode: Option<string>)

  const UNSPECIFIED_FAILURE :=
    Failure(Fixed(UnspecifiedCode), Fixed(UnspecifiedMessage), ProviderUnavailable, false, None)

  /** What a webhook or a status poll says about a request. */
  datatype Report = Report(status: NormalizedStatus, providerReference: Option<string>, failure: Option<Failure>)

  datatype Request = Request(
    status: RequestStatus,
    providerReference: Option<string>,
    attemptCount: nat,
    errorCode: Option<Text>,
    errorMessage: Option<Text>,
    errorCategory: Option<ErrorCategory>,
    nextRetryAt: Option<real>,
    completedAt: Option<real>,
    manualReviewReason: Option<Text>,
    updatedAt: real,
    version: nat)

  /** The source tests optional strings for truth, so the empty string counts as absent. */
  predicate Given(text: Option<string>) {
    text.Some? && text.value != ""
  }

  predicate Worded(reason: Option<Text>) {
    reason.Some? && reason.value != Words("")
  }

  function Created(now: real): (r: Request) {
    Request(RequestStatus.Received, None, 0, None, None, None, None, None, None, now, 0)
  }

  function Touch(r: Request, now: real): (after: Request) {
    r.(updatedAt := now, version := r.version + 1)
  }

  function Transition(r: Request, next: RequestStatus, now: real): (after: Outcome<Request>) {
    if CanTransition(r.status, next) then Ok(Touch(r.(status := next), now)) else Raised
  }

  function ClearError(r: Request): (after: Request) {
    r.(errorCode := None, errorMessage := None, errorCategory := None)
  }

  function WithFailure(r: Request, f: Failure): (after: Request) {
    r.(errorCode := Some(f.code), errorMessage := Some(f.message), errorCategory := Some(f.category))
  }

  function BeginValidation(r: Request, now: real): (after: Outcome<Request>) {
    Transition(r, RequestStatus.Validating, now)
  }

  function BeginDispatch(r: Request, now: real): (after: Outcome<Request>) {
    var t :- Transition(r, RequestStatus.Dispatching, now);
    Ok(t.(attemptCount := t.attemptCount + 1, nextRetryAt := None))
  }

  function MarkAccepted(r: Request, reference: string, now: real): (after: Outcome<Request>) {
    if reference == "" then Raised else
      var t :- Transition(r, RequestStatus.Pending, now);
      Ok(ClearError(t.(providerReference := Some(reference))))
  }

  function MarkSucceeded(r: Request, reference: Option<string>, now: real): (after: Outcome<Request>) {
    var t :- Transition(r, RequestStatus.Succeeded, now);
    var linked := if Given(reference) then t.(providerReference := reference) else t;
    Ok(ClearError(linked.(completedAt := Some(now), nextRetryAt := None)))
  }

  function MarkFailed(r: Request, failure: Failure, now: real): (after: Outcome<Request>) {
    var t :- Transition(r, RequestStatus.Failed, now);
    Ok(WithFailure(t, failure).(completedAt := Some(now), nextRetryAt := None))
  }

  function ScheduleRetry(r: Request, failure: Failure, retryAt: real, now: real): (after: Outcome<Request>) {
    var t :- Transition(r, RequestStatus.RetryScheduled, now);
    Ok(WithFailure(t, failure).(nextRetryAt := Some(retryAt), completedAt := None))
  }

  function MarkCancelled(r: Request, reason: Option<Text>, now: real): (after: Outcome<Request>) {
    var t :- Transition(r, RequestStatus.Cancelled, now);
    var done := t.(completedAt := Some(now), nextRetryAt := None);
    Ok(if Worded(reason) then done.(manualReviewReason := None, errorMessage := reason) else done)
  }

  function MarkManualReview(r: Request, reason: Text, now: real): (after: Outcome<Request>) {
    var t :- Transition(r, RequestStatus.ManualReview, now);
    Ok(t.(manualReviewReason := Some(reason), nextRetryAt := None))
  }

  function RestoreForRetry(r: Request, retryAt: real, now: real): (after: Outcome<Request>) {
    var t :- Transition(r, RequestStatus.RetryScheduled, now);
    Ok(t.(nextRetryAt := Some(retryAt), completedAt := None, manualReviewReason := None))
  }

  /** Raises on an empty reference and on one that contradicts the link already made. */
  function AttachReference(r: Request, reference: string, now: real): (after: Outcome<Request>) {
    if reference == "" || (Given(r.providerReference) && r.providerReference != Some(reference)) then Raised
    else Ok(Touch(r.(providerReference := Some(reference)), now))
  }

  /** Applies a provider report. `None` means the report carries no forward progress. */
  function ApplyReport(r: Request, report: Report, now: real): (after: Outcome<Option<Request>>) {
    var target := Project(report.status);
    if target.None? || !IsForwardProgress(r.status, target.value) then Ok(None) else
      var linked :=
        if Given(report.providerReference) && !Given(r.providerReference)
        then r.(providerReference := report.providerReference) else r;
      match target.value
      case Succeeded =>
        var t :- MarkSucceeded(linked, report.providerReference, now); Ok(Some(t))
      case Failed =>
        var failure := if report.failure.Some? then report.failure.value else UNSPECIFIED_FAILURE;
        var t :- MarkFailed(linked, failure, now); Ok(Some(t))
      case Cancelled =>
        var t :- MarkCancelled(linked, Some(Fixed(CancelledByProvider)), now); Ok(Some(t))
      case Pending =>
        var reference := if Given(report.providerReference) then report.providerReference else linked.providerReference;
        if !Given(reference) then Ok(None) else
          var t :- MarkAccepted(linked, reference.value, now); Ok(Some(t))
      case _ => Ok(None)
  }

  predicate IsDue(r: Request, now: real) {
    r.status.RetryScheduled? && r.nextRetryAt.Some? && r.nextRetryAt.value <= now
  }

  // ---- what every committed row satisfies ----

  /** The promises the fields make about the status in every committed row. */
  predicate FieldsAgree(r: Request) {
    && !r.status.Validating?
    && (r.nextRetryAt.Some? <==> r.status.RetryScheduled?)
    && (r.status.Pending? ==> Given(r.providerReference))
    && (r.status.Succeeded? || r.status.Failed? || r.status.Cancelled? ==> r.completedAt.Some?)
    && (r.status.Received? || r.status.Dispatching? || r.status.Pending? || r.status.RetryScheduled?
        ==> r.completedAt.None?)
    && (r.providerReference.Some? ==> Given(r.providerReference) && r.attemptCount > 0)
    && (r.status.Received? ==> r.attemptCount == 0)
    && (!r.status.Received? && !r.status.Cancelled? ==> r.attemptCount > 0)
  }

  /** A report never attempts an illegal transition, whatever the row it meets. */
  lemma ReportsNeverRaise(r: Request, report: Report, now: real)
    ensures ApplyReport(r, report, now).Ok?
    ensures ApplyReport(r, report, now).value.Some? <==>
            Project(report.status).Some? && IsForwardProgress(r.status, Project(report.status).value) &&
            (Project(report.status).value.Pending? ==> Given(report.providerReference) || Given(r.providerReference))
    ensures var after := ApplyReport(r, report, now).value;
            after.Some? ==>
              && Some(after.value.status) == Project(report.status)
              && after.value.version == r.version + 1
              && after.value.attemptCount == r.attemptCount
  {
  }
}
