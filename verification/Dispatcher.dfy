/** The integration request as the object its methods update in place. Every mutator is proved against the
    function that specifies it; one that raises leaves the object as it was. */
module IntegrationRequests {
  import opened Common
  import opened RequestStates
  import opened Requests
  import opened RequestOutcomes

  class IntegrationRequest {
    var status: RequestStatus
    var providerReference: Option<string>
    var attemptCount: nat
    var errorCode: Option<Text>
    var errorMessage: Option<Text>
    var errorCategory: Option<ErrorCategory>
    var nextRetryAt: Option<real>
    var completedAt: Option<real>
    var manualReviewReason: Option<Text>
    var updatedAt: real
    var version: nat

    function Value(): (r: Request)
      reads this
    {
      Request(status, providerReference, attemptCount, errorCode, errorMessage, errorCategory, nextRetryAt, completedAt,
              manualReviewReason, updatedAt, version)
    }

    /** The method raised exactly when its specification does, and otherwise left the specified value. */
    twostate predicate Did(raised: bool, spec: Outcome<Request>)
      reads this
    {
      (raised <==> spec.Raised?) && Value() == if spec.Raised? then old(Value()) else spec.value
    }

    /** What callers rely on besides the new value: a row whose fields agree with its status keeps agreeing once it has
        left `received`, no attempt is counted, and the version grows by one exactly when the method went through. */
    twostate predicate Keeps(raised: bool)
      reads this
    {
      && (FieldsAgree(old(Value())) && !old(status).Received? ==> FieldsAgree(Value()))
      && attemptCount == old(attemptCount)
      && version == old(version) + (if raised then 0 else 1)
    }

    constructor (now: real)
      ensures Value() == Created(now)
    {
      status, providerReference, attemptCount := RequestStatus.Received, None, 0;
      errorCode, errorMessage, errorCategory := None, None, None;
      nextRetryAt, completedAt, manualReviewReason := None, None, None;
      updatedAt, version := now, 0;
    }

    method TouchAt(now: real)
      modifies this
      ensures Value() == Touch(old(Value()), now)
    {
      updatedAt := now;
      version := version + 1;
    }

    method TransitionTo(next: RequestStatus, now: real) returns (raised: bool)
      modifies this
      ensures Did(raised, Transition(old(Value()), next, now))
    {
      raised := !CanTransition(status, next);
      if !raised {
        status := next;
        TouchAt(now);
      }
    }

    method ForgetError()
      modifies this
      ensures Value() == ClearError(old(Value()))
    {
      errorCode, errorMessage, errorCategory := None, None, None;
    }

    method NoteFailure(f: Failure)
      modifies this
      ensures Value() == WithFailure(old(Value()), f)
    {
      errorCode, errorMessage, errorCategory := Some(f.code), Some(f.message), Some(f.category);
    }

    method BeginDispatching(now: real) returns (raised: bool)
      modifies this
      ensures Did(raised, BeginDispatch(old(Value()), now))
      ensures raised <==> !CanTransition(old(status), RequestStatus.Dispatching)
      ensures !raised ==> Value() == old(Value()).(
        status := RequestStatus.Dispatching, attemptCount := old(attemptCount) + 1, nextRetryAt := None,
        updatedAt := now, version := old(version) + 1)
    {
      raised := TransitionTo(RequestStatus.Dispatching, now);
      if !raised {
        attemptCount := attemptCount + 1;
        nextRetryAt := None;
      }
    }

    method Accept(reference: string, now: real) returns (raised: bool)
      modifies this
      ensures Did(raised, MarkAccepted(old(Value()), reference, now)) && Keeps(raised)
      ensures raised <==> reference == "" || !CanTransition(old(status), RequestStatus.Pending)
      ensures !raised ==> PendingUnder(old(Value()), Value(), reference, now)
    {
      if reference == "" {
        return true;
      }
      raised := TransitionTo(RequestStatus.Pending, now);
      if !raised {
        providerReference := Some(reference);
        ForgetError();
      }
    }

    method Succeed(reference: Option<string>, now: real) returns (raised: bool)
      modifies this
      ensures Did(raised, MarkSucceeded(old(Value()), reference, now)) && Keeps(raised)
      ensures raised <==> !CanTransition(old(status), RequestStatus.Succeeded)
      ensures !raised ==> SucceededWith(old(Value()), Value(), reference, now)
    {
      raised := TransitionTo(RequestStatus.Succeeded, now);
      if !raised {
        if Given(reference) {
          providerReference := reference;
        }
        completedAt, nextRetryAt := Some(now), None;
        ForgetError();
      }
    }

    method Fail(failure: Failure, now: real) returns (raised: bool)
      modifies this
      ensures Did(raised, MarkFailed(old(Value()), failure, now)) && Keeps(raised)
      ensures raised <==> !CanTransition(old(status), RequestStatus.Failed)
      ensures !raised ==>
        FailedWith(old(Value()), Value(), failure, now) && providerReference == old(providerReference)
    {
      raised := TransitionTo(RequestStatus.Failed, now);
      if !raised {
        NoteFailure(failure);
        completedAt, nextRetryAt := Some(now), None;
      }
    }

    method Postpone(failure: Failure, retryAt: real, now: real) returns (raised: bool)
      modifies this
      ensures Did(raised, ScheduleRetry(old(Value()), failure, retryAt, now)) && Keeps(raised)
      ensures raised <==> !CanTransition(old(status), RequestStatus.RetryScheduled)
      ensures !raised ==> Postponed(old(Value()), Value(), failure, retryAt, now)
    {
      raised := TransitionTo(RequestStatus.RetryScheduled, now);
      if !raised {
        NoteFailure(failure);
        nextRetryAt, completedAt := Some(retryAt), None;
      }
    }

    method Cancel(reason: Option<Text>, now: real) returns (raised: bool)
      modifies this
      ensures Did(raised, MarkCancelled(old(Value()), reason, now)) && Keeps(raised)
      ensures raised <==> !CanTransition(old(status), RequestStatus.Cancelled)
      ensures !raised ==>
        && CancelledFor(old(Value()), Value(), if reason.Some? then reason.value else Words(""), now)
        && providerReference == old(providerReference)
    {
      raised := TransitionTo(RequestStatus.Cancelled, now);
      if !raised {
        completedAt, nextRetryAt := Some(now), None;
        if Worded(reason) {
          manualReviewReason, errorMessage := None, reason;
        }
      }
    }

    method Review(reason: Text, now: real) returns (raised: bool)
      modifies this
      ensures Did(raised, MarkManualReview(old(Value()), reason, now)) && Keeps(raised)
      ensures raised <==> !CanTransition(old(status), RequestStatus.ManualReview)
      ensures !raised ==> Reviewed(old(Value()), Value(), reason, now)
    {
      raised := TransitionTo(RequestStatus.ManualReview, now);
      if !raised {
        manualReviewReason, nextRetryAt := Some(reason), None;
      }
    }

    method Restore(retryAt: real, now: real) returns (raised: bool)
      modifies this
      ensures Did(raised, RestoreForRetry(old(Value()), retryAt, now)) && Keeps(raised)
      ensures raised <==> !CanTransition(old(status), RequestStatus.RetryScheduled)
      ensures !raised ==> Value() == old(Value()).(
        status := RequestStatus.RetryScheduled, nextRetryAt := Some(retryAt), completedAt := None,
        manualReviewReason := None, updatedAt := now, version := old(version) + 1)
    {
      raised := TransitionTo(RequestStatus.RetryScheduled, now);
      if !raised {
        nextRetryAt, completedAt, manualReviewReason := Some(retryAt), None, None;
      }
    }

    method Attach(reference: string, now: real) returns (raised: bool)
      modifies this
      ensures Did(raised, AttachReference(old(Value()), reference, now))
      ensures raised <==>
        reference == "" || (Given(old(providerReference)) && old(providerReference) != Some(reference))
      ensures !raised ==> Value() == old(Value()).(
        providerReference := Some(reference), updatedAt := now, version := old(version) + 1)
    {
      if reference == "" || (Given(providerReference) && providerReference != Some(reference)) {
        return true;
      }
      providerReference := Some(reference);
      TouchAt(now);
      return false;
    }

    /** Applies a provider report in place. It never raises, and a report without forward progress changes nothing,
        although the reference is linked before the transition is tried. */
    method ApplyStatus(report: Report, now: real) returns (moved: bool)
      modifies this
      ensures moved <==> ApplyReport(old(Value()), report, now).value.Some?
      ensures Value() == if moved then ApplyReport(old(Value()), report, now).value.value else old(Value())
    {
      var target := Project(report.status);
      if target.None? || !IsForwardProgress(status, target.value) {
        return false;
      }
      if Given(report.providerReference) && !Given(providerReference) {
        providerReference := report.providerReference;
      }
      var raised := false;
      match target.value {
        case Succeeded => raised := Succeed(report.providerReference, now);
        case Failed => raised := Fail(if report.failure.Some? then report.failure.value else UNSPECIFIED_FAILURE, now);
        case Cancelled => raised := Cancel(Some(Fixed(CancelledByProvider)), now);
        case Pending =>
          var reference := if Given(report.providerReference) then report.providerReference else providerReference;
          if !Given(reference) {
            return false;
          }
          raised := Accept(reference.value, now);
        case _ =>
          return false;
      }
      return true;
    }
  }
}

/** The units of work that move a request: each loads the row under its lock, changes the entity in place, writes
    audit and outbox rows beside it, and commits. A unit of work that raises is rolled back. */
module RequestDispatching {
  import opened Common
  import opened RequestStates
  import opened RetryPolicies
  import opened Requests
  import opened RequestTransactions
  import opened IntegrationRequests
  import opened Selection

  class UnitOfWork {
    const request: IntegrationRequest
    var audit: seq<AuditRow>
    var outbox: seq<Event>

    function Contents(): (s: Stored)
      reads this, request
    {
      Stored(request.Value(), audit, outbox)
    }

    /** The unit of work commits what its specification says, and raises exactly when that does. */
    twostate predicate Commits(raised: bool, spec: Outcome<Stored>)
      reads this, request
    {
      (raised <==> spec.Raised?) && (!raised ==> Contents() == spec.value)
    }

    constructor Create(now: real)
      ensures Contents() == RequestTransactions.Create(now) && fresh(request)
    {
      request := new IntegrationRequest(now);
      audit := [AuditRow(None, RequestStatus.Received, now)];
      outbox := [Event(None, RequestStatus.Received, now)];
      new;
      NoteAction(now);
    }

    method NoteTransition(from: RequestStatus, now: real, publish: bool)
      modifies this
      ensures Contents() == RecordTransition(old(Contents()), from, old(request.Value()), now, publish)
    {
      audit := audit + [AuditRow(Some(from), request.status, now)];
      if publish {
        outbox := outbox + [Event(Some(from), request.status, now)];
      }
    }

    method NoteAction(now: real)
      modifies this
      ensures Contents() == RecordAction(old(Contents()), now)
    {
      audit := audit + [AuditRow(Some(request.status), request.status, now)];
    }

    method ClaimForDispatch(now: real) returns (raised: bool)
      modifies this, request
      ensures Commits(raised, Claim(old(Contents()), now))
    {
      var from := request.status;
      raised := request.BeginDispatching(now);
      if !raised {
        NoteTransition(from, now, true);
      }
    }

    method DispatchTransaction(now: real) returns (raised: bool)
      modifies this, request
      ensures Commits(raised, Dispatch(old(Contents()), now))
    {
      if request.status.Received? {
        var refused := request.TransitionTo(RequestStatus.Validating, now);
        NoteTransition(RequestStatus.Received, now, false);
      }
      raised := ClaimForDispatch(now);
    }

    method ApplyAcceptance(result: ProviderResult, now: real) returns (raised: bool)
      modifies this, request
      ensures Commits(raised, Commit(old(Contents()), Acceptance(old(request.Value()), result, now), now))
    {
      var from := request.status;
      if result.status.Succeeded? {
        raised := request.Succeed(result.reference, now);
      } else if result.status.Accepted? || result.status.Pending? {
        if !Given(result.reference) {
          raised := request.Review(Fixed(AcceptedWithoutReference), now);
        } else {
          raised := request.Accept(result.reference.value, now);
        }
      } else if result.status.Cancelled? {
        raised := request.Cancel(Some(Fixed(CancelledByProvider)), now);
      } else {
        raised := request.Review(Uninterpretable(result.providerStatus), now);
      }
      if !raised {
        NoteTransition(from, now, true);
      }
    }

    method ApplyFailure(result: ProviderResult, policy: RetryPolicy, jitter: real, now: real) returns (raised: bool)
      modifies this, request
      ensures Commits(raised,
                      Commit(old(Contents()), Rejection(old(request.Value()), result, policy, jitter, now), now))
    {
      var from := request.status;
      var fault := if result.fault.Some? then result.fault.value else MISSING_FAULT;
      var failure := fault.failure;
      if ShouldRetry(policy, request.attemptCount, failure.retryable) {
        var delay := Delay(policy, request.attemptCount, jitter, fault.retryAfterSeconds);
        if delay.Raised? {
          return true;
        }
        raised := request.Postpone(failure, now + delay.value, now);
      } else {
        var exhausted := failure.retryable && request.attemptCount >= policy.maxAttempts;
        if exhausted && failure.category.ProviderTimeout? {
          raised := request.Review(Fixed(AmbiguousTimeout), now);
        } else {
          raised := request.Fail(failure, now);
        }
      }
      if !raised {
        NoteTransition(from, now, true);
      }
    }

    method RecordSuperseded(result: ProviderResult, now: real) returns (raised: bool)
      modifies this, request
      ensures Commits(raised, Superseded(old(Contents()), result, now))
    {
      raised := false;
      if Given(result.reference) && !Given(request.providerReference) {
        raised := request.Attach(result.reference.value, now);
      }
      if !raised {
        NoteAction(now);
      }
    }

    /** The settling transaction of a dispatch attempt. */
    method CompleteAttempt(result: ProviderResult, policy: RetryPolicy, jitter: real, now: real) returns (raised: bool)
      modifies this, request
      ensures Commits(raised, Settle(old(Contents()), result, policy, jitter, now))
    {
      if !request.status.Dispatching? {
        raised := RecordSuperseded(result, now);
      } else if result.accepted {
        raised := ApplyAcceptance(result, now);
      } else {
        raised := ApplyFailure(result, policy, jitter, now);
      }
    }

    /** A webhook or a status poll; a report without forward progress is noted and changes nothing. */
    method ApplyProviderState(report: Report, now: real)
      modifies this, request
      ensures Commits(false, ApplyReported(old(Contents()), report, now))
    {
      var from := request.status;
      ReportsNeverRaise(request.Value(), report, now);
      var moved := request.ApplyStatus(report, now);
      if moved {
        NoteTransition(from, now, true);
      } else {
        NoteAction(now);
      }
    }

    method EscalateTransaction(reason: Text, now: real) returns (raised: bool)
      modifies this, request
      ensures Commits(raised, Escalate(old(Contents()), reason, now))
    {
      if request.status.ManualReview? || request.status.IsTerminal() {
        return false;
      }
      var from := request.status;
      raised := request.Review(reason, now);
      if !raised {
        NoteTransition(from, now, true);
      }
    }

    method ReconcileTransaction(seen: Request, supportsLookup: bool, lookup: Lookup, reviewAfter: real, now: real)
      returns (raised: bool)
      modifies this, request
      ensures Commits(raised, Reconcile(old(Contents()), seen, supportsLookup, lookup, reviewAfter, now))
    {
      var waiting := now - seen.updatedAt < reviewAfter;
      if seen.providerReference.None? {
        if waiting {
          return false;
        }
        raised := EscalateTransaction(Fixed(NoReferenceForTooLong), now);
      } else if !supportsLookup {
        if waiting {
          return false;
        }
        raised := EscalateTransaction(Fixed(NoStatusLookup), now);
      } else if lookup.Unrecognised? {
        raised := EscalateTransaction(Fixed(ReferenceNotRecognised), now);
      } else if lookup.Unsupported? {
        if waiting {
          return false;
        }
        raised := EscalateTransaction(Fixed(LookupUnsupported), now);
      } else if lookup.Unreachable? {
        return false;
      } else if lookup.result.status.Unknown? {
        raised := EscalateTransaction(Uninterpretable(lookup.result.providerStatus), now);
      } else {
        ApplyProviderState(ResultReport(lookup.result), now);
        return false;
      }
    }

    /** The first cancellation transaction: refused, settled here, or left for the provider to answer. */
    method CancelTransaction(supportsCancellation: bool, reason: Option<string>, now: real)
      returns (raised: bool, refused: bool, askProvider: bool)
      modifies this, request
      ensures Commits(raised, CancelFirst(old(Contents()), supportsCancellation, reason, now))
      ensures refused <==> !MayCancel(old(request.Value()), supportsCancellation)
      ensures askProvider <==> !refused && old(request.providerReference).Some?
    {
      var r := request.status;
      if !r.IsCancellable() || (r.Pending? && !supportsCancellation) {
        return false, true, false;
      }
      if request.providerReference.Some? {
        return false, false, true;
      }
      raised := request.Cancel(Some(CancelReason(reason, CancelledBeforeDispatch)), now);
      if !raised {
        NoteTransition(r, now, true);
      }
      return raised, false, false;
    }

    method CancelCommitTransaction(result: ProviderResult, reason: Option<string>, now: real) returns (raised: bool)
      modifies this, request
      ensures Commits(raised, CancelCommit(old(Contents()), result, reason, now))
    {
      if request.status.IsTerminal() {
        NoteAction(now);
        return false;
      }
      if result.accepted && (result.status.Cancelled? || result.status.Accepted?) {
        var from := request.status;
        raised := request.Cancel(Some(CancelReason(reason, CancelledAtProvider)), now);
        if !raised {
          NoteTransition(from, now, true);
        }
        return;
      }
      NoteAction(now);
      return false;
    }

    method RetryTransaction(now: real) returns (raised: bool, refused: bool)
      modifies this, request
      ensures Commits(raised, OperatorRetry(old(Contents()), now))
      ensures refused <==> !old(request.status).IsManuallyRetryable()
    {
      if !request.status.IsManuallyRetryable() {
        return false, true;
      }
      var from := request.status;
      raised := request.Restore(now, now);
      if !raised {
        NoteTransition(from, now, true);
      }
      return raised, false;
    }
  }

  /** The rows due for a retry that nobody else has locked, each with its retry time. */
  function Due(rows: map<nat, Stored>, locked: set<nat>, now: real): (due: map<nat, real>)
    ensures forall id :: id in due <==> id in rows && id !in locked && IsDue(rows[id].request, now)
    ensures forall id :: id in due ==> rows[id].request.nextRetryAt == Some(due[id])
  {
    map id | id in rows && id !in locked && IsDue(rows[id].request, now) :: rows[id].request.nextRetryAt.value
  }

  predicate ClaimedAs(before: Stored, after: Stored, now: real) {
    Claim(before, now) == Ok(after)
  }

  method ClaimDue(row: Stored, now: real) returns (after: Stored)
    requires IsDue(row.request, now)
    ensures ClaimedAs(row, after, now)
  {
    after := Claim(row, now).value;
  }

  /** Every row of the batch is claimed as its specification says, every other row stays. */
  predicate BatchClaimed(rows: map<nat, Stored>, after: map<nat, Stored>, batch: seq<nat>, now: real) {
    && after.Keys == rows.Keys
    && (forall id :: id in rows && id in batch ==> ClaimedAs(rows[id], after[id], now))
    && (forall id :: id in rows && id !in batch ==> after[id] == rows[id])
  }

  lemma OneMoreClaimed(rows: map<nat, Stored>, after: map<nat, Stored>, batch: seq<nat>, id: nat, row: Stored,
                       now: real)
    requires BatchClaimed(rows, after, batch, now) && id in rows && ClaimedAs(rows[id], row, now)
    ensures BatchClaimed(rows, after[id := row], batch + [id], now)
  {
  }

  /** The retry worker's transaction: the due rows, earliest first and up to the limit, are each claimed once; none
      raises, and no other row changes. */
  method ClaimBatch(rows: map<nat, Stored>, locked: set<nat>, now: real, limit: nat)
    returns (after: map<nat, Stored>, claimed: seq<nat>)
    ensures IsFirst(Due(rows, locked, now), limit, claimed)
    ensures BatchClaimed(rows, after, claimed, now)
  {
    claimed := SelectFirst(Due(rows, locked, now), limit);
    after := ClaimAll(rows, claimed, now);
  }

  method ClaimAll(rows: map<nat, Stored>, batch: seq<nat>, now: real) returns (after: map<nat, Stored>)
    requires Distinct(batch) && forall id :: id in batch ==> id in rows && IsDue(rows[id].request, now)
    ensures BatchClaimed(rows, after, batch, now)
  {
    after := rows;
    var i := 0;
    while i < |batch|
      invariant 0 <= i <= |batch|
      invariant BatchClaimed(rows, after, batch[..i], now)
    {
      var id := batch[i];
      assert id in batch && id !in batch[..i];
      if after[id].request.status.RetryScheduled? {
        var row := ClaimDue(after[id], now);
        OneMoreClaimed(rows, after, batch[..i], id, row, now);
        after := after[id := row];
      }
      assert batch[..i + 1] == batch[..i] + [id];
      i := i + 1;
    }
    assert batch[..i] == batch;
  }

  /** The bounded in-process retry loop around one provider call. `replies` plays the adapter. */
  method Guarded(refusal: Option<ProviderFault>, replies: nat -> Reply, retryInProcess: bool)
    returns (reply: Reply, calls: nat)
    ensures refusal.Some? ==> calls == 0 && reply == Threw(refusal.value)
    ensures refusal.None? ==> calls == LastAttempt(replies, 1, InProcessAttempts(retryInProcess))
    ensures refusal.None? ==> reply == replies(calls)
    ensures calls <= if retryInProcess then 2 else 1
    ensures forall k :: 1 <= k < calls ==> replies(k).Threw? && RetryableInProcess(replies(k).fault)
  {
    if refusal.Some? {
      return Threw(refusal.value), 0;
    }
    var attempts := InProcessAttempts(retryInProcess);
    var attempt := 1;
    while true
      invariant 1 <= attempt <= attempts
      invariant LastAttempt(replies, 1, attempts) == LastAttempt(replies, attempt, attempts)
      decreases attempts - attempt
    {
      reply := replies(attempt);
      if reply.Returned? || attempt >= attempts || !RetryableInProcess(reply.fault) {
        return reply, attempt;
      }
      attempt := attempt + 1;
    }
  }
}
