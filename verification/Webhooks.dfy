/** Provider reports delivered late, twice or out of order, and the receipts that hold them. */
module Webhooks {
  import opened Common
  import opened RequestStates
  import opened Requests
  import opened RequestTransactions

  /** A report together with the time at which it is applied. */
  datatype Delivery = Delivery(report: Report, now: real)

  function Effect(r: Request, d: Delivery): (after: Request) {
    var after := ApplyReport(r, d.report, d.now);
    if after.Ok? && after.value.Some? then after.value.value else r
  }

  function Deliver(r: Request, deliveries: seq<Delivery>): (after: Request)
    decreases |deliveries|
  {
    if deliveries == [] then r else Deliver(Effect(r, deliveries[0]), deliveries[1..])
  }

  // ---- redelivery ----

  /** The request has nothing left to learn from a report, at whatever time it comes. */
  predicate Absorbs(r: Request, report: Report) {
    var target := Project(report.status);
    target.Some? && IsForwardProgress(r.status, target.value) ==>
      target.value.Pending? && !Given(report.providerReference) && !Given(r.providerReference)
  }

  lemma AbsorbsMeansNoEffect(r: Request, d: Delivery)
    ensures Absorbs(r, d.report) <==> Effect(r, d) == r
  {
    ReportsNeverRaise(r, d.report, d.now);
  }

  lemma EffectAbsorbs(r: Request, d: Delivery)
    ensures Absorbs(Effect(r, d), d.report)
  {
    ReportsNeverRaise(r, d.report, d.now);
  }

  /** What a request has absorbed once stays absorbed whatever is reported next. */
  lemma AbsorptionStays(r: Request, absorbed: Report, d: Delivery)
    requires Absorbs(r, absorbed)
    ensures Absorbs(Effect(r, d), absorbed)
  {
    ReportsNeverRaise(r, d.report, d.now);
  }

  lemma {:induction false} DeliveriesKeepAbsorbing(r: Request, absorbed: Report, deliveries: seq<Delivery>)
    requires Absorbs(r, absorbed)
    ensures Absorbs(Deliver(r, deliveries), absorbed)
    decreases |deliveries|
  {
    if deliveries != [] {
      AbsorptionStays(r, absorbed, deliveries[0]);
      DeliveriesKeepAbsorbing(Effect(r, deliveries[0]), absorbed, deliveries[1..]);
    }
  }

  lemma {:induction false} DeliveredIsAbsorbed(r: Request, deliveries: seq<Delivery>, i: nat)
    requires i < |deliveries|
    ensures Absorbs(Deliver(r, deliveries), deliveries[i].report)
    decreases |deliveries|
  {
    if i == 0 {
      EffectAbsorbs(r, deliveries[0]);
      DeliveriesKeepAbsorbing(Effect(r, deliveries[0]), deliveries[0].report, deliveries[1..]);
    } else {
      DeliveredIsAbsorbed(Effect(r, deliveries[0]), deliveries[1..], i - 1);
    }
  }

  lemma {:induction false} DeliverCompose(r: Request, first: seq<Delivery>, rest: seq<Delivery>)
    ensures Deliver(r, first + rest) == Deliver(Deliver(r, first), rest)
    decreases |first|
  {
    if first == [] {
      assert first + rest == rest;
    } else {
      assert (first + rest)[1..] == first[1..] + rest;
      DeliverCompose(Effect(r, first[0]), first[1..], rest);
    }
  }

  /** Re-applying an earlier report, at any later point and any later time, changes neither the request at that
      point nor anything that follows, from any starting request. */
  lemma RedeliveryIsHarmless(r: Request, first: seq<Delivery>, rest: seq<Delivery>, i: nat, again: real)
    requires i < |first|
    ensures Effect(Deliver(r, first), Delivery(first[i].report, again)) == Deliver(r, first)
    ensures Deliver(r, first + [Delivery(first[i].report, again)] + rest) == Deliver(r, first + rest)
  {
    var repeat := Delivery(first[i].report, again);
    var reached := Deliver(r, first);
    DeliveredIsAbsorbed(r, first, i);
    AbsorbsMeansNoEffect(reached, repeat);
    DeliverCompose(r, first, [repeat] + rest);
    DeliverCompose(r, first, rest);
    assert first + [repeat] + rest == first + ([repeat] + rest);
    assert ([repeat] + rest)[1..] == rest;
  }

  // ---- the outcome of a pending request ----

  predicate Decisive(status: NormalizedStatus) {
    status.Succeeded? || status.Failed? || status.Cancelled?
  }

  /** Position of the first report that settles anything, or the length when none does. */
  function FirstDecisive(deliveries: seq<Delivery>): (i: nat)
    ensures i <= |deliveries|
    ensures i < |deliveries| ==> Decisive(deliveries[i].report.status)
    ensures forall k :: 0 <= k < i ==> !Decisive(deliveries[k].report.status)
  {
    if deliveries == [] || Decisive(deliveries[0].report.status) then 0
    else 1 + FirstDecisive(deliveries[1..])
  }

  predicate ReportsCancel(deliveries: seq<Delivery>) {
    exists k :: 0 <= k < |deliveries| && deliveries[k].report.status.Cancelled?
  }

  /** The first decisive report wins, except that a cancellation reported later overrides a failure. */
  function OutcomeOf(deliveries: seq<Delivery>): (r: RequestStatus) {
    var i := FirstDecisive(deliveries);
    if i == |deliveries| then RequestStatus.Pending
    else if deliveries[i].report.status.Succeeded? then RequestStatus.Succeeded
    else if ReportsCancel(deliveries[i..]) then RequestStatus.Cancelled
    else RequestStatus.Failed
  }

  lemma {:induction false} TerminalStays(r: Request, deliveries: seq<Delivery>)
    requires r.status.IsTerminal()
    ensures Deliver(r, deliveries) == r
    decreases |deliveries|
  {
    if deliveries != [] {
      assert Absorbs(r, deliveries[0].report);
      AbsorbsMeansNoEffect(r, deliveries[0]);
      TerminalStays(r, deliveries[1..]);
    }
  }

  lemma {:induction false} FailedOutcome(r: Request, deliveries: seq<Delivery>)
    requires r.status.Failed?
    ensures Deliver(r, deliveries).status ==
            if ReportsCancel(deliveries) then RequestStatus.Cancelled else RequestStatus.Failed
    decreases |deliveries|
  {
    if deliveries != [] {
      ReportsNeverRaise(r, deliveries[0].report, deliveries[0].now);
      if deliveries[0].report.status.Cancelled? {
        TerminalStays(Effect(r, deliveries[0]), deliveries[1..]);
      } else {
        FailedOutcome(Effect(r, deliveries[0]), deliveries[1..]);
        assert forall k :: 0 < k < |deliveries| ==> deliveries[k] == deliveries[1..][k - 1];
      }
    }
  }

  /** The status any sequence of reports leads a pending request to, in closed form. */
  lemma {:induction false} PendingOutcome(r: Request, deliveries: seq<Delivery>)
    requires r.status.Pending?
    ensures Deliver(r, deliveries).status == OutcomeOf(deliveries)
    decreases |deliveries|
  {
    if deliveries != [] {
      var d, rest := deliveries[0], deliveries[1..];
      ReportsNeverRaise(r, d.report, d.now);
      if !Decisive(d.report.status) {
        PendingOutcome(Effect(r, d), rest);
        assert deliveries[FirstDecisive(deliveries)..] == rest[FirstDecisive(rest)..];
      } else if d.report.status.Failed? {
        FailedOutcome(Effect(r, d), rest);
        assert ReportsCancel(deliveries) <==> ReportsCancel(rest) by {
          assert forall k :: 0 < k < |deliveries| ==> deliveries[k] == rest[k - 1];
        }
      } else {
        TerminalStays(Effect(r, d), rest);
        assert deliveries[FirstDecisive(deliveries)..] == deliveries;
      }
    }
  }

  // ---- receipts ----

  datatype WebhookEvent = WebhookEvent(
    provider: string,
    eventId: string,
    eventType: string,
    status: NormalizedStatus,
    occurredAt: real,
    providerReference: Option<string>,
    externalReference: Option<string>,
    correlationId: Option<string>,
    metadata: map<string, Entry>,
    fault: Option<ProviderFault>)

  /** The normalized summary stored on a receipt. */
  datatype Summary = Summary(
    status: NormalizedStatus,
    occurredAt: real,
    providerReference: Option<string>,
    externalReference: Option<string>,
    failure: Option<Failure>)

  /** A value of a receipt's payload: the summary, or something the adapter put there. */
  datatype Entry = Normalized(summary: Summary) | Adapter(text: string)

  datatype Receipt = Receipt(
    provider: string,
    eventId: string,
    eventType: string,
    payload: map<string, Entry>,
    providerReference: Option<string>,
    correlationId: Option<string>)

  const NORMALIZED_KEY := "_normalized"

  function FailureOf(fault: Option<ProviderFault>): (r: Option<Failure>) {
    if fault.Some? then Some(fault.value.failure) else None
  }

  /** The receipt written when an event arrives; `fallback` is the correlation id of the delivery itself. */
  function ReceiptOf(e: WebhookEvent, fallback: string): (r: Receipt) {
    Receipt(
      e.provider, e.eventId, e.eventType,
      e.metadata[NORMALIZED_KEY := Normalized(
        Summary(e.status, e.occurredAt, e.providerReference, e.externalReference, FailureOf(e.fault)))],
      e.providerReference,
      if e.correlationId.Some? then e.correlationId else Some(fallback))
  }

  function Rehydrate(receipt: Receipt): (r: Outcome<WebhookEvent>) {
    if NORMALIZED_KEY !in receipt.payload || !receipt.payload[NORMALIZED_KEY].Normalized? then Raised else
      var s := receipt.payload[NORMALIZED_KEY].summary;
      Ok(WebhookEvent(
        receipt.provider, receipt.eventId, receipt.eventType, s.status, s.occurredAt,
        if Given(s.providerReference) then s.providerReference else receipt.providerReference,
        s.externalReference, receipt.correlationId,
        receipt.payload - {NORMALIZED_KEY},
        if s.failure.Some? then Some(ProviderFault(s.failure.value, None)) else None))
  }

  /** What a receipt keeps of its event: everything but the retry hint, a missing correlation id and metadata filed
      under the reserved key. */
  function Kept(e: WebhookEvent, fallback: string): (r: WebhookEvent) {
    e.(correlationId := if e.correlationId.Some? then e.correlationId else Some(fallback),
       metadata := e.metadata - {NORMALIZED_KEY},
       fault := if e.fault.Some? then Some(e.fault.value.(retryAfterSeconds := None)) else None)
  }

  lemma ReceiptRoundTrip(e: WebhookEvent, fallback: string)
    ensures Rehydrate(ReceiptOf(e, fallback)) == Ok(Kept(e, fallback))
  {
    var receipt := ReceiptOf(e, fallback);
    assert receipt.payload - {NORMALIZED_KEY} == e.metadata - {NORMALIZED_KEY};
  }

  /** The event comes back exactly when it lost nothing: it had a correlation id, no retry hint, and nothing
      under the reserved key. */
  lemma ReceiptIsExactWhen(e: WebhookEvent, fallback: string)
    ensures Rehydrate(ReceiptOf(e, fallback)) == Ok(e) <==>
            && e.correlationId.Some?
            && NORMALIZED_KEY !in e.metadata
            && (e.fault.Some? ==> e.fault.value.retryAfterSeconds.None?)
  {
    ReceiptRoundTrip(e, fallback);
    if NORMALIZED_KEY !in e.metadata {
      assert e.metadata - {NORMALIZED_KEY} == e.metadata;
    } else {
      assert NORMALIZED_KEY !in Kept(e, fallback).metadata;
    }
  }

  function ReportOf(e: WebhookEvent): (r: Report) {
    Report(e.status, e.providerReference, FailureOf(e.fault))
  }

  /** Correlation looks a request up by provider and provider reference, and not at all without a reference. */
  function CorrelationOf(e: WebhookEvent): (r: Option<(string, string)>) {
    if Given(e.providerReference) then Some((e.provider, e.providerReference.value)) else None
  }

  /** An event rebuilt from its receipt finds the same request and has the same effect on it. */
  lemma RehydratedEventHasSameEffect(e: WebhookEvent, fallback: string, r: Request, now: real)
    ensures var back := Rehydrate(ReceiptOf(e, fallback));
            && back.Ok?
            && CorrelationOf(back.value) == CorrelationOf(e)
            && ApplyReport(r, ReportOf(back.value), now) == ApplyReport(r, ReportOf(e), now)
    ensures CorrelationOf(e).Some? <==> e.providerReference.Some? && e.providerReference.value != ""
    ensures CorrelationOf(e).Some? ==> CorrelationOf(e).value == (e.provider, e.providerReference.value)
    ensures ApplyReport(r, ReportOf(e), now) ==
            ApplyReport(r, Report(e.status, e.providerReference,
                                  if e.fault.Some? then Some(e.fault.value.failure) else None), now)
  {
    ReceiptRoundTrip(e, fallback);
  }
}
