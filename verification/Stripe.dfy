/** What the Stripe client makes of the provider's answers: the statuses it can
    report and the optional identifiers it extracts. */
module Stripe {
  import opened Basics
  import opened Entity

  /** The fields of a webhook body that the client looks at; a field that is
      missing or undecodable is the empty string. */
  datatype RawEvent = RawEvent(id: string, kind: string, objectID: string, subscription: string)

  datatype CallbackEvent = CallbackEvent(
    providerEventID: Option<string>,
    providerPaymentID: Option<string>,
    providerSubscriptionID: Option<string>,
    eventType: string,
    newStatus: int)

  /** An answer to a status poll. */
  datatype PollReply = PollError(error: Error) | Session(status: string, paymentStatus: string)

  /** The fields of a created checkout session or payment link. */
  datatype CreateReply = CreateReply(id: string, url: string, subscription: string)

  datatype CreateOutput = CreateOutput(
    providerPaymentID: Option<string>,
    providerSubscriptionID: Option<string>,
    checkoutURL: Option<string>,
    callbackURL: string,
    initialStatus: int)

  const HOSTED_CARD := 1
  const PAYMENT_LINK := 2

  function EventStatus(kind: string): int {
    if kind == "checkout.session.completed" || kind == "checkout.session.async_payment_succeeded" then PAID
    else if kind == "checkout.session.async_payment_failed" then FAILED
    else if kind == "checkout.session.expired" then EXPIRED
    else if kind == "invoice.paid" then PAID
    else if kind == "invoice.payment_failed" then FAILED
    else if kind == "customer.subscription.deleted" then CANCELED
    else 0
  }

  function ParseEvent(raw: RawEvent): CallbackEvent {
    var status := EventStatus(raw.kind);
    var eventID := NonBlank(raw.id);
    if status == 0 then
      CallbackEvent(eventID, None, None, raw.kind, 0)
    else if raw.kind == "customer.subscription.deleted" then
      CallbackEvent(eventID, None, NonBlank(raw.objectID), raw.kind, status)
    else
      CallbackEvent(eventID, NonBlank(raw.objectID), NonBlank(raw.subscription), raw.kind, status)
  }

  function PollStatus(status: string, paymentStatus: string): int {
    if status == "expired" then EXPIRED
    else if paymentStatus == "paid" || paymentStatus == "no_payment_required" then PAID
    else if paymentStatus == "unpaid" then PENDING
    else 0
  }

  function GetPaymentStatus(providerPaymentID: string, reply: PollReply): Result<int, Error> {
    if IsBlank(providerPaymentID) then Ok(0)
    else match reply
      case PollError(e) => Err(e)
      case Session(status, paymentStatus) => Ok(PollStatus(status, paymentStatus))
  }

  function Created(kind: int, callbackURL: string, reply: CreateReply): CreateOutput {
    CreateOutput(
      NonBlank(reply.id),
      if kind == HOSTED_CARD then NonBlank(reply.subscription) else None,
      NonBlank(reply.url),
      callbackURL,
      PENDING)
  }

  /** A webhook carries no status exactly when its kind is none of the seven mapped
      ones; otherwise it carries a terminal status, and which kinds lead to which. */
  lemma EventStatusRange(raw: RawEvent)
    ensures var s := ParseEvent(raw).newStatus;
            && (s == 0 || (s > 0 && TerminalStatus(s)))
            && (s == PAID <==> raw.kind in {
                  "checkout.session.completed", "checkout.session.async_payment_succeeded", "invoice.paid"})
            && (s == FAILED <==> raw.kind in {"checkout.session.async_payment_failed", "invoice.payment_failed"})
            && (s == EXPIRED <==> raw.kind == "checkout.session.expired")
            && (s == CANCELED <==> raw.kind == "customer.subscription.deleted")
            && (s == 0 <==> raw.kind !in {
                  "checkout.session.completed", "checkout.session.async_payment_succeeded",
                  "checkout.session.async_payment_failed", "checkout.session.expired",
                  "invoice.paid", "invoice.payment_failed", "customer.subscription.deleted"})
  {
  }

  /** Exactly what a poll reports: expiry overrides payment, an unpaid session is still
      pending, any other answer carries no status, and an error is passed on. */
  lemma PollStatusRange(providerPaymentID: string, reply: PollReply)
    ensures var r, asked := GetPaymentStatus(providerPaymentID, reply), !IsBlank(providerPaymentID);
            && (r == Ok(EXPIRED) <==> asked && reply.Session? && reply.status == "expired")
            && (r == Ok(PAID) <==>
                  && asked && reply.Session? && reply.status != "expired"
                  && reply.paymentStatus in {"paid", "no_payment_required"})
            && (r == Ok(PENDING) <==>
                  asked && reply.Session? && reply.status != "expired" && reply.paymentStatus == "unpaid")
            && (r.Err? <==> asked && reply.PollError?) && (r.Err? ==> r.error == reply.error)
            && (r.Ok? ==> r.value in {0, PENDING, PAID, EXPIRED})
  {
  }

  /** Every identifier taken from an event is text that is not blank; a deleted
      subscription names itself, every other mapped object a payment. The event's own id
      and kind are kept whatever the kind. */
  lemma ParsedIdentifiers(raw: RawEvent)
    ensures var e := ParseEvent(raw);
            && e.eventType == raw.kind
            && (e.providerEventID.Some? <==> !IsBlank(raw.id))
            && (e.providerEventID.Some? ==> e.providerEventID.value == TrimSpace(raw.id))
            && (e.providerPaymentID.Some? ==> !IsBlank(e.providerPaymentID.value))
            && (e.providerSubscriptionID.Some? ==> !IsBlank(e.providerSubscriptionID.value))
            && (e.newStatus == 0 ==> e.providerPaymentID == e.providerSubscriptionID == None)
            && (e.newStatus == CANCELED ==>
                  e.providerPaymentID == None && (e.providerSubscriptionID.Some? <==> !IsBlank(raw.objectID)))
            && (e.newStatus in {PAID, FAILED, EXPIRED} ==>
                  && (e.providerPaymentID.Some? <==> !IsBlank(raw.objectID))
                  && (e.providerSubscriptionID.Some? <==> !IsBlank(raw.subscription)))
            && (e.providerPaymentID.Some? ==> e.providerPaymentID.value == TrimSpace(raw.objectID))
            && (e.providerSubscriptionID.Some? ==>
                  e.providerSubscriptionID.value
                    == TrimSpace(if e.newStatus == CANCELED then raw.objectID else raw.subscription))
  {
    hide TrimSpace, EventStatus;
    EventStatusRange(raw);
  }
}
