/** The payment service: handlers and worker batches over the repositories. What the
    outside world answers (provider, callback endpoints, clock, database faults) comes in
    as parameters. */
module Service {
  import opened Basics
  import opened Entity
  import opened Stripe
  import opened Lifecycle
  import opened Table
  import opened Serial
  import opened Batches
  import opened Repository
  import opened Query
  import opened Provider
  import Outcomes
  import Transitions

  /** What the provider client made of a create call. */
  datatype ProviderAnswer = ProviderFailed(error: Error) | ProviderReplied(callbackURL: string, reply: CreateReply)

  datatype CallbackRequest = CallbackRequest(provider: string, callbackHash: string, signature: string, payload: string)

  const CALLBACK_PROCESSED := 10
  const CALLBACK_REJECTED := 20

  /** The provider named in a webhook URL, in any case and padding. */
  function ParseProviderCode(provider: string): (code: Option<int>)
    ensures code == Some(STRIPE) || code == None
    ensures code.Some? <==> ToLower(TrimSpace(provider)) in {"stripe", "1"}
  {
    var name := ToLower(TrimSpace(provider));
    if name == "stripe" || name == "1" then Some(STRIPE) else None
  }

  function ProcessedCallback(req: CallbackRequest, id: nat, now: int): PaymentCallback {
    PaymentCallback(Some(id), ToLower(TrimSpace(req.provider)), TrimSpace(req.callbackHash), TrimSpace(req.signature),
                    req.payload, CALLBACK_PROCESSED, None, now, now)
  }

  function RejectedCallback(req: CallbackRequest, reason: string, now: int): (c: PaymentCallback)
    ensures c.error.Some? && 0 < |c.error.value| <= 1024
    ensures IsBlank(reason) ==> c.error.value == "callback rejected"
    ensures !IsBlank(reason) ==> c.error.value <= TrimSpace(reason) && |c.error.value| == Min(|TrimSpace(reason)|, 1024)
    ensures c.paymentID.None? && c.status == CALLBACK_REJECTED && c.callbackHash == TrimSpace(req.callbackHash)
  {
    var text := TrimSpace(reason);
    var kept := Truncate(if text == "" then "callback rejected" else text, 1024);
    PaymentCallback(None, ToLower(TrimSpace(req.provider)), TrimSpace(req.callbackHash), TrimSpace(req.signature),
                    req.payload, CALLBACK_REJECTED, Some(kept), now, now)
  }

  /** An audit row records the webhook it is for: provider and hash as they were matched,
      the header and the body each in its column, and one clock reading. */
  predicate Records(audit: PaymentCallback, req: CallbackRequest, now: int) {
    && audit.provider == ToLower(TrimSpace(req.provider)) && audit.callbackHash == TrimSpace(req.callbackHash)
    && audit.signature == TrimSpace(req.signature) && audit.payloadJSON == req.payload
    && audit.createdAt == now && audit.updatedAt == now
  }

  /** The rows that the log gained are at most one, and it records the webhook. */
  predicate LogsWebhook(log: seq<PaymentCallback>, before: seq<PaymentCallback>, req: CallbackRequest, now: int) {
    before <= log && |log| <= |before| + 1 && forall k :: |before| <= k < |log| ==> Records(log[k], req, now)
  }

  lemma AuditsRecord(req: CallbackRequest, id: nat, reason: string, now: int)
    ensures Records(ProcessedCallback(req, id, now), req, now) && Records(RejectedCallback(req, reason, now), req, now)
    ensures ProcessedCallback(req, id, now).paymentID == Some(id)
    ensures ProcessedCallback(req, id, now).status == 10 && ProcessedCallback(req, id, now).error.None?
    ensures RejectedCallback(req, reason, now).status == 20
  {
    hide ToLower, TrimSpace;
  }

  /** The audit row of a processed webhook names the payment that its hash resolves to,
      and the hash keeps resolving to that payment for ever. */
  lemma AuditResolves(cfg: Config, db: Db, ops: seq<Op>, id: nat, req: CallbackRequest, now: int, found: nat)
    requires DbInv(cfg, db) && (forall op :: op in ops ==> ValidOp(op))
    requires HasHash(db.rows, id, STRIPE, TrimSpace(req.callbackHash))
    ensures var audit := ProcessedCallback(req, id, now);
            && audit.callbackHash == db.rows[id].callbackHash && audit.error.None? && audit.status == CALLBACK_PROCESSED
            && (HasHash(Run(cfg, db, ops).rows, found, STRIPE, audit.callbackHash) <==> audit.paymentID == Some(found))
  {
    hide DbInv, Run, TrimSpace, ToLower, ValidRequest;
    Transitions.HashResolvesForever(cfg, db, ops, id, STRIPE, TrimSpace(req.callbackHash), found);
  }

  /** What a write to the callback log leaves there. */
  function Audited(fault: Option<Error>, callback: PaymentCallback): seq<PaymentCallback> {
    if fault.Some? then [] else [callback]
  }

  class PaymentService {
    const cfg: Config
    const payments: PaymentRepository
    const events: EventRepository
    const callbacks: CallbackRepository
    const provider: StripeProvider

    constructor (cfg: Config, provider: StripeProvider)
      ensures Valid() && fresh(payments) && fresh(events) && fresh(callbacks)
      ensures this.cfg == cfg && this.provider == provider && State() == EMPTY && callbacks.callbacks == []
    {
      this.cfg := cfg;
      this.provider := provider;
      payments := new PaymentRepository();
      events := new EventRepository();
      callbacks := new CallbackRepository();
    }

    ghost function State(): Db
      reads payments, events
    {
      Db(payments.rows, payments.nextID, events.events)
    }

    ghost predicate Valid()
      reads payments, events
    {
      DbInv(cfg, State())
    }

    method MarkForCallbackDelivery(payment: PaymentRecord, now: int)
      modifies payment
      ensures payment.Row() == Marked(old(payment.Row()), now)
    {
      payment.delivery := DELIVERY_PENDING;
      payment.attempts := 0;
      payment.nextAt := Some(now);
      payment.lastErr := None;
    }

    /** Writes the record back and, if that succeeds, logs the event: the change lands. */
    method Store(payment: PaymentRecord, event: Option<PaymentEvent>, fault: Fault) returns (error: Option<Error>)
      requires Valid()
      requires payment.id in payments.rows ==> payments.rows[payment.id].provider == payment.loaded.provider
      modifies payments`rows, events
      ensures State() == Land(old(State()), Write(payment.Row(), event, None), fault)
      ensures error == if fault.write.Some? then fault.write
                       else if payment.id !in old(payments.rows) then Some(PaymentNotFound) else None
    {
      if payment.id in payments.rows {
        SameProviderNeverCollides(payments.rows, payments.nextID, payment.Row());
      }
      error := payments.Update(payment, fault.write);
      if error.None? && event.Some? {
        events.Create(event.value, fault.eventLost);
      }
    }

    /** Returns the payment of the key if there is one, otherwise creates it with the
        provider and inserts it. */
    method CreatePayment(req: CreateRequest, hash: string, answer: ProviderAnswer, now: int, fault: Fault)
      returns (r: Result<PaymentRecord, Error>)
      requires Valid()
      modifies payments, events
      ensures ValidRequest(req) ==> Valid()
      ensures var callerService, requestID := TrimSpace(req.callerService), TrimSpace(req.requestID);
              if callerService == "" || requestID == "" then
                r == Err(InvalidRequest) && State() == old(State())
              else if exists id: nat :: HasKey(old(payments.rows), id, callerService, requestID) then
                && r.Ok? && HasKey(old(payments.rows), r.value.id, callerService, requestID)
                && r.value.Row() == old(payments.rows)[r.value.id] && State() == old(State())
              else if ProviderCode(req.provider) != STRIPE then
                r == Err(ProviderUnsupported) && State() == old(State())
              else if answer.ProviderFailed? then
                r == Err(answer.error) && State() == old(State())
              else
                var row := NewRow(req, hash, Created(req.paymentMethod, answer.callbackURL, answer.reply), now);
                && State() == Do(cfg, old(State()), Create(req, hash, answer.callbackURL, answer.reply, now, fault))
                && (fault.write.Some? ==> r == Err(fault.write.value))
                && (fault.write.None? && Rejects(old(payments.rows), row) ==> r == Err(PaymentAlreadyExists))
                && (fault.write.None? && !Rejects(old(payments.rows), row) ==>
                      r.Ok? && r.value.Row() == row.(id := old(payments.nextID)))
    {
      hide RowInv;
      var requestID := TrimSpace(req.requestID);
      var callerService := TrimSpace(req.callerService);
      if requestID == "" || callerService == "" {
        return Err(InvalidRequest);
      }
      var existing := payments.FindByCallerRequestID(callerService, requestID);
      if existing != null {
        return Ok(existing);
      }
      if ProviderCode(req.provider) != STRIPE {
        return Err(ProviderUnsupported);
      }
      if answer.ProviderFailed? {
        return Err(answer.error);
      }
      r := InsertNew(req, hash, answer, now, fault);
    }

    method InsertNew(req: CreateRequest, hash: string, answer: ProviderAnswer, now: int, fault: Fault)
      returns (r: Result<PaymentRecord, Error>)
      requires Valid() && answer.ProviderReplied?
      modifies payments, events
      ensures ValidRequest(req) ==> Valid()
      ensures var row := NewRow(req, hash, Created(req.paymentMethod, answer.callbackURL, answer.reply), now);
              && State() == Do(cfg, old(State()), Create(req, hash, answer.callbackURL, answer.reply, now, fault))
              && (fault.write.Some? ==> r == Err(fault.write.value))
              && (fault.write.None? && Rejects(old(payments.rows), row) ==> r == Err(PaymentAlreadyExists))
              && (fault.write.None? && !Rejects(old(payments.rows), row) ==>
                    r.Ok? && fresh(r.value) && r.value.Row() == row.(id := old(payments.nextID)))
    {
      hide RowInv, NewRow, Created, Rejects, ValidRequest;
      ghost var op := Create(req, hash, answer.callbackURL, answer.reply, now, fault);
      if ValidRequest(req) {
        CreateEffect(cfg, State(), op);
      }
      NewRowCreatedAt(req, hash, Created(req.paymentMethod, answer.callbackURL, answer.reply), now);
      var out := Created(req.paymentMethod, answer.callbackURL, answer.reply);
      var payment := new PaymentRecord(NewRow(req, hash, out, now));
      var error := payments.Create(payment, fault.write);
      if error.Some? {
        return Err(error.value);
      }
      var event := PaymentEvent(payment.id, "payment_created", None, payment.status, None, None, now);
      events.Create(event, fault.eventLost);
      r := Ok(payment);
    }

    /** Lists the page of the payments that the caller wants, newest first; a limit that is
        not positive means 100. */
    method ListPayments(raw: Filter) returns (r: Result<seq<PaymentRecord>, Error>)
      requires Valid()
      ensures r.Ok? <==> raw.offset >= 0
      ensures r.Ok? ==>
                var f := ServiceFilter(raw);
                var ids := Page(Newest(payments.rows, payments.nextID, f), f.limit, f.offset);
                && |r.value| == |ids|
                && forall k :: 0 <= k < |ids| ==> ids[k] in payments.rows && r.value[k].Row() == payments.rows[ids[k]]
      ensures r.Ok? ==>
                exists all: seq<nat> ::
                  && NewestWanted(payments.rows, raw, all)
                  && var ids := Page(all, if raw.limit > 0 then raw.limit else 100, raw.offset);
                     && |r.value| == |ids|
                     && forall k :: 0 <= k < |ids| ==>
                          ids[k] in payments.rows && r.value[k].Row() == payments.rows[ids[k]]
    {
      hide RowInv, Newest, Matches, Wanted, NewestWanted;
      ServiceListsWanted(payments.rows, payments.nextID, raw);
      r := payments.List(ServiceFilter(raw));
    }

    /** Cancels a payment unless it is paid. */
    method CancelPayment(id: nat, now: int, fault: Fault) returns (r: Result<PaymentRecord, Error>)
      requires Valid()
      modifies payments, events
      ensures Valid() && State() == Do(cfg, old(State()), Touch(id, Cancel, now, fault))
      ensures r.Err? ==> State() == old(State())
      ensures r.Ok? <==> id in old(payments.rows) && old(payments.rows)[id].status != PAID && fault.write.None?
      ensures id !in old(payments.rows) ==> r == Err(PaymentNotFound)
      ensures id in old(payments.rows) && old(payments.rows)[id].status == PAID ==> r == Err(InvalidStatus)
      ensures r.Ok? ==> r.value.Row() == payments.rows[id] && r.value.status == CANCELED
    {
      hide RowInv, DbInv, Land;
      TouchEffect(cfg, State(), Touch(id, Cancel, now, fault));
      var payment := payments.FindByID(id);
      if payment == null {
        return Err(PaymentNotFound);
      }
      if payment.status == PAID {
        return Err(InvalidStatus);
      }
      var oldStatus := payment.status;
      payment.status := CANCELED;
      MarkForCallbackDelivery(payment, now);
      payment.updatedAt := now;
      var error := Store(
        payment,
        Some(PaymentEvent(payment.id, "payment_canceled", Some(oldStatus), payment.status, None, None, now)),
        fault);
      r := if error.Some? then Err(error.value) else Ok(payment);
    }

    /** The in-place part of webhook handling: identifiers, status, delivery, update time. */
    method ReceiveEvent(payment: PaymentRecord, event: CallbackEvent, now: int)
      modifies payment
      ensures payment.Row() == WebhookChange(old(payment.Row()), event, "", now).row
    {
      var oldStatus := payment.status;
      if event.providerPaymentID.Some? {
        payment.providerPaymentID := event.providerPaymentID;
      }
      if event.providerSubscriptionID.Some? {
        payment.providerSubscriptionID := event.providerSubscriptionID;
      }
      if event.newStatus > 0 {
        payment.status := event.newStatus;
      }
      if payment.status != oldStatus && TerminalStatus(payment.status) {
        MarkForCallbackDelivery(payment, now);
      }
      payment.updatedAt := now;
    }

    method PersistRejectedCallback(req: CallbackRequest, reason: string, now: int, fault: Option<Error>)
      modifies callbacks
      ensures callbacks.callbacks == old(callbacks.callbacks) + Audited(fault, RejectedCallback(req, reason, now))
      ensures LogsWebhook(callbacks.callbacks, old(callbacks.callbacks), req, now)
    {
      AuditsRecord(req, 0, reason, now);
      var ignored := callbacks.Create(RejectedCallback(req, reason, now), fault);
    }

    /** Applies a verified provider event to the payment of the webhook's hash. `unix` is
        the clock reading of the signature check. `audit` is the fault of the final
        callback-log write, whose error is reported although the payment has been updated. */
    method HandleProviderCallback(req: CallbackRequest, unix: int64, now: int, fault: Fault, audit: Option<Error>)
      returns (r: Result<PaymentRecord, Error>)
      requires Valid()
      modifies payments, events, callbacks
      ensures Valid()
      ensures !provider.Genuine(req.payload, TrimSpace(req.signature), unix) ==> r.Err? && State() == old(State())
      ensures LogsWebhook(callbacks.callbacks, old(callbacks.callbacks), req, now)
      ensures r.Ok? ==>
                && |callbacks.callbacks| == |old(callbacks.callbacks)| + 1
                && var audit := callbacks.callbacks[|old(callbacks.callbacks)|];
                   audit.paymentID == Some(r.value.id) && audit.status == 10 && audit.error.None?
                   && audit.provider in {"stripe", "1"}
      ensures var hash := TrimSpace(req.callbackHash);
              var parsed := provider.Answer(req.payload, TrimSpace(req.signature), unix);
              if ParseProviderCode(req.provider).None? then
                && r == Err(ProviderUnsupported) && State() == old(State())
                && callbacks.callbacks == old(callbacks.callbacks)
              else if parsed.ParseFailed? then
                && r == Err(CallbackRejected) && State() == old(State())
                && callbacks.callbacks == old(callbacks.callbacks)
                     + Audited(
                         audit, RejectedCallback(req, "provider callback validation failed: " + parsed.reason, now))
              else if forall id: nat :: !HasHash(old(payments.rows), id, STRIPE, hash) then
                && r == Err(PaymentNotFound) && State() == old(State())
                && callbacks.callbacks == old(callbacks.callbacks)
                     + Audited(audit, RejectedCallback(req, "payment not found for callback hash", now))
              else exists id: nat ::
                && HasHash(old(payments.rows), id, STRIPE, hash)
                && State() == Do(cfg, old(State()), Touch(id, Webhook(parsed.raw, req.payload), now, fault))
                && (fault.write.Some? ==>
                      r == Err(fault.write.value) && callbacks.callbacks == old(callbacks.callbacks))
                && (fault.write.None? && audit.Some? ==>
                      r == Err(audit.value) && callbacks.callbacks == old(callbacks.callbacks))
                && (fault.write.None? && audit.None? ==>
                      && id in payments.rows && r.Ok? && r.value.Row() == payments.rows[id]
                      && callbacks.callbacks == old(callbacks.callbacks) + [ProcessedCallback(req, id, now)])
    {
      hide RowInv, ToLower, TrimSpace, StripeProvider.Genuine, StripeProvider.Answer, RejectedCallback, Records, Do;
      if ParseProviderCode(req.provider).None? {
        return Err(ProviderUnsupported);
      }
      var parsed := provider.VerifyAndParseCallback(req.payload, TrimSpace(req.signature), unix);
      if parsed.ParseFailed? {
        PersistRejectedCallback(req, "provider callback validation failed: " + parsed.reason, now, audit);
        return Err(CallbackRejected);
      }
      var payment := payments.FindByCallbackHash(STRIPE, TrimSpace(req.callbackHash));
      if payment == null {
        PersistRejectedCallback(req, "payment not found for callback hash", now, audit);
        return Err(PaymentNotFound);
      }
      AuditsRecord(req, payment.id, "", now);
      r := ApplyEvent(payment, req, parsed.raw, now, fault, audit);
    }

    method ApplyEvent(
        payment: PaymentRecord, req: CallbackRequest, raw: RawEvent, now: int, fault: Fault, audit: Option<Error>)
      returns (r: Result<PaymentRecord, Error>)
      requires Valid() && payment.id in payments.rows && payment.Row() == payments.rows[payment.id]
      modifies payments, events, callbacks, payment
      ensures Valid() && payment.id == old(payment.id) && payment.id in payments.rows
      ensures State() == Do(cfg, old(State()), Touch(payment.id, Webhook(raw, req.payload), now, fault))
      ensures fault.write.Some? ==> r == Err(fault.write.value) && callbacks.callbacks == old(callbacks.callbacks)
      ensures fault.write.None? && audit.Some? ==>
                r == Err(audit.value) && callbacks.callbacks == old(callbacks.callbacks)
      ensures fault.write.None? && audit.None? ==>
                && r == Ok(payment) && payment.Row() == payments.rows[payment.id]
                && callbacks.callbacks == old(callbacks.callbacks) + [ProcessedCallback(req, payment.id, now)]
    {
      hide RowInv, DbInv, Land, ParseEvent, ProcessedCallback;
      ghost var before := payment.Row();
      TouchEffect(cfg, State(), Touch(payment.id, Webhook(raw, req.payload), now, fault));
      var event := ParseEvent(raw);
      var oldStatus := payment.status;
      ReceiveEvent(payment, event, now);
      var kind := TrimSpace(event.eventType);
      var logged := PaymentEvent(
        payment.id, if kind == "" then "provider_callback" else kind,
        if oldStatus == payment.status then None else Some(oldStatus), payment.status,
        event.providerEventID, Some(req.payload), now);
      assert Write(payment.Row(), Some(logged), None) == WebhookChange(before, event, req.payload, now);
      var error := Store(payment, Some(logged), fault);
      if error.Some? {
        return Err(error.value);
      }
      var auditError := callbacks.Create(ProcessedCallback(req, payment.id, now), audit);
      r := if auditError.Some? then Err(auditError.value) else Ok(payment);
    }

    /** One reconcile item: what it does to the table follows from the copy it is given,
        even if the stored row has moved on. */
    method ReconcileItem(payment: PaymentRecord, now: int, reply: PollReply, fault: Fault)
      returns (error: Option<Error>)
      requires Valid()
      requires payment.id in payments.rows && payments.rows[payment.id].provider == payment.loaded.provider
      modifies payments, events, payment
      ensures State() == Land(old(State()), ReconcileChange(old(payment.Row()), reply, now), fault)
      ensures var c := ReconcileChange(old(payment.Row()), reply, now);
              error == if c.Write? && fault.write.Some? then fault.write else c.error
    {
      hide RowInv, DbInv, Overwrite, PollStatus, IsBlank, TrimSpace;
      if payment.providerPaymentID.None? || IsBlank(payment.providerPaymentID.value) {
        return None;
      }
      if payment.loaded.provider != STRIPE {
        return Some(ProviderUnsupported);
      }
      var polled := GetPaymentStatus(TrimSpace(payment.providerPaymentID.value), reply);
      if polled.Err? {
        return Some(polled.error);
      }
      var newStatus := polled.value;
      if newStatus == 0 || newStatus == payment.status {
        return None;
      }
      var oldStatus := payment.status;
      payment.status := newStatus;
      if TerminalStatus(newStatus) {
        MarkForCallbackDelivery(payment, now);
      }
      payment.updatedAt := now;
      error := Store(
        payment,
        Some(PaymentEvent(payment.id, "payment_reconciled", Some(oldStatus), newStatus, None, None, now)),
        fault);
    }

    method ExpireItem(payment: PaymentRecord, now: int, fault: Fault) returns (error: Option<Error>)
      requires Valid()
      requires payment.id in payments.rows && payments.rows[payment.id].provider == payment.loaded.provider
      modifies payments, events, payment
      ensures State() == Land(old(State()), ExpireChange(old(payment.Row()), now), fault)
      ensures var c := ExpireChange(old(payment.Row()), now);
              error == if c.Write? && fault.write.Some? then fault.write else c.error
    {
      hide RowInv, DbInv, Overwrite;
      if payment.status == EXPIRED {
        return None;
      }
      var oldStatus := payment.status;
      payment.status := EXPIRED;
      MarkForCallbackDelivery(payment, now);
      payment.updatedAt := now;
      error := Store(
        payment,
        Some(PaymentEvent(payment.id, "payment_expired", Some(oldStatus), payment.status, None, None, now)),
        fault);
    }

    /** Counts a failed attempt and either schedules the next one or gives up. */
    method CountFailure(payment: PaymentRecord, text: string, now: int)
      modifies payment
      ensures payment.Row() == Refused(cfg, old(payment.Row()), text, now)
    {
      payment.attempts := Wrap32(payment.attempts + 1);
      payment.lastErr := Some(Truncate(text, 1024));
      var maxAttempts := if cfg.callbackMaxAttempts <= 0 then 1 else cfg.callbackMaxAttempts;
      if payment.attempts >= maxAttempts {
        payment.delivery := DELIVERY_FAILED;
        payment.nextAt := None;
      } else {
        payment.delivery := DELIVERY_PENDING;
        payment.nextAt := Some(now + cfg.RetryInterval());
      }
      payment.updatedAt := now;
    }

    /** Records a failed attempt and reports its error unless the write fails first. */
    method RecordDispatchFailure(payment: PaymentRecord, now: int, dispatchError: Error, text: string, fault: Fault)
      returns (error: Option<Error>)
      requires Valid()
      requires payment.id in payments.rows && payments.rows[payment.id].provider == payment.loaded.provider
      modifies payments, events, payment
      ensures var p := old(payment.Row());
              State() == Land(
                        old(State()),
                        Write(
                          Refused(cfg, p, text, now),
                          Some(PaymentEvent(p.id, "callback_dispatch_failed", None, p.status, None, None, now)),
                          Some(dispatchError)),
                        fault)
      ensures error == if fault.write.Some? then fault.write else Some(dispatchError)
    {
      hide RowInv, DbInv, Overwrite;
      CountFailure(payment, text, now);
      var storeError := Store(
        payment,
        Some(PaymentEvent(payment.id, "callback_dispatch_failed", None, payment.status, None, None, now)),
        fault);
      error := if storeError.Some? then storeError else Some(dispatchError);
    }

    method DispatchCallback(payment: PaymentRecord, now: int, attempt: Attempt, fault: Fault)
      returns (error: Option<Error>)
      requires Valid()
      requires payment.id in payments.rows && payments.rows[payment.id].provider == payment.loaded.provider
      modifies payments, events, payment
      ensures State() == Land(old(State()), DispatchChange(cfg, old(payment.Row()), attempt, now), fault)
      ensures var c := DispatchChange(cfg, old(payment.Row()), attempt, now);
              error == if c.Write? && fault.write.Some? then fault.write else c.error
    {
      hide RowInv, DbInv, Overwrite, Refused, AttemptError, IsBlank;
      if IsBlank(payment.loaded.statusCallbackURL) {
        payment.delivery := DELIVERY_FAILED;
        payment.nextAt := None;
        payment.lastErr := Some("status_callback_url is empty");
        payment.updatedAt := now;
        error := Store(payment, None, fault);
        return;
      }
      if attempt.EncodeError? {
        return Some(attempt.error);
      }
      if !Accepted(attempt) {
        var (dispatchError, text) := AttemptError(attempt);
        error := RecordDispatchFailure(payment, now, dispatchError, text, fault);
        return;
      }
      payment.delivery := DELIVERY_SUCCESS;
      payment.nextAt := None;
      payment.lastErr := None;
      payment.updatedAt := now;
      error := Store(
        payment, Some(PaymentEvent(payment.id, "callback_dispatched", None, payment.status, None, None, now)), fault);
    }

    /** Polls the provider about a batch of stale pending payments. */
    method RunReconcileBatch(now: int, reply: nat -> PollReply, fault: nat -> Fault)
      returns (error: Option<Error>, ghost ids: seq<nat>)
      requires Valid()
      modifies payments, events
      ensures Valid()
      ensures var due := ReconcileDue(now - cfg.reconcileStaleAfter);
              IsSelection(old(payments.rows), due, ByUpdate(), cfg.BatchSize(), ids)
      ensures BatchResult(cfg, old(State()), ids, ReconcileBatch(now, reply, fault), State())
      ensures error == FirstError(cfg, old(payments.rows), ids, ReconcileBatch(now, reply, fault))
      ensures Outcomes.ReconcilesStalest(cfg, old(payments.rows), payments.rows, now, reply, fault)
    {
      hide DbInv, CancelChange, WebhookChange, ReconcileChange, DispatchChange, ExpireChange, ErrorOf, Land, InStep,
        FirstError, IsSelection, AllSelected, Distinct, BatchResult, PaymentRecord.Row, KeepFirst,
        ReconcileDue, ByUpdate, AtOnce, Outcomes.ReconcilesStalest;
      ghost var before, b := State(), ReconcileBatch(now, reply, fault);
      var items;
      items, ids := payments.ListForReconcile(now - cfg.reconcileStaleAfter, cfg.BatchSize());
      ReconcileReady(cfg, before.rows, ids, b);
      BatchStart(cfg, before, ids, b);
      error := None;
      for i := 0 to |items|
        invariant InStep(cfg, before, ids, i, b, State(), error)
        invariant forall k :: i <= k < |items| ==> items[k].Row() == before.rows[ids[k]]
      {
        ItemReady(cfg, before, ids, i, b, State(), error);
        var itemError := ReconcileItem(items[i], now, reply(items[i].id), fault(items[i].id));
        error := KeepFirst(error, itemError);
      }
      BatchEnd(cfg, before, ids, b, State(), error);
      Outcomes.StaleBatch(cfg, before, ids, b, reply);
    }

    /** Posts the status of a batch of due payments to their callback endpoints. */
    method RunDispatchCallbacksBatch(now: int, attempt: nat -> Attempt, fault: nat -> Fault)
      returns (error: Option<Error>, ghost ids: seq<nat>)
      requires Valid()
      modifies payments, events
      ensures Valid()
      ensures IsSelection(old(payments.rows), DispatchDue(now), ByNextAt(), cfg.BatchSize(), ids)
      ensures BatchResult(cfg, old(State()), ids, DispatchBatch(now, attempt, fault), State())
      ensures error == FirstError(cfg, old(payments.rows), ids, DispatchBatch(now, attempt, fault))
      ensures Outcomes.DispatchesDue(cfg, old(payments.rows), payments.rows, now, attempt, fault)
    {
      hide DbInv, CancelChange, WebhookChange, ReconcileChange, DispatchChange, ExpireChange, ErrorOf, Land, InStep,
        FirstError, IsSelection, AllSelected, Distinct, BatchResult, PaymentRecord.Row, KeepFirst,
        DispatchDue, ByNextAt, AtOnce, Outcomes.DispatchesDue;
      ghost var before, b := State(), DispatchBatch(now, attempt, fault);
      var items;
      items, ids := payments.ListDueCallbackDispatch(now, cfg.BatchSize());
      DispatchReady(cfg, before.rows, ids, b);
      BatchStart(cfg, before, ids, b);
      error := None;
      for i := 0 to |items|
        invariant InStep(cfg, before, ids, i, b, State(), error)
        invariant forall k :: i <= k < |items| ==> items[k].Row() == before.rows[ids[k]]
      {
        ItemReady(cfg, before, ids, i, b, State(), error);
        var itemError := DispatchCallback(items[i], now, attempt(items[i].id), fault(items[i].id));
        error := KeepFirst(error, itemError);
      }
      BatchEnd(cfg, before, ids, b, State(), error);
      Outcomes.DueBatch(cfg, before, ids, b, attempt);
    }

    /** Expires a batch of payments that have been pending for too long. */
    method RunExpirePendingBatch(now: int, fault: nat -> Fault) returns (error: Option<Error>, ghost ids: seq<nat>)
      requires Valid()
      modifies payments, events
      ensures Valid()
      ensures IsSelection(old(payments.rows), ExpiryDue(now - cfg.pendingTimeout), ByCreation(), cfg.BatchSize(), ids)
      ensures BatchResult(cfg, old(State()), ids, ExpireBatch(now, fault), State())
      ensures error == FirstError(cfg, old(payments.rows), ids, ExpireBatch(now, fault))
      ensures Outcomes.ExpiresOldest(cfg, old(payments.rows), payments.rows, now, fault)
    {
      hide DbInv, CancelChange, WebhookChange, ReconcileChange, DispatchChange, ExpireChange, ErrorOf, Land, InStep,
        FirstError, IsSelection, AllSelected, Distinct, BatchResult, PaymentRecord.Row, KeepFirst,
        ExpiryDue, ByCreation, AtOnce, Outcomes.ExpiresOldest;
      ghost var before, b := State(), ExpireBatch(now, fault);
      var items;
      items, ids := payments.ListExpiredPending(now - cfg.pendingTimeout, cfg.BatchSize());
      ExpireReady(cfg, before.rows, ids, b);
      BatchStart(cfg, before, ids, b);
      error := None;
      for i := 0 to |items|
        invariant InStep(cfg, before, ids, i, b, State(), error)
        invariant forall k :: i <= k < |items| ==> items[k].Row() == before.rows[ids[k]]
      {
        ItemReady(cfg, before, ids, i, b, State(), error);
        var itemError := ExpireItem(items[i], now, fault(items[i].id));
        error := KeepFirst(error, itemError);
      }
      BatchEnd(cfg, before, ids, b, State(), error);
      Outcomes.ExpiryBatch(cfg, before, ids, b);
    }
  }

  function ReconcileBatch(now: int, reply: nat -> PollReply, fault: nat -> Fault): Batch {
    Batch(now, (id: nat) => Reconcile(reply(id)), fault)
  }

  function DispatchBatch(now: int, attempt: nat -> Attempt, fault: nat -> Fault): Batch {
    Batch(now, (id: nat) => Dispatch(attempt(id)), fault)
  }

  function ExpireBatch(now: int, fault: nat -> Fault): Batch {
    Batch(now, (id: nat) => Expire, fault)
  }

  lemma ReconcileReady(cfg: Config, rows: Rows, ids: seq<nat>, b: Batch)
    requires IsSelection(rows, ReconcileDue(b.now - cfg.reconcileStaleAfter), ByUpdate(), cfg.BatchSize(), ids)
    requires forall id :: b.cause(id).Reconcile?
    ensures Distinct(ids) && AllSelected(cfg, rows, ids, b)
  {
  }

  lemma DispatchReady(cfg: Config, rows: Rows, ids: seq<nat>, b: Batch)
    requires IsSelection(rows, DispatchDue(b.now), ByNextAt(), cfg.BatchSize(), ids)
    requires forall id :: b.cause(id).Dispatch?
    ensures Distinct(ids) && AllSelected(cfg, rows, ids, b)
  {
  }

  lemma ExpireReady(cfg: Config, rows: Rows, ids: seq<nat>, b: Batch)
    requires IsSelection(rows, ExpiryDue(b.now - cfg.pendingTimeout), ByCreation(), cfg.BatchSize(), ids)
    requires forall id :: b.cause(id).Expire?
    ensures Distinct(ids) && AllSelected(cfg, rows, ids, b)
  {
  }

  /** A batch has worked through the first i of the snapshots that it read. */
  ghost predicate InStep(cfg: Config, before: Db, ids: seq<nat>, i: nat, b: Batch, db: Db, error: Option<Error>) {
    && DbInv(cfg, before) && Distinct(ids) && AllSelected(cfg, before.rows, ids, b)
    && (forall k :: 0 <= k < |ids| ==> ids[k] in before.rows)
    && i <= |ids| && db == Run(cfg, before, OpsFor(b, ids[..i])) && error == FirstError(cfg, before.rows, ids[..i], b)
  }

  lemma BatchStart(cfg: Config, before: Db, ids: seq<nat>, b: Batch)
    requires DbInv(cfg, before) && Distinct(ids) && AllSelected(cfg, before.rows, ids, b)
    ensures forall k :: 0 <= k < |ids| ==> ids[k] in before.rows
    ensures InStep(cfg, before, ids, 0, b, before, None)
  {
    hide DbInv, Selected, Distinct;
  }

  lemma BatchEnd(cfg: Config, before: Db, ids: seq<nat>, b: Batch, db: Db, error: Option<Error>)
    requires InStep(cfg, before, ids, |ids|, b, db, error)
    ensures forall k :: 0 <= k < |ids| ==> ids[k] in before.rows
    ensures DbInv(cfg, before) && DbInv(cfg, db) && db.rows == AtOnce(cfg, before.rows, ids, b)
    ensures BatchResult(cfg, before, ids, b, db) && error == FirstError(cfg, before.rows, ids, b)
  {
    hide DbInv, Distinct, AllSelected, FirstError, Run, AtOnce, EventsFor;
    assert ids[..|ids|] == ids;
    BatchIsAtOnce(cfg, before, ids, b);
  }

  /** When a batch reaches its i-th item, the stored row is still the snapshot read at the
      start, and processing the snapshot extends run and error by one item. The error of an
      item is its skip error, else the fault of its write, else what it reports after. */
  lemma ItemReady(cfg: Config, before: Db, ids: seq<nat>, i: nat, b: Batch, db: Db, error: Option<Error>)
    requires InStep(cfg, before, ids, i, b, db, error) && i < |ids| && ids[i] in before.rows
    ensures var p := before.rows[ids[i]];
            var c := ChangeOf(cfg, p, b.cause(p.id), b.now);
            var reported := if c.Write? && b.fault(p.id).write.Some? then b.fault(p.id).write else c.error;
            && DbInv(cfg, db) && p.id == ids[i] && ids[i] in db.rows && db.rows[ids[i]] == p
            && InStep(cfg, before, ids, i + 1, b, Land(db, c, b.fault(p.id)), KeepFirst(error, reported))
  {
    hide DbInv, ChangeOf, ErrorOf, Land, RowAfter, Selected, EventsFor, Do, Run, KeepFirst;
    assert ids[..i + 1][..i] == ids[..i];
    BatchIsAtOnce(cfg, before, ids[..i], b);
    RunAppend(cfg, before, OpsFor(b, ids[..i]), OpFor(b, ids[i]));
    ItemLands(cfg, before, db, ids[i], b);
    ReportedError(cfg, before.rows[ids[i]], b);
  }

  lemma ItemLands(cfg: Config, before: Db, db: Db, id: nat, b: Batch)
    requires DbInv(cfg, before) && id in before.rows && id in db.rows && db.rows[id] == before.rows[id]
    requires Selected(cfg, before.rows[id], b.cause(id), b.now)
    ensures var p := before.rows[id];
            && p.id == id
            && Do(cfg, db, OpFor(b, id)) == Land(db, ChangeOf(cfg, p, b.cause(p.id), b.now), b.fault(p.id))
  {
    hide RowInv, ChangeOf, Selected, Land;
  }

  /** The error of an item is its skip error, else the fault of its write, else the error
      it reports after the write. */
  lemma ReportedError(cfg: Config, p: Payment, b: Batch)
    ensures var c := ChangeOf(cfg, p, b.cause(p.id), b.now);
            ErrorOf(cfg, p, b) == if c.Write? && b.fault(p.id).write.Some? then b.fault(p.id).write else c.error
  {
    hide ChangeOf;
  }

  lemma NewRowCreatedAt(req: CreateRequest, hash: string, out: CreateOutput, now: int)
    ensures NewRow(req, hash, out, now).createdAt == now
  {
    hide TrimSpace, NonBlank, ToUpper, ToLower;
  }
}
