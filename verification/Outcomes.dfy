/** What each operation does to a reachable row, spelled out case by case in terms of the
    provider's answers, the endpoint's answers and the columns alone. */
module Outcomes {
  import opened Basics
  import opened Entity
  import opened Stripe
  import opened Lifecycle
  import opened Table
  import opened Serial
  import opened Batches

  /** The wire codes, as the database and the API know them. */
  lemma Codes()
    ensures [PENDING, PROCESSING, PAID, FAILED, CANCELED, EXPIRED] == [2, 3, 10, 20, 30, 40]
    ensures [DELIVERY_NONE, DELIVERY_PENDING, DELIVERY_SUCCESS, DELIVERY_FAILED] == [0, 1, 10, 20]
    ensures [STRIPE, HOSTED_CARD, PAYMENT_LINK, ONE_TIME, RECURRING] == [1, 1, 2, 1, 2]
    ensures forall s :: TerminalStatus(s) <==> s in {10, 20, 30, 40}
  {
  }

  /** The row with a new status that its caller is to be told of at once. */
  function Moved(p: Payment, status: int, now: int): Payment {
    p.(status := status, delivery := DELIVERY_PENDING, attempts := 0, nextAt := Some(now), lastErr := None,
       updatedAt := now)
  }

  function MovedEvent(p: Payment, kind: string, status: int, now: int): PaymentEvent {
    PaymentEvent(p.id, kind, Some(p.status), status, None, None, now)
  }

  // ----- Handlers -----

  lemma CancelOutcome(cfg: Config, p: Payment, now: int)
    ensures ChangeOf(cfg, p, Cancel, now)
         == if p.status == PAID then Skip(Some(InvalidStatus))
            else Write(Moved(p, CANCELED, now), Some(MovedEvent(p, "payment_canceled", CANCELED, now)), None)
  {
  }

  /** What a create does to table and log when the database does not fail: nothing if some
      row has its trimmed key or its hash, and otherwise one PENDING row and one event. */
  lemma CreateOutcome(cfg: Config, db: Db, op: Op)
    requires DbInv(cfg, db) && op.Create? && ValidOp(op) && op.fault == Fault(None, false)
    ensures var key := (TrimSpace(op.req.callerService), TrimSpace(op.req.requestID));
            var taken := exists id :: id in db.rows
                           && ((db.rows[id].callerService, db.rows[id].requestID) == key
                               || (db.rows[id].provider == STRIPE && db.rows[id].callbackHash == op.hash));
            Do(cfg, db, op)
              == if taken then db
                 else Db(
                   db.rows[db.nextID := CreatedRow(op).(id := db.nextID)], db.nextID + 1,
                   db.events + [PaymentEvent(db.nextID, "payment_created", None, PENDING, None, None, op.now)])
  {
    hide RowInv, TrimSpace, NonBlank, ToUpper, ToLower, ValidRequest;
    CreateEffect(cfg, db, op);
    NewKey(op);
  }

  lemma NewKey(op: Op)
    requires op.Create? && ValidOp(op)
    ensures var row := CreatedRow(op);
            && row.callerService == TrimSpace(op.req.callerService) && row.requestID == TrimSpace(op.req.requestID)
            && row.provider == STRIPE && row.callbackHash == op.hash && row.createdAt == op.now
  {
    hide TrimSpace, NonBlank, ToUpper, ToLower;
  }

  /** The status that a webhook kind names, if any. */
  function NamedStatus(kind: string): Option<int> {
    if kind in {"checkout.session.completed", "checkout.session.async_payment_succeeded", "invoice.paid"} then
      Some(PAID)
    else if kind in {"checkout.session.async_payment_failed", "invoice.payment_failed"} then Some(FAILED)
    else if kind == "checkout.session.expired" then Some(EXPIRED)
    else if kind == "customer.subscription.deleted" then Some(CANCELED)
    else None
  }

  lemma NamedIsEventStatus(kind: string)
    ensures EventStatus(kind) == if NamedStatus(kind).Some? then NamedStatus(kind).value else 0
    ensures NamedStatus(kind).Some? ==> TerminalStatus(NamedStatus(kind).value)
  {
    EventStatusRange(RawEvent("", kind, "", ""));
  }

  /** The identifiers that a webhook gives the row: a deleted subscription names itself,
      any other mapped object a payment, possibly with its subscription. */
  function NamedPayment(raw: RawEvent): Option<string> {
    if NamedStatus(raw.kind).None? || NamedStatus(raw.kind) == Some(CANCELED) then None else NonBlank(raw.objectID)
  }

  function NamedSubscription(raw: RawEvent): Option<string> {
    if NamedStatus(raw.kind).None? then None
    else if NamedStatus(raw.kind) == Some(CANCELED) then NonBlank(raw.objectID)
    else NonBlank(raw.subscription)
  }

  function OrElse(o: Option<string>, kept: Option<string>): Option<string> {
    if o.Some? then o else kept
  }

  /** What a webhook does to the row, and what it logs: the event's own id and kind, the
      old status if it changed, and the payload. */
  lemma WebhookOutcome(cfg: Config, p: Payment, raw: RawEvent, payload: string, now: int)
    ensures var c, named := ChangeOf(cfg, p, Webhook(raw, payload), now), NamedStatus(raw.kind);
            var status := if named.Some? then named.value else p.status;
            var kind := if IsBlank(raw.kind) then "provider_callback" else TrimSpace(raw.kind);
            var before := if status == p.status then None else Some(p.status);
            && c.Write? && c.error.None?
            && c.row == (if status == p.status then p.(updatedAt := now) else Moved(p, status, now)).(
                 providerPaymentID := OrElse(NamedPayment(raw), p.providerPaymentID),
                 providerSubscriptionID := OrElse(NamedSubscription(raw), p.providerSubscriptionID))
            && c.event == Some(PaymentEvent(p.id, kind, before, status, NonBlank(raw.id), Some(payload), now))
  {
    hide EventStatus, TrimSpace, NamedStatus, ParseEvent, NamedPayment, NamedSubscription;
    NamedIsEventStatus(raw.kind);
    ParsedEventNames(raw);
    IdentifiersNamed(raw);
  }

  lemma IdentifiersNamed(raw: RawEvent)
    ensures ParseEvent(raw).providerPaymentID == NamedPayment(raw)
    ensures ParseEvent(raw).providerSubscriptionID == NamedSubscription(raw)
  {
    hide TrimSpace, EventStatus, NamedStatus;
    NamedIsEventStatus(raw.kind);
    EventStatusRange(raw);
    ParsedIdentifiers(raw);
  }

  lemma ParsedEventNames(raw: RawEvent)
    ensures var e := ParseEvent(raw);
            e.eventType == raw.kind && e.providerEventID == NonBlank(raw.id) && e.newStatus == EventStatus(raw.kind)
  {
    hide TrimSpace, EventStatus;
    ParsedIdentifiers(raw);
    EventIdIsNonBlank(raw);
  }

  lemma EventIdIsNonBlank(raw: RawEvent)
    ensures ParseEvent(raw).providerEventID == NonBlank(raw.id)
  {
    hide TrimSpace, EventStatus;
  }

  // ----- Polls -----

  /** The status that a poll reply gives a pending row, if it changes it. */
  function PolledStatus(reply: PollReply): Option<int> {
    match reply
    case PollError(_) => None
    case Session(status, paymentStatus) =>
      if status == "expired" then Some(EXPIRED)
      else if paymentStatus == "paid" || paymentStatus == "no_payment_required" then Some(PAID)
      else None
  }

  /** A pending row is moved by a reply that reports expiry or payment and is left alone by
      any other; only a failed poll is an error. */
  lemma ReconcileOutcome(cfg: Config, p: Payment, reply: PollReply, now: int)
    requires RowInv(cfg, p) && p.status == PENDING && p.providerPaymentID.Some?
    ensures var status := PolledStatus(reply);
            ChangeOf(cfg, p, Reconcile(reply), now)
              == if reply.PollError? then Skip(Some(reply.error))
                 else if status.None? then Skip(None)
                 else Write(
                   Moved(p, status.value, now), Some(MovedEvent(p, "payment_reconciled", status.value, now)), None)
  {
    hide TrimSpace, DeliveryInv, GetPaymentStatus;
    TrimSpaceIdempotent(p.providerPaymentID.value);
    PollStatusRange(TrimSpace(p.providerPaymentID.value), reply);
  }

  lemma ExpireOutcome(cfg: Config, p: Payment, now: int)
    requires p.status == PENDING
    ensures ChangeOf(cfg, p, Expire, now)
         == Write(Moved(p, EXPIRED, now), Some(MovedEvent(p, "payment_expired", EXPIRED, now)), None)
  {
  }

  // ----- Delivery -----

  /** A row after a failed attempt: given up after the last one that the configuration
      allows, otherwise due again after the interval. */
  function FailedRow(cfg: Config, p: Payment, text: string, now: int): Payment {
    var kept := if |text| <= 1024 then text else text[..1024];
    if p.attempts + 1 < cfg.MaxAttempts() then
      p.(attempts := p.attempts + 1, lastErr := Some(kept), nextAt := Some(now + cfg.RetryInterval()), updatedAt := now)
    else
      p.(attempts := cfg.MaxAttempts(), lastErr := Some(kept), nextAt := None, delivery := DELIVERY_FAILED,
         updatedAt := now)
  }

  function StatusText(code: int): string {
    "callback endpoint returned status=" + Decimal(code)
  }

  /** A due row after an attempt whose write lands. */
  function AttemptedRow(cfg: Config, p: Payment, attempt: Attempt, now: int): Payment {
    match attempt
    case EncodeError(_) => p
    case SendError(_, text) => FailedRow(cfg, p, text, now)
    case Response(code) =>
      if 200 <= code <= 299 then
        p.(delivery := DELIVERY_SUCCESS, nextAt := None, lastErr := None, updatedAt := now)
      else FailedRow(cfg, p, StatusText(code), now)
  }

  /** The error that an attempt reports. */
  function AttemptReport(attempt: Attempt): Option<Error> {
    match attempt
    case EncodeError(e) => Some(e)
    case SendError(e, _) => Some(e)
    case Response(code) => if 200 <= code <= 299 then None else Some(Other(StatusText(code)))
  }

  lemma RefusedIsFailed(cfg: Config, p: Payment, text: string, now: int)
    requires RowInv(cfg, p) && DueForDispatch(p, now)
    ensures Refused(cfg, p, text, now) == FailedRow(cfg, p, text, now)
  {
    hide OptionalsInv, IsBlank;
    AttemptsNeverOverflow(cfg, p, now);
  }

  lemma AttemptOutcome(cfg: Config, p: Payment, attempt: Attempt, now: int)
    requires RowInv(cfg, p) && DueForDispatch(p, now)
    ensures var c := ChangeOf(cfg, p, Dispatch(attempt), now);
            && c.error == AttemptReport(attempt)
            && (c.Skip? <==> attempt.EncodeError?)
            && (c.Write? ==>
                  && c.row == AttemptedRow(cfg, p, attempt, now)
                  && c.event == Some(PaymentEvent(
                       p.id,
                       if AttemptReport(attempt).None? then "callback_dispatched" else "callback_dispatch_failed",
                       None, p.status, None, None, now)))
  {
    hide Refused, FailedRow, IsBlank, DeliveryInv, OptionalsInv, Decimal;
    if !attempt.EncodeError? && !Accepted(attempt) {
      RefusedIsFailed(cfg, p, AttemptError(attempt).1, now);
    }
  }

  // ----- Selection -----

  /** The reachable rows that each worker selects. */
  lemma DueExactly(cfg: Config, p: Payment, now: int)
    requires RowInv(cfg, p)
    ensures DueForReconcile(p, now - cfg.reconcileStaleAfter)
        <==> p.status == PENDING && p.providerPaymentID.Some? && p.updatedAt <= now - cfg.reconcileStaleAfter
    ensures forall reply :: Selected(cfg, p, Reconcile(reply), now) == DueForReconcile(p, now - cfg.reconcileStaleAfter)
    ensures DueForDispatch(p, now) <==> p.delivery == DELIVERY_PENDING && p.nextAt.value <= now
    ensures forall attempt :: Selected(cfg, p, Dispatch(attempt), now) == DueForDispatch(p, now)
    ensures DueForExpiry(p, now - cfg.pendingTimeout) == Selected(cfg, p, Expire, now)
    ensures Selected(cfg, p, Expire, now) <==> p.status == PENDING && p.createdAt <= now - cfg.pendingTimeout
    ensures Selected(cfg, p, Cancel, now) && forall raw, payload :: Selected(cfg, p, Webhook(raw, payload), now)
  {
    hide OptionalsInv;
  }

  // ----- Batches -----

  /** `chosen` are as many of `all` as fit, none of them after one left out. */
  ghost predicate FirstBy(rows: Rows, all: set<nat>, chosen: set<nat>, limit: nat, time: Payment -> int) {
    && chosen <= all && all <= rows.Keys && |chosen| == Min(|all|, limit)
    && forall i, j :: i in chosen && j in all && j !in chosen ==> time(rows[i]) <= time(rows[j])
  }

  lemma SelectionIsFirst(rows: Rows, due: Payment -> bool, key: Payment -> int, limit: nat, ids: seq<nat>)
    requires IsSelection(rows, due, key, limit, ids)
    ensures FirstBy(rows, DueSet(rows, due), IdSet(ids), limit, key)
  {
    DistinctSize(ids);
  }

  function CreationTime(p: Payment): int { p.createdAt }
  function UpdateTime(p: Payment): int { p.updatedAt }
  function DueTime(p: Payment): int { if p.nextAt.Some? then p.nextAt.value else 0 }

  // Expiry.

  ghost function OldPending(cfg: Config, rows: Rows, now: int): set<nat> {
    set id | id in rows && rows[id].status == PENDING && rows[id].createdAt <= now - cfg.pendingTimeout
  }

  function ExpiredRow(p: Payment, now: int, fault: Fault): Payment {
    if fault.write.None? then Moved(p, EXPIRED, now) else p
  }

  /** Of the pending rows created at least the timeout ago, as many as a batch holds, oldest
      first, end EXPIRED unless their write fails; no other row changes. */
  ghost predicate ExpiresOldest(cfg: Config, rows: Rows, after: Rows, now: int, fault: nat -> Fault) {
    exists chosen: set<nat> ::
      && FirstBy(rows, OldPending(cfg, rows, now), chosen, cfg.BatchSize(), CreationTime)
      && after == map id | id in rows :: if id in chosen then ExpiredRow(rows[id], now, fault(id)) else rows[id]
  }

  lemma ExpiryRow(cfg: Config, p: Payment, b: Batch)
    requires RowInv(cfg, p) && b.cause(p.id) == Expire
    ensures DueForExpiry(p, b.now - cfg.pendingTimeout)
        <==> p.status == PENDING && p.createdAt <= b.now - cfg.pendingTimeout
    ensures p.status == PENDING ==> RowAfter(cfg, p, b) == ExpiredRow(p, b.now, b.fault(p.id))
  {
    hide RowInv, ChangeOf, DueForExpiry, Moved, MovedEvent;
    DueExactly(cfg, p, b.now);
    if p.status == PENDING {
      ExpireOutcome(cfg, p, b.now);
    }
  }

  lemma ExpiryBatch(cfg: Config, before: Db, ids: seq<nat>, b: Batch)
    requires DbInv(cfg, before) && forall id :: b.cause(id) == Expire
    requires IsSelection(before.rows, ExpiryDue(b.now - cfg.pendingTimeout), ByCreation(), cfg.BatchSize(), ids)
    ensures ExpiresOldest(cfg, before.rows, AtOnce(cfg, before.rows, ids, b), b.now, b.fault)
  {
    hide RowInv, IsSelection, RowAfter, DueForExpiry, ExpiredRow, FirstBy, Config.BatchSize;
    var rows, due := before.rows, ExpiryDue(b.now - cfg.pendingTimeout);
    forall id | id in rows
      ensures due(rows[id]) <==> id in OldPending(cfg, rows, b.now)
      ensures id in OldPending(cfg, rows, b.now) ==>
                RowAfter(cfg, rows[id], b) == ExpiredRow(rows[id], b.now, b.fault(id))
    {
      ExpiryRow(cfg, rows[id], b);
    }
    assert DueSet(rows, due) == OldPending(cfg, rows, b.now);
    SelectionIsFirst(rows, due, ByCreation(), cfg.BatchSize(), ids);
    SameOrder(rows, DueSet(rows, due), IdSet(ids), cfg.BatchSize(), ByCreation(), CreationTime);
    ChosenAre(rows, DueSet(rows, due), IdSet(ids), cfg.BatchSize(), CreationTime);
  }

  lemma SameOrder(
      rows: Rows, all: set<nat>, chosen: set<nat>, limit: nat, key: Payment -> int, time: Payment -> int)
    requires FirstBy(rows, all, chosen, limit, key) && forall p :: key(p) == time(p)
    ensures FirstBy(rows, all, chosen, limit, time)
  {
  }

  lemma ChosenAre(rows: Rows, all: set<nat>, chosen: set<nat>, limit: nat, time: Payment -> int)
    requires FirstBy(rows, all, chosen, limit, time)
    ensures chosen <= all && (|all| <= limit ==> chosen == all)
  {
    if |all| <= limit {
      SubsetSize(all - chosen, all);
      assert all == chosen + (all - chosen);
    }
  }

  /** If a batch holds all old pending payments and its writes succeed, each of them ends
      EXPIRED, and all others stay as they are. */
  lemma AllOldExpire(cfg: Config, rows: Rows, after: Rows, now: int, fault: nat -> Fault)
    requires ExpiresOldest(cfg, rows, after, now, fault)
    requires |OldPending(cfg, rows, now)| <= cfg.BatchSize() && forall id :: fault(id).write.None?
    ensures after.Keys == rows.Keys
    ensures forall id :: id in rows ==>
              after[id] == if rows[id].status == PENDING && rows[id].createdAt <= now - cfg.pendingTimeout
                           then Moved(rows[id], EXPIRED, now) else rows[id]
  {
    hide FirstBy, Moved, Config.BatchSize;
    var all := OldPending(cfg, rows, now);
    var chosen: set<nat> :|
      && FirstBy(rows, all, chosen, cfg.BatchSize(), CreationTime)
      && after == map id | id in rows :: if id in chosen then ExpiredRow(rows[id], now, fault(id)) else rows[id];
    ChosenAre(rows, all, chosen, cfg.BatchSize(), CreationTime);
  }

  // Reconciling.

  ghost function StalePending(cfg: Config, rows: Rows, now: int): set<nat> {
    set id | id in rows && rows[id].status == PENDING && rows[id].providerPaymentID.Some?
             && rows[id].updatedAt <= now - cfg.reconcileStaleAfter
  }

  function PolledRow(p: Payment, now: int, reply: PollReply, fault: Fault): Payment {
    if fault.write.None? && PolledStatus(reply).Some? then Moved(p, PolledStatus(reply).value, now) else p
  }

  /** Of the pending rows with a provider payment that were last updated at least the stale
      time ago, as many as a batch holds, stalest first, are moved to what the provider
      says of them unless their write fails; no other row changes. */
  ghost predicate ReconcilesStalest(
      cfg: Config, rows: Rows, after: Rows, now: int, reply: nat -> PollReply, fault: nat -> Fault) {
    exists chosen: set<nat> ::
      && FirstBy(rows, StalePending(cfg, rows, now), chosen, cfg.BatchSize(), UpdateTime)
      && after == map id | id in rows ::
           if id in chosen then PolledRow(rows[id], now, reply(id), fault(id)) else rows[id]
  }

  lemma ReconcileRow(cfg: Config, p: Payment, b: Batch, reply: PollReply)
    requires RowInv(cfg, p) && b.cause(p.id) == Reconcile(reply)
    ensures DueForReconcile(p, b.now - cfg.reconcileStaleAfter)
        <==> p.status == PENDING && p.providerPaymentID.Some? && p.updatedAt <= b.now - cfg.reconcileStaleAfter
    ensures p.status == PENDING && p.providerPaymentID.Some? ==>
              RowAfter(cfg, p, b) == PolledRow(p, b.now, reply, b.fault(p.id))
  {
    hide RowInv, ChangeOf, DueForReconcile, Moved, MovedEvent, PolledStatus;
    DueExactly(cfg, p, b.now);
    if p.status == PENDING && p.providerPaymentID.Some? {
      ReconcileOutcome(cfg, p, reply, b.now);
      ReplyMoves(reply);
    }
  }

  lemma ReplyMoves(reply: PollReply)
    ensures reply.PollError? ==> PolledStatus(reply).None?
  {
  }

  lemma StaleBatch(cfg: Config, before: Db, ids: seq<nat>, b: Batch, reply: nat -> PollReply)
    requires DbInv(cfg, before) && forall id :: b.cause(id) == Reconcile(reply(id))
    requires IsSelection(before.rows, ReconcileDue(b.now - cfg.reconcileStaleAfter), ByUpdate(), cfg.BatchSize(), ids)
    ensures ReconcilesStalest(cfg, before.rows, AtOnce(cfg, before.rows, ids, b), b.now, reply, b.fault)
  {
    hide RowInv, IsSelection, RowAfter, DueForReconcile, PolledRow, FirstBy, Config.BatchSize;
    var rows, due := before.rows, ReconcileDue(b.now - cfg.reconcileStaleAfter);
    forall id | id in rows
      ensures due(rows[id]) <==> id in StalePending(cfg, rows, b.now)
      ensures id in StalePending(cfg, rows, b.now) ==>
                RowAfter(cfg, rows[id], b) == PolledRow(rows[id], b.now, reply(id), b.fault(id))
    {
      ReconcileRow(cfg, rows[id], b, reply(id));
    }
    assert DueSet(rows, due) == StalePending(cfg, rows, b.now);
    SelectionIsFirst(rows, due, ByUpdate(), cfg.BatchSize(), ids);
    SameOrder(rows, DueSet(rows, due), IdSet(ids), cfg.BatchSize(), ByUpdate(), UpdateTime);
    ChosenAre(rows, DueSet(rows, due), IdSet(ids), cfg.BatchSize(), UpdateTime);
  }

  /** If a batch holds all stale payments, its writes succeed and the provider answers that
      each of them is paid, each of them ends PAID. */
  lemma PaidSessionsReconcile(
      cfg: Config, rows: Rows, after: Rows, now: int, reply: nat -> PollReply, fault: nat -> Fault, id: nat)
    requires ReconcilesStalest(cfg, rows, after, now, reply, fault)
    requires |StalePending(cfg, rows, now)| <= cfg.BatchSize() && id in StalePending(cfg, rows, now)
    requires fault(id).write.None? && reply(id) == Session("complete", "paid")
    ensures id in after && after[id] == Moved(rows[id], PAID, now)
  {
    hide FirstBy, Moved, Config.BatchSize;
    var all := StalePending(cfg, rows, now);
    var chosen: set<nat> :|
      && FirstBy(rows, all, chosen, cfg.BatchSize(), UpdateTime)
      && after == map id | id in rows ::
           if id in chosen then PolledRow(rows[id], now, reply(id), fault(id)) else rows[id];
    ChosenAre(rows, all, chosen, cfg.BatchSize(), UpdateTime);
  }

  // Delivery.

  ghost function DueDeliveries(rows: Rows, now: int): set<nat> {
    set id | id in rows && rows[id].delivery == DELIVERY_PENDING
             && rows[id].nextAt.Some? && rows[id].nextAt.value <= now
  }

  function DeliveredRow(cfg: Config, p: Payment, now: int, attempt: Attempt, fault: Fault): Payment {
    if fault.write.None? then AttemptedRow(cfg, p, attempt, now) else p
  }

  /** Of the rows whose delivery is pending and due, as many as a batch holds, by due time,
      are left as their attempt says unless their write fails; no other row changes. */
  ghost predicate DispatchesDue(
      cfg: Config, rows: Rows, after: Rows, now: int, attempt: nat -> Attempt, fault: nat -> Fault) {
    exists chosen: set<nat> ::
      && FirstBy(rows, DueDeliveries(rows, now), chosen, cfg.BatchSize(), DueTime)
      && after == map id | id in rows ::
           if id in chosen then DeliveredRow(cfg, rows[id], now, attempt(id), fault(id)) else rows[id]
  }

  lemma DeliveryRow(cfg: Config, p: Payment, b: Batch, attempt: Attempt)
    requires RowInv(cfg, p) && b.cause(p.id) == Dispatch(attempt) && DueForDispatch(p, b.now)
    ensures RowAfter(cfg, p, b) == DeliveredRow(cfg, p, b.now, attempt, b.fault(p.id))
  {
    hide RowInv, ChangeOf, DueForDispatch, FailedRow, AttemptReport;
    AttemptOutcome(cfg, p, attempt, b.now);
  }

  lemma DueBatch(cfg: Config, before: Db, ids: seq<nat>, b: Batch, attempt: nat -> Attempt)
    requires DbInv(cfg, before) && forall id :: b.cause(id) == Dispatch(attempt(id))
    requires IsSelection(before.rows, DispatchDue(b.now), ByNextAt(), cfg.BatchSize(), ids)
    ensures DispatchesDue(cfg, before.rows, AtOnce(cfg, before.rows, ids, b), b.now, attempt, b.fault)
  {
    hide RowInv, IsSelection, RowAfter, DueForDispatch, DeliveredRow, FirstBy, Config.BatchSize;
    var rows, due := before.rows, DispatchDue(b.now);
    forall id | id in rows
      ensures due(rows[id]) <==> id in DueDeliveries(rows, b.now)
      ensures id in DueDeliveries(rows, b.now) ==>
                RowAfter(cfg, rows[id], b) == DeliveredRow(cfg, rows[id], b.now, attempt(id), b.fault(id))
    {
      DueExactly(cfg, rows[id], b.now);
      PendingHasTime(cfg, rows[id]);
      if due(rows[id]) {
        DeliveryRow(cfg, rows[id], b, attempt(id));
      }
    }
    assert DueSet(rows, due) == DueDeliveries(rows, b.now);
    SelectionIsFirst(rows, due, ByNextAt(), cfg.BatchSize(), ids);
    SameOrder(rows, DueSet(rows, due), IdSet(ids), cfg.BatchSize(), ByNextAt(), DueTime);
    ChosenAre(rows, DueSet(rows, due), IdSet(ids), cfg.BatchSize(), DueTime);
  }

  lemma PendingHasTime(cfg: Config, p: Payment)
    requires RowInv(cfg, p)
    ensures p.delivery == DELIVERY_PENDING <==> p.nextAt.Some?
  {
  }
}
