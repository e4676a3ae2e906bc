/** How one payment row changes: what each handler and worker computes from the
    row it has read, and the invariant that every such computation keeps. */
module Lifecycle {
  import opened Basics
  import opened Entity
  import opened Stripe

  /** A create request as the service receives it. */
  datatype CreateRequest = CreateRequest(
    requestID: string,
    callerService: string,
    resourceType: string,
    resourceID: string,
    customerRef: string,
    amountCents: int,
    currency: string,
    paymentMethod: int,
    paymentType: int,
    provider: int,
    recurringInterval: string,
    recurringIntervalCount: int,
    statusCallbackURL: string,
    metadata: map<string, string>)

  const ONE_TIME := 1
  const RECURRING := 2

  /** The request validation that both transports run before the service. */
  predicate ValidRequest(req: CreateRequest) {
    && !IsBlank(req.requestID) && !IsBlank(req.callerService)
    && !IsBlank(req.resourceType) && !IsBlank(req.resourceID)
    && req.amountCents > 0
    && |TrimSpace(req.currency)| == 3
    && (req.paymentMethod == HOSTED_CARD || req.paymentMethod == PAYMENT_LINK)
    && (req.paymentType == ONE_TIME || req.paymentType == RECURRING)
    && (req.provider == 0 || req.provider == STRIPE)
    && !IsBlank(req.statusCallbackURL)
    && (req.paymentType == RECURRING ==>
          && req.recurringInterval in ["day", "week", "month", "year"]
          && req.recurringIntervalCount > 0)
  }

  function ProviderCode(provider: int): int {
    if provider == 0 then STRIPE else provider
  }

  function PositiveCount(n: int): Option<int> {
    if n <= 0 then None else Some(n)
  }

  /** The row built for a new payment; its id is assigned by the insert. */
  function NewRow(req: CreateRequest, hash: string, out: CreateOutput, now: int): Payment {
    var row := Payment(
      0, TrimSpace(req.requestID), TrimSpace(req.callerService),
      TrimSpace(req.resourceType), TrimSpace(req.resourceID), NonBlank(req.customerRef),
      req.amountCents, ToUpper(TrimSpace(req.currency)),
      out.initialStatus, req.paymentMethod, req.paymentType, ProviderCode(req.provider),
      NonBlank(ToLower(TrimSpace(req.recurringInterval))), PositiveCount(req.recurringIntervalCount),
      out.providerPaymentID, out.providerSubscriptionID, out.checkoutURL,
      hash, out.callbackURL, TrimSpace(req.statusCallbackURL),
      0, req.amountCents, req.metadata,
      DELIVERY_NONE, 0, None, None, now, now);
    if TerminalStatus(row.status) then Marked(row, now) else row
  }

  function Marked(p: Payment, now: int): Payment {
    p.(delivery := DELIVERY_PENDING, attempts := 0, nextAt := Some(now), lastErr := None)
  }

  /** The outcome of trying to post the status to the caller's endpoint. */
  datatype Attempt =
    | EncodeError(error: Error)
    | SendError(error: Error, text: string)
    | Response(code: int)

  /** What makes a writer touch an existing row. */
  datatype Cause =
    | Cancel
    | Webhook(raw: RawEvent, payload: string)
    | Reconcile(reply: PollReply)
    | Dispatch(attempt: Attempt)
    | Expire

  /** What a writer does with the row it has read: nothing, or overwrite it, append
      an event, and report `error` to its caller after the write. */
  datatype Change =
    | Skip(error: Option<Error>)
    | Write(row: Payment, event: Option<PaymentEvent>, error: Option<Error>)

  /** The WHERE clause under which a worker picks up a row; handlers pick up any row. */
  predicate Selected(cfg: Config, p: Payment, cause: Cause, now: int) {
    match cause
    case Cancel => true
    case Webhook(_, _) => true
    case Reconcile(_) => DueForReconcile(p, now - cfg.reconcileStaleAfter)
    case Dispatch(_) => DueForDispatch(p, now)
    case Expire => DueForExpiry(p, now - cfg.pendingTimeout)
  }

  predicate DueForReconcile(p: Payment, before: int) {
    (p.status == PENDING || p.status == PROCESSING) && p.providerPaymentID.Some? && p.updatedAt <= before
  }

  predicate DueForDispatch(p: Payment, now: int) {
    p.delivery == DELIVERY_PENDING && p.nextAt.Some? && p.nextAt.value <= now
  }

  predicate DueForExpiry(p: Payment, cutoff: int) {
    (p.status == PENDING || p.status == PROCESSING) && p.createdAt <= cutoff
  }

  function ChangeOf(cfg: Config, p: Payment, cause: Cause, now: int): Change {
    match cause
    case Cancel => CancelChange(p, now)
    case Webhook(raw, payload) => WebhookChange(p, ParseEvent(raw), payload, now)
    case Reconcile(reply) => ReconcileChange(p, reply, now)
    case Dispatch(attempt) => DispatchChange(cfg, p, attempt, now)
    case Expire => ExpireChange(p, now)
  }

  function CancelChange(p: Payment, now: int): Change {
    if p.status == PAID then Skip(Some(InvalidStatus))
    else Write(
      Marked(p.(status := CANCELED), now).(updatedAt := now),
      Some(PaymentEvent(p.id, "payment_canceled", Some(p.status), CANCELED, None, None, now)),
      None)
  }

  function ExpireChange(p: Payment, now: int): Change {
    if p.status == EXPIRED then Skip(None)
    else Write(
      Marked(p.(status := EXPIRED), now).(updatedAt := now),
      Some(PaymentEvent(p.id, "payment_expired", Some(p.status), EXPIRED, None, None, now)),
      None)
  }

  function ReconcileChange(p: Payment, reply: PollReply, now: int): Change {
    if p.providerPaymentID.None? || IsBlank(p.providerPaymentID.value) then Skip(None)
    else if p.provider != STRIPE then Skip(Some(ProviderUnsupported))
    else match GetPaymentStatus(TrimSpace(p.providerPaymentID.value), reply)
      case Err(e) => Skip(Some(e))
      case Ok(status) =>
        if status == 0 || status == p.status then Skip(None)
        else
          var q := p.(status := status);
          Write(
            (if TerminalStatus(status) then Marked(q, now) else q).(updatedAt := now),
            Some(PaymentEvent(p.id, "payment_reconciled", Some(p.status), status, None, None, now)),
            None)
  }

  function WithIdentifiers(p: Payment, event: CallbackEvent): Payment {
    p.(providerPaymentID := if event.providerPaymentID.Some? then event.providerPaymentID else p.providerPaymentID,
       providerSubscriptionID := if event.providerSubscriptionID.Some? then event.providerSubscriptionID
                                 else p.providerSubscriptionID)
  }

  function WebhookChange(p: Payment, event: CallbackEvent, payload: string, now: int): (c: Change)
    ensures c.Write?
  {
    var q := WithIdentifiers(p, event).(status := if event.newStatus > 0 then event.newStatus else p.status);
    var row := if q.status != p.status && TerminalStatus(q.status) then Marked(q, now) else q;
    var kind := TrimSpace(event.eventType);
    Write(
      row.(updatedAt := now),
      Some(PaymentEvent(
        p.id, if kind == "" then "provider_callback" else kind,
        if q.status == p.status then None else Some(p.status), q.status,
        event.providerEventID, Some(payload), now)),
      None)
  }

  /** Whether the caller's endpoint acknowledged the callback. */
  predicate Accepted(attempt: Attempt) {
    attempt.Response? && 200 <= attempt.code < 300
  }

  function AttemptError(attempt: Attempt): (Error, string)
    requires !Accepted(attempt)
  {
    match attempt
    case EncodeError(e) => (e, "")
    case SendError(e, text) => (e, text)
    case Response(code) =>
      var text := "callback endpoint returned status=" + Decimal(code);
      (Other(text), text)
  }

  function Refused(cfg: Config, p: Payment, text: string, now: int): Payment {
    var tries := Wrap32(p.attempts + 1);
    var q := p.(attempts := tries, lastErr := Some(Truncate(text, 1024)), updatedAt := now);
    if tries >= cfg.MaxAttempts() then q.(delivery := DELIVERY_FAILED, nextAt := None)
    else q.(delivery := DELIVERY_PENDING, nextAt := Some(now + cfg.RetryInterval()))
  }

  function DispatchChange(cfg: Config, p: Payment, attempt: Attempt, now: int): Change {
    if IsBlank(p.statusCallbackURL) then
      Write(
        p.(delivery := DELIVERY_FAILED, nextAt := None,
           lastErr := Some("status_callback_url is empty"), updatedAt := now),
        None, None)
    else if attempt.EncodeError? then Skip(Some(attempt.error))
    else if Accepted(attempt) then
      Write(
        p.(delivery := DELIVERY_SUCCESS, nextAt := None, lastErr := None, updatedAt := now),
        Some(PaymentEvent(p.id, "callback_dispatched", None, p.status, None, None, now)),
        None)
    else
      var (error, text) := AttemptError(attempt);
      Write(
        Refused(cfg, p, text, now),
        Some(PaymentEvent(p.id, "callback_dispatch_failed", None, p.status, None, None, now)),
        Some(error))
  }

  /** The joint invariant of every stored row: delivery state, retry budget,
      error text, money and optional columns all fit the status. */
  predicate RowInv(cfg: Config, p: Payment) {
    && (p.status == PENDING || TerminalStatus(p.status))
    && DeliveryInv(cfg, p)
    && p.amountCents > 0 && p.refundedCents == 0 && p.refundedCents + p.refundableCents == p.amountCents
    && !IsBlank(p.statusCallbackURL)
    && p.provider == STRIPE
    && OptionalsInv(p)
  }

  predicate DeliveryInv(cfg: Config, p: Payment) {
    && (TerminalStatus(p.status) <==> p.delivery != DELIVERY_NONE)
    && (p.delivery == DELIVERY_PENDING <==> p.nextAt.Some?)
    && (p.lastErr.Some? ==> |p.lastErr.value| <= 1024)
    && (|| (p.delivery == DELIVERY_NONE && p.attempts == 0 && p.lastErr.None?)
        || (p.delivery == DELIVERY_PENDING && 0 <= p.attempts < cfg.MaxAttempts()
              && (p.lastErr.Some? <==> p.attempts > 0))
        || (p.delivery == DELIVERY_SUCCESS && 0 <= p.attempts < cfg.MaxAttempts() && p.lastErr.None?)
        || (p.delivery == DELIVERY_FAILED && p.attempts == cfg.MaxAttempts() && p.lastErr.Some?))
  }

  /** An optional column is never present but blank, nor a present count non-positive. */
  predicate OptionalsInv(p: Payment) {
    && Text(p.customerRef) && Text(p.recurringInterval)
    && Text(p.providerPaymentID) && Text(p.providerSubscriptionID) && Text(p.checkoutURL)
    && (p.recurringIntervalCount.Some? ==> p.recurringIntervalCount.value > 0)
  }

  predicate Text(o: Option<string>) {
    o.Some? ==> !IsBlank(o.value)
  }

  /** The columns that no writer changes once the row exists. */
  predicate SameIdentity(p: Payment, q: Payment) {
    && p.id == q.id && p.requestID == q.requestID && p.callerService == q.callerService
    && p.callbackHash == q.callbackHash && p.createdAt == q.createdAt
    && p.provider == q.provider && p.amountCents == q.amountCents && p.statusCallbackURL == q.statusCallbackURL
  }

  lemma NewRowInv(cfg: Config, req: CreateRequest, hash: string, callbackURL: string, reply: CreateReply, now: int)
    requires ValidRequest(req)
    ensures var row := NewRow(req, hash, Created(req.paymentMethod, callbackURL, reply), now);
            RowInv(cfg, row) && row.status == PENDING
  {
    TrimSpaceIdempotent(req.statusCallbackURL);
  }

  /** A new row is tied to what the provider created: workers poll it exactly if the session
      has an id, and links and hash are those handed out. */
  lemma NewRowLinks(req: CreateRequest, hash: string, callbackURL: string, reply: CreateReply, now: int, before: int)
    ensures var row := NewRow(req, hash, Created(req.paymentMethod, callbackURL, reply), now);
            && (DueForReconcile(row, before) <==> !IsBlank(reply.id) && now <= before)
            && (row.providerPaymentID.Some? ==> row.providerPaymentID.value == TrimSpace(reply.id))
            && (row.checkoutURL.Some? <==> !IsBlank(reply.url))
            && (row.checkoutURL.Some? ==> row.checkoutURL.value == TrimSpace(reply.url))
            && (row.providerSubscriptionID.Some? <==> req.paymentMethod == HOSTED_CARD && !IsBlank(reply.subscription))
            && (row.providerSubscriptionID.Some? ==> row.providerSubscriptionID.value == TrimSpace(reply.subscription))
            && row.callbackHash == hash && row.callbackURL == callbackURL
  {
    hide TrimSpace, ToLower, ToUpper;
  }

  /** A second cancel is not a no-op: it arms delivery again, unless it happens to find
      delivery just armed at the same instant. */
  lemma CancelIsNoOp(cfg: Config, p: Payment, now: int)
    requires RowInv(cfg, p)
    ensures var c := CancelChange(p, now);
            (c.Skip? || c.row == p.(updatedAt := now)) <==>
              || p.status == PAID
              || (p.status == CANCELED && p.delivery == DELIVERY_PENDING && p.attempts == 0 && p.nextAt == Some(now))
  {
    hide OptionalsInv, IsBlank;
    var c := CancelChange(p, now);
    if c.Write? {
      assert c.row == p.(updatedAt := now) <==>
        p.status == CANCELED && p.delivery == DELIVERY_PENDING && p.attempts == 0 && p.nextAt == Some(now)
        && p.lastErr == None;
    }
  }

  lemma MarkedKeepsRowInv(cfg: Config, p: Payment, status: int, now: int)
    requires RowInv(cfg, p) && TerminalStatus(status)
    ensures var row := Marked(p.(status := status), now).(updatedAt := now);
            RowInv(cfg, row) && SameIdentity(p, row)
  {
  }

  lemma ReconcileKeepsRowInv(cfg: Config, p: Payment, reply: PollReply, now: int)
    requires RowInv(cfg, p) && (p.status == PENDING || p.status == PROCESSING)
    ensures var c := ReconcileChange(p, reply, now);
            c.Write? ==> RowInv(cfg, c.row) && SameIdentity(p, c.row) && TerminalStatus(c.row.status)
  {
    if ReconcileChange(p, reply, now).Write? {
      var status := GetPaymentStatus(TrimSpace(p.providerPaymentID.value), reply).value;
      PollStatusRange(TrimSpace(p.providerPaymentID.value), reply);
      MarkedKeepsRowInv(cfg, p, status, now);
    }
  }

  lemma IdentifiersKeepRowInv(cfg: Config, p: Payment, raw: RawEvent)
    requires RowInv(cfg, p)
    ensures var q := WithIdentifiers(p, ParseEvent(raw)); RowInv(cfg, q) && SameIdentity(p, q) && q.status == p.status
  {
    hide ParseEvent, DeliveryInv, IsBlank;
    ParsedIdentifiers(raw);
    var q := WithIdentifiers(p, ParseEvent(raw));
    assert DeliveryInv(cfg, q) by { IdentifiersKeepDelivery(cfg, p, ParseEvent(raw)); }
  }

  lemma IdentifiersKeepDelivery(cfg: Config, p: Payment, event: CallbackEvent)
    requires DeliveryInv(cfg, p)
    ensures DeliveryInv(cfg, WithIdentifiers(p, event))
  {
  }

  lemma TouchedKeepsRowInv(cfg: Config, p: Payment, now: int)
    requires RowInv(cfg, p)
    ensures RowInv(cfg, p.(updatedAt := now)) && SameIdentity(p, p.(updatedAt := now))
  {
  }

  lemma IdentityTransitive(p: Payment, q: Payment, r: Payment)
    requires SameIdentity(p, q) && SameIdentity(q, r)
    ensures SameIdentity(p, r)
  {
  }

  lemma WebhookKeepsRowInv(cfg: Config, p: Payment, raw: RawEvent, payload: string, now: int)
    requires RowInv(cfg, p)
    ensures var c := WebhookChange(p, ParseEvent(raw), payload, now);
            c.Write? && RowInv(cfg, c.row) && SameIdentity(p, c.row)
  {
    hide ParseEvent, RowInv, SameIdentity, WithIdentifiers;
    var event := ParseEvent(raw);
    EventStatusRange(raw);
    var q := WithIdentifiers(p, event);
    IdentifiersKeepRowInv(cfg, p, raw);
    if event.newStatus > 0 && event.newStatus != p.status {
      MarkedKeepsRowInv(cfg, q, event.newStatus, now);
      IdentityTransitive(p, q, Marked(q.(status := event.newStatus), now).(updatedAt := now));
    } else {
      assert q.(status := p.status) == q;
      TouchedKeepsRowInv(cfg, q, now);
      IdentityTransitive(p, q, q.(updatedAt := now));
    }
  }

  lemma RefusedKeepsRowInv(cfg: Config, p: Payment, text: string, now: int)
    requires RowInv(cfg, p) && p.delivery == DELIVERY_PENDING
    ensures RowInv(cfg, Refused(cfg, p, text, now)) && SameIdentity(p, Refused(cfg, p, text, now))
  {
    var row := Refused(cfg, p, text, now);
    assert Wrap32(p.attempts + 1) == p.attempts + 1;
    assert DeliveryInv(cfg, row);
  }

  lemma DispatchKeepsRowInv(cfg: Config, p: Payment, attempt: Attempt, now: int)
    requires RowInv(cfg, p) && p.delivery == DELIVERY_PENDING
    ensures var c := DispatchChange(cfg, p, attempt, now);
            c.Write? ==> RowInv(cfg, c.row) && SameIdentity(p, c.row) && c.row.status == p.status
  {
    if !Accepted(attempt) && !attempt.EncodeError? {
      RefusedKeepsRowInv(cfg, p, AttemptError(attempt).1, now);
    }
  }

  /** The three outcomes of a delivery attempt on a due row, and what each leaves there. */
  lemma DispatchOutcome(cfg: Config, p: Payment, attempt: Attempt, now: int)
    requires RowInv(cfg, p) && DueForDispatch(p, now)
    ensures var c := DispatchChange(cfg, p, attempt, now);
            && (c.Skip? <==> attempt.EncodeError?)
            && (c.error.None? <==> Accepted(attempt))
            && (c.Write? ==>
                  && c.row.updatedAt == now
                  && (c.row.delivery == DELIVERY_SUCCESS <==> Accepted(attempt))
                  && (c.row.delivery == DELIVERY_FAILED <==> !Accepted(attempt) && p.attempts + 1 == cfg.MaxAttempts())
                  && (c.row.delivery == DELIVERY_PENDING <==> !Accepted(attempt) && p.attempts + 1 < cfg.MaxAttempts())
                  && c.row.attempts == p.attempts + (if Accepted(attempt) then 0 else 1)
                  && (c.row.nextAt.Some? ==> c.row.nextAt.value == now + cfg.RetryInterval())
                  && (c.row.lastErr.Some? <==> !Accepted(attempt)))
  {
    hide Decimal, AttemptError, IsBlank, OptionalsInv;
    AttemptsNeverOverflow(cfg, p, now);
  }

  /** Whatever a writer computes from a row that satisfies the invariant and its own
      selection, the result satisfies the invariant and keeps the row's identity. */
  lemma ChangeKeepsRowInv(cfg: Config, p: Payment, cause: Cause, now: int)
    requires RowInv(cfg, p) && Selected(cfg, p, cause, now)
    ensures var c := ChangeOf(cfg, p, cause, now);
            c.Write? ==> RowInv(cfg, c.row) && SameIdentity(p, c.row)
  {
    match cause
    case Cancel => MarkedKeepsRowInv(cfg, p, CANCELED, now);
    case Webhook(raw, payload) => WebhookKeepsRowInv(cfg, p, raw, payload, now);
    case Reconcile(reply) => ReconcileKeepsRowInv(cfg, p, reply, now);
    case Dispatch(attempt) => DispatchKeepsRowInv(cfg, p, attempt, now);
    case Expire => MarkedKeepsRowInv(cfg, p, EXPIRED, now);
  }

  /** The 32-bit attempt counter never wraps on a row that is due. */
  lemma AttemptsNeverOverflow(cfg: Config, p: Payment, now: int)
    requires RowInv(cfg, p) && DueForDispatch(p, now)
    ensures Wrap32(p.attempts + 1) == p.attempts + 1 <= cfg.MaxAttempts()
  {
  }
}
