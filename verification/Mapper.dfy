/** The projection of a payment onto the message that the API returns: delivery state is
    dropped, times are cut to whole seconds, and an absent optional value becomes the zero
    value of its type. */
module Mapper {
  import opened Basics
  import opened Entity
  import opened Lifecycle
  import opened Serial
  import opened Repository

  const SECOND: int := 1_000_000_000

  /** The API message; its times stand for RFC 3339 texts in UTC, as seconds since the epoch. */
  datatype Message = Message(
    id: nat,
    requestID: string,
    callerService: string,
    resourceType: string,
    resourceID: string,
    customerRef: string,
    amountCents: int,
    currency: string,
    status: int,
    paymentMethod: int,
    paymentType: int,
    provider: int,
    recurringInterval: string,
    recurringIntervalCount: int,
    providerPaymentID: string,
    providerSubscriptionID: string,
    checkoutURL: string,
    callbackHash: string,
    callbackURL: string,
    statusCallbackURL: string,
    refundedCents: int,
    refundableCents: int,
    metadata: map<string, string>,
    createdAt: int,
    updatedAt: int)

  function Deref<T>(o: Option<T>, zero: T): T {
    if o.None? then zero else o.value
  }

  function ToMessage(p: Payment): Message {
    Message(
      p.id, p.requestID, p.callerService, p.resourceType, p.resourceID, Deref(p.customerRef, ""),
      p.amountCents, p.currency, p.status, p.paymentMethod, p.paymentType, p.provider,
      Deref(p.recurringInterval, ""), Deref(p.recurringIntervalCount, 0),
      Deref(p.providerPaymentID, ""), Deref(p.providerSubscriptionID, ""), Deref(p.checkoutURL, ""),
      p.callbackHash, p.callbackURL, p.statusCallbackURL,
      p.refundedCents, p.refundableCents, p.metadata,
      p.createdAt / SECOND, p.updatedAt / SECOND)
  }

  function Optional<T(==)>(value: T, zero: T): Option<T> {
    if value == zero then None else Some(value)
  }

  /** Reading a message back: zero values mean absent, and nothing is known of delivery. */
  function FromMessage(m: Message): Payment {
    Payment(
      m.id, m.requestID, m.callerService, m.resourceType, m.resourceID, Optional(m.customerRef, ""),
      m.amountCents, m.currency, m.status, m.paymentMethod, m.paymentType, m.provider,
      Optional(m.recurringInterval, ""), Optional(m.recurringIntervalCount, 0),
      Optional(m.providerPaymentID, ""), Optional(m.providerSubscriptionID, ""), Optional(m.checkoutURL, ""),
      m.callbackHash, m.callbackURL, m.statusCallbackURL,
      m.refundedCents, m.refundableCents, m.metadata,
      DELIVERY_NONE, 0, None, None,
      m.createdAt * SECOND, m.updatedAt * SECOND)
  }

  function WholeSeconds(t: int): int {
    t - t % SECOND
  }

  /** What a caller of the API may learn about a payment. */
  function Visible(p: Payment): Payment {
    p.(delivery := DELIVERY_NONE, attempts := 0, nextAt := None, lastErr := None,
       createdAt := WholeSeconds(p.createdAt), updatedAt := WholeSeconds(p.updatedAt))
  }

  predicate Unambiguous(p: Payment) {
    && p.customerRef != Some("") && p.recurringInterval != Some("")
    && p.providerPaymentID != Some("") && p.providerSubscriptionID != Some("") && p.checkoutURL != Some("")
    && p.recurringIntervalCount != Some(0)
  }

  lemma OptionalDeref<T>(o: Option<T>, zero: T)
    ensures Optional(Deref(o, zero), zero) == o <==> o != Some(zero)
  {
  }

  lemma SecondsRoundTrip(t: int)
    ensures t / SECOND * SECOND == WholeSeconds(t)
  {
  }

  /** The projection loses nothing visible exactly on rows without a present zero value. */
  lemma MessageRoundTrip(p: Payment)
    ensures FromMessage(ToMessage(p)) == Visible(p) <==> Unambiguous(p)
  {
    hide Optional, Deref, WholeSeconds;
    OptionalDeref(p.customerRef, "");
    OptionalDeref(p.recurringInterval, "");
    OptionalDeref(p.recurringIntervalCount, 0);
    OptionalDeref(p.providerPaymentID, "");
    OptionalDeref(p.providerSubscriptionID, "");
    OptionalDeref(p.checkoutURL, "");
    SecondsRoundTrip(p.createdAt);
    SecondsRoundTrip(p.updatedAt);
  }

  /** Two rows yield the same message only if they look alike to a caller. */
  lemma MessagesTell(p: Payment, q: Payment)
    requires Unambiguous(p) && Unambiguous(q)
    ensures ToMessage(p) == ToMessage(q) <==> Visible(p) == Visible(q)
  {
    hide Deref, Optional, FromMessage, Unambiguous;
    MessageRoundTrip(p);
    MessageRoundTrip(q);
    SecondsRoundTrip(p.createdAt);
    SecondsRoundTrip(q.createdAt);
    SecondsRoundTrip(p.updatedAt);
    SecondsRoundTrip(q.updatedAt);
  }

  lemma InvariantRowsUnambiguous(cfg: Config, p: Payment)
    requires RowInv(cfg, p)
    ensures Unambiguous(p)
  {
    hide DeliveryInv;
    assert IsBlank("");
  }

  /** Every row that a serial run can store is recovered from its message, whatever the
      provider and the callers sent. */
  lemma StoredRowsRoundTrip(cfg: Config, ops: seq<Op>, id: nat)
    requires forall op :: op in ops ==> ValidOp(op)
    requires id in Run(cfg, EMPTY, ops).rows
    ensures var p := Run(cfg, EMPTY, ops).rows[id]; FromMessage(ToMessage(p)) == Visible(p)
  {
    hide RowInv, Unambiguous, ToMessage, FromMessage, Visible, Run;
    RunKeepsDbInv(cfg, EMPTY, ops);
    var p := Run(cfg, EMPTY, ops).rows[id];
    InvariantRowsUnambiguous(cfg, p);
    MessageRoundTrip(p);
  }

  method CloneMetadata(src: map<string, string>) returns (dst: map<string, string>)
    ensures dst == src
  {
    if |src| == 0 {
      return map[];
    }
    dst := map[];
    var keys := src.Keys;
    while keys != {}
      invariant keys <= src.Keys && dst.Keys == src.Keys - keys
      invariant forall k :: k in dst ==> dst[k] == src[k]
      decreases |keys|
    {
      var k :| k in keys;
      dst := dst[k := src[k]];
      keys := keys - {k};
    }
  }

  /** The message of a record as it is now, or none for a nil record. */
  function MessageOf(item: PaymentRecord?): Option<Message>
    reads item
  {
    if item == null then None else Some(ToMessage(item.Row()))
  }

  method PaymentToProto(item: PaymentRecord?) returns (r: Option<Message>)
    ensures r == MessageOf(item)
  {
    if item == null {
      return None;
    }
    var metadata := CloneMetadata(item.loaded.metadata);
    r := Some(ToMessage(item.Row()).(metadata := metadata));
  }

  method PaymentsToProto(items: seq<PaymentRecord?>) returns (result: seq<Option<Message>>)
    ensures |result| == |items|
    ensures forall k :: 0 <= k < |items| ==> result[k] == MessageOf(items[k])
  {
    result := [];
    for i := 0 to |items|
      invariant |result| == i
      invariant forall k :: 0 <= k < i ==> result[k] == MessageOf(items[k])
    {
      var message := PaymentToProto(items[i]);
      result := result + [message];
    }
  }
}
