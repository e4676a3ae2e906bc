/** The rows of the three tables and the configuration of the service. */
module Entity {
  import opened Basics

  // Payment status codes.
  const PENDING := 2
  const PROCESSING := 3
  const PAID := 10
  const FAILED := 20
  const CANCELED := 30
  const EXPIRED := 40

  // Codes of callback_delivery_status.
  const DELIVERY_NONE := 0
  const DELIVERY_PENDING := 1
  const DELIVERY_SUCCESS := 10
  const DELIVERY_FAILED := 20

  const STRIPE := 1

  /** One row of the payments table; times are exact integers in nanoseconds. */
  datatype Payment = Payment(
    id: nat,
    requestID: string,
    callerService: string,
    resourceType: string,
    resourceID: string,
    customerRef: Option<string>,
    amountCents: int,
    currency: string,
    status: int,
    paymentMethod: int,
    paymentType: int,
    provider: int,
    recurringInterval: Option<string>,
    recurringIntervalCount: Option<int>,
    providerPaymentID: Option<string>,
    providerSubscriptionID: Option<string>,
    checkoutURL: Option<string>,
    callbackHash: string,
    callbackURL: string,
    statusCallbackURL: string,
    refundedCents: int,
    refundableCents: int,
    metadata: map<string, string>,
    delivery: int,
    attempts: int32,
    nextAt: Option<int>,
    lastErr: Option<string>,
    createdAt: int,
    updatedAt: int)

  datatype PaymentEvent = PaymentEvent(
    paymentID: nat,
    eventType: string,
    oldStatus: Option<int>,
    newStatus: int,
    providerEventID: Option<string>,
    payloadJSON: Option<string>,
    createdAt: int)

  datatype PaymentCallback = PaymentCallback(
    paymentID: Option<nat>,
    provider: string,
    callbackHash: string,
    signature: string,
    payloadJSON: string,
    status: int,
    error: Option<string>,
    createdAt: int,
    updatedAt: int)

  /** The payments part of the configuration. Durations may have any sign. */
  datatype Config = Config(
    callbackMaxAttempts: int32,
    callbackRetryInterval: int,
    pendingTimeout: int,
    reconcileStaleAfter: int,
    jobBatchSize: int32)
  {
    function MaxAttempts(): (n: int32)
      ensures n >= 1 && (n == callbackMaxAttempts || (callbackMaxAttempts <= 0 && n == 1))
    {
      if callbackMaxAttempts <= 0 then 1 else callbackMaxAttempts
    }

    function RetryInterval(): (d: int)
      ensures d > 0 && (d == callbackRetryInterval || (callbackRetryInterval <= 0 && d == 5 * 60 * 1_000_000_000))
    {
      if callbackRetryInterval <= 0 then 5 * 60 * 1_000_000_000 else callbackRetryInterval
    }

    function BatchSize(): (n: int32)
      ensures n >= 1 && (n == jobBatchSize || (jobBatchSize <= 0 && n == 100))
    {
      if jobBatchSize > 0 then jobBatchSize else 100
    }
  }

  predicate TerminalStatus(status: int) {
    status == PAID || status == FAILED || status == CANCELED || status == EXPIRED
  }
}
