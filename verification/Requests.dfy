/** Create requests on their way in: what the HTTP transport normalises, what validation
    accepts, and what of a request can be read back from the response. */
module Requests {
  import opened Basics
  import opened Entity
  import opened Stripe
  import opened Lifecycle
  import opened Mapper

  /** The request that the HTTP transport builds from a body and the X-Request-ID header.
      The gRPC transport passes the body on as it is. */
  function FromContext(body: CreateRequest, header: string): CreateRequest {
    body.(requestID := if IsBlank(body.requestID) then TrimSpace(header) else TrimSpace(body.requestID),
          callerService := TrimSpace(body.callerService),
          resourceType := TrimSpace(body.resourceType),
          resourceID := TrimSpace(body.resourceID),
          customerRef := TrimSpace(body.customerRef),
          currency := ToUpper(TrimSpace(body.currency)),
          recurringInterval := ToLower(TrimSpace(body.recurringInterval)),
          statusCallbackURL := TrimSpace(body.statusCallbackURL))
  }

  /** Validation, clause by clause in the order of the messages that it answers with. */
  method Validate(req: CreateRequest) returns (complaint: Option<string>)
    ensures complaint.None? <==> ValidRequest(req)
  {
    hide TrimSpace;
    if TrimSpace(req.requestID) == "" { return Some("request_id is required"); }
    if TrimSpace(req.callerService) == "" { return Some("caller_service is required"); }
    if TrimSpace(req.resourceType) == "" { return Some("resource_type is required"); }
    if TrimSpace(req.resourceID) == "" { return Some("resource_id is required"); }
    if req.amountCents <= 0 { return Some("amount_cents must be > 0"); }
    if |TrimSpace(req.currency)| != 3 { return Some("currency must be 3 letters"); }
    if req.paymentMethod != HOSTED_CARD && req.paymentMethod != PAYMENT_LINK {
      return Some("payment_method must be hosted_card or payment_link");
    }
    if req.paymentType != ONE_TIME && req.paymentType != RECURRING {
      return Some("payment_type must be one_time or recurring");
    }
    if req.provider != 0 && req.provider != STRIPE { return Some("provider is invalid"); }
    if TrimSpace(req.statusCallbackURL) == "" { return Some("status_callback_url is required"); }
    if req.paymentType == RECURRING {
      var interval := req.recurringInterval;
      if interval != "day" && interval != "week" && interval != "month" && interval != "year" {
        return Some("recurring_interval must be day, week, month, or year");
      }
      if req.recurringIntervalCount <= 0 { return Some("recurring_interval_count must be > 0"); }
    }
    return None;
  }

  lemma {:induction false} ToLowerAt(s: string, k: nat)
    requires k < |s|
    ensures ToLower(s)[k] == if 'A' <= s[k] <= 'Z' then s[k] - 'A' + 'a' else s[k]
  {
    if k > 0 {
      ToLowerAt(s[1..], k - 1);
    }
  }

  lemma {:induction false} ToUpperAt(s: string, k: nat)
    requires k < |s|
    ensures ToUpper(s)[k] == if 'a' <= s[k] <= 'z' then s[k] - 'a' + 'A' else s[k]
  {
    if k > 0 {
      ToUpperAt(s[1..], k - 1);
    }
  }

  /** Changing case a second time, or trimming afterwards, makes no difference. */
  lemma LoweredIsStable(s: string)
    ensures var t := ToLower(TrimSpace(s)); TrimSpace(t) == t && ToLower(t) == t
  {
    hide ToLower, TrimSpace;
    var t := ToLower(TrimSpace(s));
    forall k | 0 <= k < |t|
      ensures ToLower(t)[k] == t[k]
    {
      ToLowerAt(TrimSpace(s), k);
      ToLowerAt(t, k);
    }
    if t != "" {
      ToLowerAt(TrimSpace(s), 0);
      ToLowerAt(TrimSpace(s), |t| - 1);
    }
    TrimFixes(t);
  }

  lemma UpperedIsStable(s: string)
    ensures var t := ToUpper(TrimSpace(s)); TrimSpace(t) == t && ToUpper(t) == t
  {
    hide ToUpper, TrimSpace;
    var t := ToUpper(TrimSpace(s));
    forall k | 0 <= k < |t|
      ensures ToUpper(t)[k] == t[k]
    {
      ToUpperAt(TrimSpace(s), k);
      ToUpperAt(t, k);
    }
    if t != "" {
      ToUpperAt(TrimSpace(s), 0);
      ToUpperAt(TrimSpace(s), |t| - 1);
    }
    TrimFixes(t);
  }

  lemma TextsAreStable(body: CreateRequest)
    ensures TrimSpace(TrimSpace(body.requestID)) == TrimSpace(body.requestID)
    ensures TrimSpace(TrimSpace(body.callerService)) == TrimSpace(body.callerService)
    ensures TrimSpace(TrimSpace(body.resourceType)) == TrimSpace(body.resourceType)
    ensures TrimSpace(TrimSpace(body.resourceID)) == TrimSpace(body.resourceID)
    ensures TrimSpace(TrimSpace(body.customerRef)) == TrimSpace(body.customerRef)
    ensures TrimSpace(TrimSpace(body.statusCallbackURL)) == TrimSpace(body.statusCallbackURL)
  {
    hide TrimSpace;
    TrimSpaceIdempotent(body.requestID);
    TrimSpaceIdempotent(body.callerService);
    TrimSpaceIdempotent(body.resourceType);
    TrimSpaceIdempotent(body.resourceID);
    TrimSpaceIdempotent(body.customerRef);
    TrimSpaceIdempotent(body.statusCallbackURL);
  }

  /** Both transports lead to the same row, exactly unless the request id comes from the
      header. */
  lemma TransportsAgree(body: CreateRequest, header: string, hash: string, out: CreateOutput, now: int)
    ensures NewRow(FromContext(body, header), hash, out, now) == NewRow(body, hash, out, now)
        <==> !IsBlank(body.requestID) || IsBlank(header)
  {
    hide TrimSpace, ToLower, ToUpper;
    TextsAreStable(body);
    TrimSpaceIdempotent(header);
    LoweredIsStable(body.recurringInterval);
    UpperedIsStable(body.currency);
  }

  /** A normalised request stays as it is when normalised again, whatever the header. */
  lemma NormalisedOnce(body: CreateRequest, header: string, other: string)
    requires !IsBlank(body.requestID) || !IsBlank(header)
    ensures FromContext(FromContext(body, header), other) == FromContext(body, header)
  {
    hide TrimSpace, ToLower, ToUpper;
    TextsAreStable(body);
    TrimSpaceIdempotent(header);
    LoweredIsStable(body.recurringInterval);
    UpperedIsStable(body.currency);
  }

  /** Over HTTP validation accepts what it accepts over gRPC, and besides a missing request
      id that the header supplies, and a recurring interval in any case and padding. */
  lemma ValidationAgrees(body: CreateRequest, header: string)
    ensures ValidRequest(FromContext(body, header))
        <==> ValidRequest(body.(requestID := if IsBlank(body.requestID) then header else body.requestID,
                                recurringInterval := ToLower(TrimSpace(body.recurringInterval))))
  {
    hide TrimSpace, ToLower, ToUpper;
    TextsAreStable(body);
    TrimSpaceIdempotent(header);
    UpperedIsStable(body.currency);
  }

  /** The request that a message answers. */
  function RequestOf(m: Message): CreateRequest {
    CreateRequest(
      m.requestID, m.callerService, m.resourceType, m.resourceID, m.customerRef, m.amountCents, m.currency,
      m.paymentMethod, m.paymentType, m.provider, m.recurringInterval, m.recurringIntervalCount,
      m.statusCallbackURL, m.metadata)
  }

  /** An optional value is stored as absent and read back as zero. */
  lemma OptionalText(s: string)
    ensures Deref(NonBlank(s), "") == TrimSpace(s)
  {
    hide TrimSpace;
  }

  lemma OptionalCount(n: int)
    ensures Deref(PositiveCount(n), 0) == if n > 0 then n else 0
  {
  }

  lemma BlankIdentifier(s: string)
    ensures IsBlank(s) ==> TrimSpace(s) == TrimSpace("")
  {
  }

  /** The response to a create call gives back the normalised request, with the default
      provider filled in and a count that is not positive dropped. */
  lemma ResponseEchoesRequest(req: CreateRequest, hash: string, out: CreateOutput, now: int)
    ensures RequestOf(ToMessage(NewRow(req, hash, out, now)))
         == FromContext(req, "").(
              provider := if req.provider == 0 then STRIPE else req.provider,
              recurringIntervalCount := if req.recurringIntervalCount > 0 then req.recurringIntervalCount else 0)
  {
    hide TrimSpace, ToLower, ToUpper, NonBlank, Deref, PositiveCount, IsBlank;
    OptionalText(req.customerRef);
    OptionalText(ToLower(TrimSpace(req.recurringInterval)));
    OptionalCount(req.recurringIntervalCount);
    LoweredIsStable(req.recurringInterval);
    BlankIdentifier(req.requestID);
  }
}
