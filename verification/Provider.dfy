/** The Stripe client's answer to a webhook: the body counts only if its header passes the
    signature check. */
module Provider {
  import opened Basics
  import opened Stripe
  import opened Signature

  /** What the client made of a webhook body and its signature. */
  datatype ParseAnswer = ParseFailed(reason: string) | Parsed(raw: RawEvent)

  /** The client's configuration, and the two library functions it relies on: the keyed
      digest and the decoding of a body. */
  datatype StripeProvider = StripeProvider(
    webhookSecret: string,
    toleranceSeconds: int64,
    mac: Mac,
    decode: string -> Result<RawEvent, string>)
  {
    /** The header carries a signature of this payload, fresh at `now`. */
    predicate Genuine(payload: string, header: string, now: int64) {
      Accepts(mac, payload, header, webhookSecret, Tolerance(toleranceSeconds), now)
    }

    function Answer(payload: string, header: string, now: int64): (r: ParseAnswer)
      ensures r.Parsed? <==> Genuine(payload, header, now) && decode(payload).Ok?
      ensures r.Parsed? ==> decode(payload) == Ok(r.raw)
    {
      if IsBlank(webhookSecret) then ParseFailed("stripe webhook secret is not configured")
      else if !Genuine(payload, header, now) then ParseFailed("invalid stripe signature")
      else match decode(payload)
        case Err(reason) => ParseFailed(reason)
        case Ok(raw) => Parsed(raw)
    }

    method VerifyAndParseCallback(payload: string, header: string, now: int64) returns (r: ParseAnswer)
      ensures r == Answer(payload, header, now)
    {
      if IsBlank(webhookSecret) {
        return ParseFailed("stripe webhook secret is not configured");
      }
      var genuine := VerifyStripeSignature(mac, payload, header, webhookSecret, Tolerance(toleranceSeconds), now);
      if !genuine {
        return ParseFailed("invalid stripe signature");
      }
      var event := decode(payload);
      r := if event.Err? then ParseFailed(event.error) else Parsed(event.value);
    }
  }
}
