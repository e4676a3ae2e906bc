/** Webhook deliveries on one payment: redelivered events change nothing but the
    update time, and delivery is armed once per status change. */
module Webhooks {
  import opened Basics
  import opened Entity
  import opened Stripe
  import opened Lifecycle
  import opened Serial
  import opened Budget

  /** What happens to one row: a verified event, or a dispatcher passing by. */
  datatype Input =
    | Event(raw: RawEvent, payload: string, now: int)
    | Pass(attempt: Attempt, now: int)

  function CauseOf(input: Input): Cause {
    match input
    case Event(raw, payload, _) => Webhook(raw, payload)
    case Pass(attempt, _) => Dispatch(attempt)
  }

  function Effect(cfg: Config, p: Payment, input: Input): Change {
    if Selected(cfg, p, CauseOf(input), input.now) then ChangeOf(cfg, p, CauseOf(input), input.now) else Skip(None)
  }

  function Next(cfg: Config, p: Payment, input: Input): Payment {
    var c := Effect(cfg, p, input);
    if c.Write? then c.row else p
  }

  function Feed(cfg: Config, p: Payment, inputs: seq<Input>): Payment {
    if inputs == [] then p else Next(cfg, Feed(cfg, p, inputs[..|inputs| - 1]), inputs[|inputs| - 1])
  }

  /** The most recent event, ignoring dispatcher passes. */
  function LastEvent(inputs: seq<Input>): Option<RawEvent> {
    if inputs == [] then None
    else if inputs[|inputs| - 1].Event? then Some(inputs[|inputs| - 1].raw)
    else LastEvent(inputs[..|inputs| - 1])
  }

  /** The inputs without redeliveries, that is, without events equal to the event before. */
  function Dedup(inputs: seq<Input>): seq<Input> {
    if inputs == [] then []
    else
      var pre, last := inputs[..|inputs| - 1], inputs[|inputs| - 1];
      if last.Event? && LastEvent(pre) == Some(last.raw) then Dedup(pre) else Dedup(pre) + [last]
  }

  predicate NoRedelivery(inputs: seq<Input>) {
    inputs != [] ==>
      var pre, last := inputs[..|inputs| - 1], inputs[|inputs| - 1];
      NoRedelivery(pre) && (last.Event? ==> LastEvent(pre) != Some(last.raw))
  }

  /** Dropping redeliveries leaves none, keeps the most recent event, and changes nothing
      exactly if there was none. */
  lemma {:induction false} DedupExactly(inputs: seq<Input>)
    ensures NoRedelivery(Dedup(inputs)) && LastEvent(Dedup(inputs)) == LastEvent(inputs)
    ensures |Dedup(inputs)| <= |inputs| && (|Dedup(inputs)| == |inputs| <==> NoRedelivery(inputs))
  {
    hide NoRedelivery, LastEvent;
    if inputs == [] {
      NothingRedelivered();
    } else {
      var pre, last := inputs[..|inputs| - 1], inputs[|inputs| - 1];
      DedupExactly(pre);
      OneMore(pre, last);
      OneMore(Dedup(pre), last);
      assert inputs == pre + [last];
    }
  }

  lemma NothingRedelivered()
    ensures NoRedelivery([])
  {
  }

  lemma OneMore(inputs: seq<Input>, last: Input)
    ensures NoRedelivery(inputs + [last])
        <==> NoRedelivery(inputs) && (last.Event? ==> LastEvent(inputs) != Some(last.raw))
    ensures LastEvent(inputs + [last]) == if last.Event? then Some(last.raw) else LastEvent(inputs)
  {
    assert (inputs + [last])[..|inputs|] == inputs;
  }

  /** The statuses that the events carry, leaving out events that carry none. */
  function Statuses(inputs: seq<Input>): seq<int> {
    if inputs == [] then []
    else
      var last := inputs[|inputs| - 1];
      Statuses(inputs[..|inputs| - 1])
        + if last.Event? && EventStatus(last.raw.kind) != 0 then [EventStatus(last.raw.kind)] else []
  }

  function LastOr(start: int, statuses: seq<int>): int {
    if statuses == [] then start else statuses[|statuses| - 1]
  }

  /** How often the status changes along the sequence, beginning from `start`. */
  function Changes(start: int, statuses: seq<int>): nat {
    if statuses == [] then 0
    else
      var pre := statuses[..|statuses| - 1];
      Changes(start, pre) + Bit(statuses[|statuses| - 1] != LastOr(start, pre))
  }

  /** How often the inputs arm the row. */
  function Marks(cfg: Config, p: Payment, inputs: seq<Input>): nat {
    if inputs == [] then 0
    else
      var pre, last := inputs[..|inputs| - 1], inputs[|inputs| - 1];
      var q := Feed(cfg, p, pre);
      Marks(cfg, p, pre) + Bit(Arms(q, CauseOf(last), Effect(cfg, q, last)))
  }

  predicate AlikeButTime(p: Payment, q: Payment) {
    p.(updatedAt := q.updatedAt) == q
  }

  /** The row already holds everything the event carries. */
  predicate Absorbed(p: Payment, raw: RawEvent) {
    var event := ParseEvent(raw);
    && (event.newStatus != 0 ==> p.status == event.newStatus)
    && (event.providerPaymentID.Some? ==> p.providerPaymentID == event.providerPaymentID)
    && (event.providerSubscriptionID.Some? ==> p.providerSubscriptionID == event.providerSubscriptionID)
  }

  lemma EventAbsorbed(cfg: Config, p: Payment, input: Input)
    requires input.Event?
    ensures Absorbed(Next(cfg, p, input), input.raw)
    ensures Absorbed(p, input.raw) ==> AlikeButTime(Next(cfg, p, input), p)
  {
    hide EventStatus;
    EventStatusRange(input.raw);
  }

  lemma PassKeepsAbsorbed(cfg: Config, p: Payment, input: Input, raw: RawEvent)
    requires input.Pass? && Absorbed(p, raw)
    ensures Absorbed(Next(cfg, p, input), raw)
  {
    hide EventStatus, AttemptError;
  }

  /** Only the selection of the other workers looks at the update time; a handler's or
      dispatcher's write does not depend on it. */
  lemma EventIgnoresTime(p: Payment, q: Payment, event: CallbackEvent, payload: string, now: int)
    requires AlikeButTime(p, q)
    ensures WebhookChange(p, event, payload, now).row == WebhookChange(q, event, payload, now).row
  {
  }

  lemma PassIgnoresTime(cfg: Config, p: Payment, q: Payment, attempt: Attempt, now: int)
    requires AlikeButTime(p, q)
    ensures DueForDispatch(p, now) == DueForDispatch(q, now)
    ensures var c, d := DispatchChange(cfg, p, attempt, now), DispatchChange(cfg, q, attempt, now);
            c.Write? == d.Write? && (c.Write? ==> c.row == d.row)
  {
    hide AttemptError, Accepted, IsBlank, Config.MaxAttempts, Config.RetryInterval, Truncate;
  }

  lemma NextIgnoresTime(cfg: Config, p: Payment, q: Payment, input: Input)
    requires AlikeButTime(p, q)
    ensures AlikeButTime(Next(cfg, p, input), Next(cfg, q, input))
  {
    hide DispatchChange, DueForDispatch, WithIdentifiers;
    match input
    case Event(raw, payload, now) => EventIgnoresTime(p, q, ParseEvent(raw), payload, now);
    case Pass(attempt, now) => PassIgnoresTime(cfg, p, q, attempt, now);
  }

  /** Dropping redeliveries, even with dispatcher passes in between, leaves the same row
      except for its update time: in particular delivery is not armed again. */
  lemma {:induction false} RedeliveriesAreHarmless(cfg: Config, p: Payment, inputs: seq<Input>)
    ensures AlikeButTime(Feed(cfg, p, inputs), Feed(cfg, p, Dedup(inputs)))
    ensures LastEvent(inputs).Some? ==> Absorbed(Feed(cfg, p, inputs), LastEvent(inputs).value)
  {
    if inputs != [] {
      hide AlikeButTime, Absorbed, Next;
      var pre, last := inputs[..|inputs| - 1], inputs[|inputs| - 1];
      var q := Feed(cfg, p, pre);
      RedeliveriesAreHarmless(cfg, p, pre);
      if last.Event? {
        EventAbsorbed(cfg, q, last);
      } else if LastEvent(pre).Some? {
        PassKeepsAbsorbed(cfg, q, last, LastEvent(pre).value);
      }
      if last.Event? && LastEvent(pre) == Some(last.raw) {
        AlikeTransitive(Next(cfg, q, last), q, Feed(cfg, p, Dedup(pre)));
      } else {
        NextIgnoresTime(cfg, q, Feed(cfg, p, Dedup(pre)), last);
        assert (Dedup(pre) + [last])[..|Dedup(pre)|] == Dedup(pre);
      }
    } else {
      assert AlikeButTime(p, p);
    }
  }

  lemma AlikeTransitive(p: Payment, q: Payment, r: Payment)
    requires AlikeButTime(p, q) && AlikeButTime(q, r)
    ensures AlikeButTime(p, r)
  {
  }

  lemma InputStatus(cfg: Config, p: Payment, input: Input)
    requires RowInv(cfg, p)
    ensures var q := Next(cfg, p, input);
            && RowInv(cfg, q)
            && q.status
                 == (if input.Event? && EventStatus(input.raw.kind) != 0 then EventStatus(input.raw.kind) else p.status)
            && Arms(p, CauseOf(input), Effect(cfg, p, input)) == (q.status != p.status)
  {
    hide EventStatus, DispatchChange, RowInv;
    if input.Event? {
      EventStatusRange(input.raw);
      WebhookKeepsRowInv(cfg, p, input.raw, input.payload, input.now);
    } else if DueForDispatch(p, input.now) {
      DispatchKeepsRowInv(cfg, p, input.attempt, input.now);
    }
  }

  /** The final status is the last one carried by an event, and delivery has been armed
      exactly once per change along the carried statuses. */
  lemma {:induction false} StatusFollowsEvents(cfg: Config, p: Payment, inputs: seq<Input>)
    requires RowInv(cfg, p)
    ensures var q := Feed(cfg, p, inputs);
            && RowInv(cfg, q)
            && q.status == LastOr(p.status, Statuses(inputs))
            && Marks(cfg, p, inputs) == Changes(p.status, Statuses(inputs))
  {
    hide RowInv, Arms, Next, Effect, EventStatus;
    if inputs != [] {
      var pre, last := inputs[..|inputs| - 1], inputs[|inputs| - 1];
      StatusFollowsEvents(cfg, p, pre);
      InputStatus(cfg, Feed(cfg, p, pre), last);
      var carried := Statuses(pre);
      if last.Event? && EventStatus(last.raw.kind) != 0 {
        assert (carried + [EventStatus(last.raw.kind)])[..|carried|] == carried;
      } else {
        assert Statuses(inputs) == carried;
      }
    }
  }

  function OpOf(id: nat, input: Input): Op {
    Touch(id, CauseOf(input), input.now, Fault(None, false))
  }

  function OpsOf(id: nat, inputs: seq<Input>): seq<Op> {
    if inputs == [] then [] else OpsOf(id, inputs[..|inputs| - 1]) + [OpOf(id, inputs[|inputs| - 1])]
  }

  /** Feeding a row is what a serial run of the same inputs does to it. */
  lemma {:induction false} FeedIsSerialRun(cfg: Config, db: Db, id: nat, inputs: seq<Input>)
    requires DbInv(cfg, db) && id in db.rows
    ensures var after := Run(cfg, db, OpsOf(id, inputs));
            DbInv(cfg, after) && id in after.rows && after.rows[id] == Feed(cfg, db.rows[id], inputs)
  {
    hide RowInv, ChangeOf, Selected;
    if inputs != [] {
      var pre, op := inputs[..|inputs| - 1], OpOf(id, inputs[|inputs| - 1]);
      FeedIsSerialRun(cfg, db, id, pre);
      RunAppend(cfg, db, OpsOf(id, pre), op);
      TouchEffect(cfg, Run(cfg, db, OpsOf(id, pre)), op);
    }
  }
}
