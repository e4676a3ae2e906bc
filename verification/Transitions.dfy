/** Which status changes serial runs make, and what never changes. */
module Transitions {
  import opened Basics
  import opened Entity
  import opened Stripe
  import opened Lifecycle
  import opened Table
  import opened Serial

  /** The status a selected row has after a step whose write succeeds. */
  function NextStatus(status: int, cause: Cause): int {
    match cause
    case Cancel => if status == PAID then PAID else CANCELED
    case Expire => EXPIRED
    case Dispatch(_) => status
    case Webhook(raw, _) => if EventStatus(raw.kind) == 0 then status else EventStatus(raw.kind)
    case Reconcile(PollError(_)) => status
    case Reconcile(Session(session, paymentStatus)) =>
      if PollStatus(session, paymentStatus) == 0 then status else PollStatus(session, paymentStatus)
  }

  lemma PolledStatus(p: Payment, reply: PollReply, now: int)
    requires p.provider == STRIPE && p.providerPaymentID.Some? && !IsBlank(p.providerPaymentID.value)
    ensures var c := ReconcileChange(p, reply, now);
            NextStatus(p.status, Reconcile(reply)) == if c.Write? then c.row.status else p.status
  {
    TrimSpaceIdempotent(p.providerPaymentID.value);
  }

  lemma EventedStatus(p: Payment, raw: RawEvent, payload: string, now: int)
    ensures var c := WebhookChange(p, ParseEvent(raw), payload, now);
            NextStatus(p.status, Webhook(raw, payload)) == if c.Write? then c.row.status else p.status
  {
    hide EventStatus;
    EventStatusRange(raw);
  }

  lemma RowStatus(cfg: Config, p: Payment, cause: Cause, now: int)
    requires RowInv(cfg, p) && Selected(cfg, p, cause, now)
    ensures var c := ChangeOf(cfg, p, cause, now);
            NextStatus(p.status, cause) == if c.Write? then c.row.status else p.status
  {
    hide DispatchChange, WebhookChange, ReconcileChange, EventStatus, PollStatus;
    match cause
    case Reconcile(reply) => PolledStatus(p, reply, now);
    case Webhook(raw, payload) => EventedStatus(p, raw, payload, now);
    case Dispatch(attempt) => DispatchKeepsRowInv(cfg, p, attempt, now);
    case Cancel =>
    case Expire =>
  }

  /** Whether the step reaches this row: it is selected, and the write does not fail. */
  predicate Reaches(cfg: Config, db: Db, op: Op, id: nat)
    requires id in db.rows
  {
    op.Touch? && op.id == id && op.fault.write.None? && Selected(cfg, db.rows[id], op.cause, op.now)
  }

  /** The exact serial transition relation of the status column, for every step: a row that
      the step reaches moves by the transition function, all others keep their status, and
      the only new row, that of a create which is neither rejected nor fails, is PENDING. */
  lemma StatusAfter(cfg: Config, db: Db, op: Op, id: nat)
    requires DbInv(cfg, db) && ValidOp(op)
    ensures var rows := Do(cfg, db, op).rows;
            && (id in rows <==> id in db.rows || (id == db.nextID && Creates(db, op)))
            && (id in rows && id !in db.rows ==> rows[id].status == PENDING)
            && (id in db.rows ==>
                  rows[id].status
                    == (if Reaches(cfg, db, op, id) then NextStatus(db.rows[id].status, op.cause)
                        else db.rows[id].status))
  {
    hide RowInv, ChangeOf, NewRow, Rejects, NextStatus;
    if op.Create? {
      CreateEffect(cfg, db, op);
    } else {
      TouchEffect(cfg, db, op);
      if id in db.rows && Reaches(cfg, db, op, id) {
        RowStatus(cfg, db.rows[id], op.cause, op.now);
      }
    }
  }

  /** The step inserts a row. */
  predicate Creates(db: Db, op: Op) {
    op.Create? && op.fault.write.None? && !Rejects(db.rows, CreatedRow(op))
  }

  /** What the relation amounts to: terminality is absorbing; PAID is left only by a
      webhook that maps to another status; the other terminal statuses are left only by
      a webhook or a cancel; a pending row becomes FAILED only by webhook. */
  lemma StatusRules(cfg: Config, p: Payment, cause: Cause, now: int)
    requires RowInv(cfg, p) && Selected(cfg, p, cause, now)
    ensures var t := NextStatus(p.status, cause);
            && (t == PENDING || TerminalStatus(t))
            && (TerminalStatus(p.status) ==> TerminalStatus(t))
            && (p.status == PAID && t != PAID ==> cause.Webhook? && t == EventStatus(cause.raw.kind))
            && (TerminalStatus(p.status) && t != p.status ==> cause.Webhook? || (cause.Cancel? && t == CANCELED))
            && (t == FAILED && p.status != FAILED ==> cause.Webhook?)
            && (t == PAID && p.status != PAID ==> cause.Webhook? || cause.Reconcile?)
  {
    if cause.Webhook? {
      EventStatusRange(cause.raw);
    }
  }

  lemma StepKeeps(cfg: Config, db: Db, op: Op, id: nat)
    requires DbInv(cfg, db) && ValidOp(op) && id in db.rows
    ensures var rows := Do(cfg, db, op).rows;
            && id in rows && SameIdentity(db.rows[id], rows[id])
            && (TerminalStatus(db.rows[id].status) ==> TerminalStatus(rows[id].status))
  {
    hide RowInv, ChangeOf, NewRow;
    if op.Create? {
      CreateEffect(cfg, db, op);
    } else {
      TouchEffect(cfg, db, op);
      if op.id == id && op.fault.write.None? && Selected(cfg, db.rows[id], op.cause, op.now) {
        StatusAfter(cfg, db, op, id);
        StatusRules(cfg, db.rows[id], op.cause, op.now);
      }
    }
  }

  /** Over the rest of any serial run a row never disappears, never changes its key,
      hash, provider, amount or creation time, and never leaves the terminal statuses. */
  lemma {:induction false} RunKeeps(cfg: Config, db: Db, ops: seq<Op>, id: nat)
    requires DbInv(cfg, db) && (forall op :: op in ops ==> ValidOp(op)) && id in db.rows
    ensures var rows := Run(cfg, db, ops).rows;
            && id in rows && SameIdentity(db.rows[id], rows[id])
            && (TerminalStatus(db.rows[id].status) ==> TerminalStatus(rows[id].status))
  {
    if ops != [] {
      var pre, op := ops[..|ops| - 1], ops[|ops| - 1];
      RunKeeps(cfg, db, pre, id);
      RunKeepsDbInv(cfg, db, pre);
      StepKeeps(cfg, Run(cfg, db, pre), op, id);
    }
  }

  /** The hash of a webhook URL finds the same single payment for ever. */
  lemma HashResolvesForever(cfg: Config, db: Db, ops: seq<Op>, id: nat, provider: int, hash: string, found: nat)
    requires DbInv(cfg, db) && forall op :: op in ops ==> ValidOp(op)
    requires HasHash(db.rows, id, provider, hash)
    ensures HasHash(Run(cfg, db, ops).rows, found, provider, hash) <==> found == id
  {
    RunKeeps(cfg, db, ops, id);
    RunKeepsDbInv(cfg, db, ops);
    var rows := Run(cfg, db, ops).rows;
    if HasHash(rows, found, provider, hash) {
      assert SameHash(rows[found], rows[id]);
    }
  }

  /** An event kind that leads from PENDING to a status. */
  function KindFor(status: int): (kind: string)
    requires status == PENDING || TerminalStatus(status)
    ensures EventStatus(kind) == if status == PENDING then 0 else status
  {
    if status == PAID then "invoice.paid"
    else if status == FAILED then "invoice.payment_failed"
    else if status == EXPIRED then "checkout.session.expired"
    else if status == CANCELED then "customer.subscription.deleted"
    else "charge.updated"
  }

  lemma FirstInsert(row: Payment)
    ensures Insert(EMPTY, row, Fault(None, false)).rows == map[1 := row.(id := 1)]
  {
  }

  /** PENDING and the four terminal statuses are all reached; by RunKeepsDbInv no other is. */
  lemma EveryStatusReached(cfg: Config, req: CreateRequest, status: int) returns (ops: seq<Op>)
    requires ValidRequest(req)
    requires status == PENDING || TerminalStatus(status)
    ensures forall op :: op in ops ==> ValidOp(op)
    ensures var rows := Run(cfg, EMPTY, ops).rows; 1 in rows && rows[1].status == status
  {
    hide RowInv, ChangeOf, NewRow, EventStatus, Insert;
    var fine := Fault(None, false);
    var create := Create(req, "hash", "url", CreateReply("", "", ""), 0, fine);
    var kind := KindFor(status);
    var webhook := Touch(1, Webhook(RawEvent("", kind, "", ""), ""), 0, fine);
    ops := [create, webhook];
    assert ops[..1] == [create] && [create][..0] == [];
    CreateEffect(cfg, EMPTY, create);
    var db := Do(cfg, EMPTY, create);
    assert Run(cfg, EMPTY, [create]) == db;
    assert Run(cfg, EMPTY, ops) == Do(cfg, db, webhook);
    FirstInsert(CreatedRow(create));
    StatusAfter(cfg, db, webhook, 1);
  }
}
