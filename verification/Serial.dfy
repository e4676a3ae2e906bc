/** Serial runs: handlers and worker steps applied one after the other to the
    table and its event log, each reading the row it then overwrites. */
module Serial {
  import opened Basics
  import opened Entity
  import opened Stripe
  import opened Lifecycle
  import opened Table

  datatype Db = Db(rows: Rows, nextID: nat, events: seq<PaymentEvent>)

  const EMPTY := Db(map[], 1, [])

  /** What the database does to a step: fail the row write, or lose the event
      (whose error the service ignores). */
  datatype Fault = Fault(write: Option<Error>, eventLost: bool)

  datatype Op =
    | Create(req: CreateRequest, hash: string, callbackURL: string, reply: CreateReply, now: int, fault: Fault)
    | Touch(id: nat, cause: Cause, now: int, fault: Fault)

  function CreatedRow(op: Op): Payment
    requires op.Create?
  {
    NewRow(op.req, op.hash, Created(op.req.paymentMethod, op.callbackURL, op.reply), op.now)
  }

  function Append(events: seq<PaymentEvent>, event: Option<PaymentEvent>, fault: Fault): seq<PaymentEvent> {
    if event.Some? && !fault.eventLost then events + [event.value] else events
  }

  function Insert(db: Db, row: Payment, fault: Fault): Db {
    if fault.write.Some? || Rejects(db.rows, row) then db
    else
      var event := PaymentEvent(db.nextID, "payment_created", None, row.status, None, None, row.createdAt);
      Db(db.rows[db.nextID := row.(id := db.nextID)], db.nextID + 1, Append(db.events, Some(event), fault))
  }

  /** Whether a change reaches the table. */
  predicate Lands(rows: Rows, change: Change, fault: Fault) {
    change.Write? && fault.write.None? && change.row.id in rows
  }

  function Land(db: Db, change: Change, fault: Fault): Db {
    if Lands(db.rows, change, fault) then
      db.(rows := db.rows[change.row.id := Overwrite(db.rows[change.row.id], change.row)],
          events := Append(db.events, change.event, fault))
    else db
  }

  /** The change that a step makes to the row it addresses. */
  function Attempted(cfg: Config, db: Db, op: Op): Change
    requires op.Touch?
  {
    if op.id in db.rows && Selected(cfg, db.rows[op.id], op.cause, op.now) then
      ChangeOf(cfg, db.rows[op.id], op.cause, op.now)
    else Skip(None)
  }

  function Do(cfg: Config, db: Db, op: Op): Db {
    match op
    case Create(_, _, _, _, _, fault) => Insert(db, CreatedRow(op), fault)
    case Touch(_, _, _, fault) => Land(db, Attempted(cfg, db, op), fault)
  }

  function Run(cfg: Config, db: Db, ops: seq<Op>): Db {
    if ops == [] then db else Do(cfg, Run(cfg, db, ops[..|ops| - 1]), ops[|ops| - 1])
  }

  lemma RunAppend(cfg: Config, db: Db, ops: seq<Op>, op: Op)
    ensures Run(cfg, db, ops + [op]) == Do(cfg, Run(cfg, db, ops), op)
  {
    hide Do;
    assert (ops + [op])[..|ops|] == ops;
  }

  predicate ValidOp(op: Op) {
    op.Create? ==> ValidRequest(op.req)
  }

  ghost predicate DbInv(cfg: Config, db: Db) {
    && TableInv(db.rows, db.nextID)
    && (forall id :: id in db.rows ==> RowInv(cfg, db.rows[id]))
  }

  /** On rows of the same identity an UPDATE stores exactly the row it is given. */
  lemma OverwriteIsExact(stored: Payment, p: Payment)
    requires SameIdentity(stored, p)
    ensures Overwrite(stored, p) == p
  {
  }

  /** The effect of one step on an existing table: nothing, or one row replaced by
      what its writer computed, with the same identity and the invariant kept. */
  lemma TouchEffect(cfg: Config, db: Db, op: Op)
    requires DbInv(cfg, db) && op.Touch?
    ensures var change := Attempted(cfg, db, op);
            && DbInv(cfg, Do(cfg, db, op))
            && (change.Write? ==>
                  && change.row.id == op.id && op.id in db.rows
                  && SameIdentity(db.rows[op.id], change.row) && RowInv(cfg, change.row)
                  && (op.fault.write.None? ==>
                        && Lands(db.rows, change, op.fault)
                        && Do(cfg, db, op).rows == db.rows[op.id := change.row]))
            && (change.Skip? || op.fault.write.Some? ==> Do(cfg, db, op) == db)
  {
    var change := Attempted(cfg, db, op);
    if change.Write? {
      ChangeKeepsRowInv(cfg, db.rows[op.id], op.cause, op.now);
      OverwriteIsExact(db.rows[op.id], change.row);
      SameProviderNeverCollides(db.rows, db.nextID, change.row);
    }
  }

  lemma InsertEffect(cfg: Config, db: Db, row: Payment, fault: Fault)
    requires DbInv(cfg, db) && RowInv(cfg, row)
    ensures DbInv(cfg, Insert(db, row, fault)) && db.nextID !in db.rows
  {
    if fault.write.None? && !Rejects(db.rows, row) {
      InsertKeepsTableInv(db.rows, db.nextID, row);
      assert RowInv(cfg, row.(id := db.nextID));
    }
  }

  lemma CreateEffect(cfg: Config, db: Db, op: Op)
    requires DbInv(cfg, db) && op.Create? && ValidOp(op)
    ensures DbInv(cfg, Do(cfg, db, op)) && db.nextID !in db.rows
    ensures CreatedRow(op).status == PENDING && CreatedRow(op).delivery == DELIVERY_NONE
  {
    NewRowInv(cfg, op.req, op.hash, op.callbackURL, op.reply, op.now);
    var row := CreatedRow(op);
    InsertEffect(cfg, db, row, op.fault);
  }

  /** Every serial run from the empty table keeps the table and row invariants,
      whatever writes fail and whatever events are lost. */
  lemma {:induction false} RunKeepsDbInv(cfg: Config, db: Db, ops: seq<Op>)
    requires DbInv(cfg, db) && forall op :: op in ops ==> ValidOp(op)
    ensures DbInv(cfg, Run(cfg, db, ops))
  {
    if ops != [] {
      var pre, op := ops[..|ops| - 1], ops[|ops| - 1];
      RunKeepsDbInv(cfg, db, pre);
      if op.Create? {
        CreateEffect(cfg, Run(cfg, db, pre), op);
      } else {
        TouchEffect(cfg, Run(cfg, db, pre), op);
      }
    }
  }
}
