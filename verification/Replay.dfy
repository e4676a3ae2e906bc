/** The event log replays the table: what the log of one payment says about its status. */
module Replay {
  import opened Basics
  import opened Entity
  import opened Lifecycle
  import opened Table
  import opened Serial

  function LogOf(events: seq<PaymentEvent>, id: nat): seq<PaymentEvent> {
    if events == [] then []
    else
      var last := events[|events| - 1];
      LogOf(events[..|events| - 1], id) + if last.paymentID == id then [last] else []
  }

  /** An event that names an old status continues from it; one that names none repeats
      the status before it. */
  predicate Follows(before: int, event: PaymentEvent) {
    event.oldStatus == Some(before) || (event.oldStatus.None? && event.newStatus == before)
  }

  ghost predicate Replays(log: seq<PaymentEvent>, status: int) {
    && |log| > 0
    && log[0].eventType == "payment_created" && log[0].oldStatus.None?
    && (forall k :: 0 < k < |log| ==> Follows(log[k - 1].newStatus, log[k]))
    && log[|log| - 1].newStatus == status
  }

  ghost predicate ReplayInv(db: Db) {
    && (forall id :: id in db.rows ==> Replays(LogOf(db.events, id), db.rows[id].status))
    && (forall id: nat :: id !in db.rows ==> LogOf(db.events, id) == [])
  }

  lemma AppendedLog(events: seq<PaymentEvent>, event: PaymentEvent, id: nat)
    ensures LogOf(events + [event], id) == LogOf(events, id) + if event.paymentID == id then [event] else []
  {
    assert (events + [event])[..|events|] == events;
  }

  /** The event written with a change continues from the row that was read; a change
      without an event keeps the status. */
  predicate Tells(p: Payment, change: Change) {
    match change
    case Skip(_) => true
    case Write(row, None, _) => row.status == p.status
    case Write(row, Some(event), _) =>
      && event.paymentID == p.id && event.newStatus == row.status && Follows(p.status, event)
      && event.createdAt == row.updatedAt
  }

  lemma ChangeTells(cfg: Config, p: Payment, cause: Cause, now: int)
    ensures Tells(p, ChangeOf(cfg, p, cause, now))
  {
  }

  lemma ReplayExtends(log: seq<PaymentEvent>, status: int, event: PaymentEvent)
    requires Replays(log, status) && Follows(status, event)
    ensures Replays(log + [event], event.newStatus)
  {
  }

  lemma InsertReplays(db: Db, row: Payment, fault: Fault)
    requires TableInv(db.rows, db.nextID) && db.nextID !in db.rows
    requires ReplayInv(db) && !fault.eventLost
    ensures ReplayInv(Insert(db, row, fault))
  {
    var db' := Insert(db, row, fault);
    if db' != db {
      var event := db'.events[|db.events|];
      forall id: nat
        ensures id in db'.rows ==> Replays(LogOf(db'.events, id), db'.rows[id].status)
        ensures id !in db'.rows ==> LogOf(db'.events, id) == []
      {
        AppendedLog(db.events, event, id);
      }
    }
  }

  lemma WriteReplays(rows: Rows, nextID: nat, events: seq<PaymentEvent>, change: Change, db: Db, db': Db)
    requires db == Db(rows, nextID, events) && ReplayInv(db)
    requires change.Write? && change.row.id in rows && rows[change.row.id].id == change.row.id
    requires Tells(rows[change.row.id], change)
    requires db'.rows == rows[change.row.id := change.row]
    requires db'.events == if change.event.Some? then events + [change.event.value] else events
    ensures ReplayInv(db')
  {
    var row := change.row;
    forall id: nat
      ensures id in db'.rows ==> Replays(LogOf(db'.events, id), db'.rows[id].status)
      ensures id !in db'.rows ==> LogOf(db'.events, id) == []
    {
      if change.event.Some? {
        AppendedLog(events, change.event.value, id);
        if id == row.id {
          ReplayExtends(LogOf(events, id), rows[id].status, change.event.value);
        }
      }
    }
  }

  lemma StepReplays(cfg: Config, db: Db, op: Op)
    requires DbInv(cfg, db) && ValidOp(op) && !op.fault.eventLost
    requires ReplayInv(db)
    ensures ReplayInv(Do(cfg, db, op))
  {
    hide RowInv, ChangeOf, NewRow, LogOf, ReplayInv;
    if op.Create? {
      CreateEffect(cfg, db, op);
      InsertReplays(db, CreatedRow(op), op.fault);
    } else {
      TouchEffect(cfg, db, op);
      var change := Attempted(cfg, db, op);
      if change.Write? && op.fault.write.None? {
        ChangeTells(cfg, db.rows[op.id], op.cause, op.now);
        WriteReplays(db.rows, db.nextID, db.events, change, db, Do(cfg, db, op));
      }
    }
  }

  /** In every serial run in which no event is lost, the log of each stored payment
      starts with its creation and chains to its stored status. */
  lemma {:induction false} LogReplaysTable(cfg: Config, ops: seq<Op>)
    requires forall op :: op in ops ==> ValidOp(op) && !op.fault.eventLost
    ensures ReplayInv(Run(cfg, EMPTY, ops))
  {
    if ops != [] {
      var pre, op := ops[..|ops| - 1], ops[|ops| - 1];
      LogReplaysTable(cfg, pre);
      RunKeepsDbInv(cfg, EMPTY, pre);
      StepReplays(cfg, Run(cfg, EMPTY, pre), op);
    }
  }
}
