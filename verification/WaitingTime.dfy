/** How long a stale payment waits for its poll while handlers and other workers go on
    with other payments. */
module WaitingTime {
  import opened Basics
  import opened Entity
  import opened Lifecycle
  import opened Table
  import opened Serial
  import opened Batches
  import opened Fairness
  import Concurrent

  /** What happens next: a reconcile batch, or a step of anyone else. */
  datatype Event = Poll(round: Round) | Other(op: Op)

  function After(cfg: Config, db: Db, event: Event): Db {
    match event
    case Poll(r) => Run(cfg, db, OpsFor(r.b, r.ids))
    case Other(op) => Do(cfg, db, op)
  }

  function Course(cfg: Config, db: Db, events: seq<Event>): Db {
    if events == [] then db else After(cfg, Course(cfg, db, events[..|events| - 1]), events[|events| - 1])
  }

  function Steps(events: seq<Event>): seq<Op> {
    if events == [] then []
    else
      var last := events[|events| - 1];
      Steps(events[..|events| - 1]) + if last.Poll? then OpsFor(last.round.b, last.round.ids) else [last.op]
  }

  lemma {:induction false} RunConcat(cfg: Config, db: Db, ops: seq<Op>, more: seq<Op>)
    ensures Run(cfg, db, ops + more) == Run(cfg, Run(cfg, db, ops), more)
  {
    hide Do;
    if more == [] {
      assert ops + more == ops;
    } else {
      var n := |more| - 1;
      RunConcat(cfg, db, ops, more[..n]);
      assert ops + more == (ops + more[..n]) + [more[n]];
      RunAppend(cfg, db, ops + more[..n], more[n]);
    }
  }

  /** A course of events is a serial run. */
  lemma {:induction false} CourseIsSerialRun(cfg: Config, db: Db, events: seq<Event>)
    ensures Course(cfg, db, events) == Run(cfg, db, Steps(events))
  {
    hide Do, Run;
    if events == [] {
      assert Run(cfg, db, []) == db by { NoSteps(cfg, db); }
    } else {
      var pre, last := events[..|events| - 1], events[|events| - 1];
      CourseIsSerialRun(cfg, db, pre);
      if last.Poll? {
        RunConcat(cfg, db, Steps(pre), OpsFor(last.round.b, last.round.ids));
      } else {
        RunAppend(cfg, db, Steps(pre), last.op);
      }
    }
  }

  lemma NoSteps(cfg: Config, db: Db)
    ensures Run(cfg, db, []) == db
  {
  }

  function Polls(events: seq<Event>): nat {
    if events == [] then 0 else Polls(events[..|events| - 1]) + if events[|events| - 1].Poll? then 1 else 0
  }

  predicate PassesOver(event: Event, x: nat) {
    event.Poll? ==> x !in event.round.ids
  }

  predicate Unpolled(events: seq<Event>, x: nat) {
    events != [] ==> Unpolled(events[..|events| - 1], x) && PassesOver(events[|events| - 1], x)
  }

  /** A reconcile batch while x is due, or any step on another payment after the last
      update of x. */
  ghost predicate Fits(cfg: Config, db: Db, event: Event, x: nat, stuck: set<nat>) {
    match event
    case Poll(r) => PollingRound(cfg, db.rows, r, x, stuck)
    case Other(op) => ValidOp(op) && (op.Touch? ==> op.id != x) && x in db.rows && db.rows[x].updatedAt < op.now
  }

  /** Such events, for as long as x is passed over; nothing is asked of those that follow. */
  ghost predicate AllFit(cfg: Config, db: Db, events: seq<Event>, x: nat, stuck: set<nat>) {
    events != [] ==>
      var pre := events[..|events| - 1];
      && AllFit(cfg, db, pre, x, stuck)
      && (Unpolled(pre, x) ==> Fits(cfg, Course(cfg, db, pre), events[|events| - 1], x, stuck))
  }

  /** A later update or a new row never gets ahead of x. */
  lemma ReplacedGetsBehind(rows: Rows, id: nat, row: Payment, x: nat)
    requires x in rows && id != x && rows[x].updatedAt < row.updatedAt
    ensures Ahead(rows[id := row], x) <= Ahead(rows, x)
  {
    hide Waiting;
  }

  lemma OtherGetsBehind(cfg: Config, db: Db, op: Op, x: nat)
    requires DbInv(cfg, db) && ValidOp(op) && x in db.rows
    requires (op.Touch? ==> op.id != x) && db.rows[x].updatedAt < op.now
    ensures var db' := Do(cfg, db, op);
            && DbInv(cfg, db') && x in db'.rows && db'.rows[x] == db.rows[x]
            && Ahead(db'.rows, x) <= Ahead(db.rows, x)
  {
    hide RowInv, ChangeOf, NewRow, Ahead;
    if op.Create? {
      CreateEffect(cfg, db, op);
      NewRowIsStamped(op);
      ReplacedGetsBehind(db.rows, db.nextID, CreatedRow(op).(id := db.nextID), x);
    } else {
      TouchEffect(cfg, db, op);
      var c := Attempted(cfg, db, op);
      if c.Write? && op.fault.write.None? {
        Concurrent.ChangeStamps(cfg, db.rows[op.id], op.cause, op.now);
        ReplacedGetsBehind(db.rows, op.id, c.row, x);
      }
    }
  }

  lemma NewRowIsStamped(op: Op)
    requires op.Create?
    ensures CreatedRow(op).updatedAt == op.now
  {
    hide TrimSpace, NonBlank, ToUpper, ToLower;
  }

  lemma RoundIsAtOnce(cfg: Config, db: Db, r: Round, x: nat, stuck: set<nat>)
    requires DbInv(cfg, db) && PollingRound(cfg, db.rows, r, x, stuck)
    ensures var db' := Run(cfg, db, OpsFor(r.b, r.ids));
            DbInv(cfg, db') && db'.rows == AtOnce(cfg, db.rows, r.ids, r.b)
  {
    hide DbInv, RowAfter, DueForReconcile, AtOnce, Run, EventsFor;
    assert AllSelected(cfg, db.rows, r.ids, r.b);
    BatchIsAtOnce(cfg, db, r.ids, r.b);
  }

  lemma PollShrinks(cfg: Config, db: Db, r: Round, x: nat, stuck: set<nat>, start: set<nat>)
    requires DbInv(cfg, db) && x in db.rows && PollingRound(cfg, db.rows, r, x, stuck) && x !in r.ids
    requires Ahead(db.rows, x) <= start
    ensures var db' := Run(cfg, db, OpsFor(r.b, r.ids));
            && DbInv(cfg, db') && x in db'.rows && db'.rows[x] == db.rows[x]
            && Ahead(db'.rows, x) <= start
            && |Ahead(db'.rows, x) - stuck| + cfg.BatchSize() <= |Ahead(db.rows, x) - stuck| + |start * stuck|
  {
    hide DbInv, AtOnce, Run, Ahead, PollingRound, Config.BatchSize;
    RoundIsAtOnce(cfg, db, r, x, stuck);
    PassingShrinks(cfg, db.rows, r, x, stuck);
    StuckStay(cfg, db.rows, r, x, stuck);
    SubsetSize(Ahead(db.rows, x) * stuck, start * stuck);
  }

  /** The waiting time of x, in batches that pass it over, whatever else happens. */
  lemma {:induction false} WaitIsBounded(cfg: Config, db: Db, events: seq<Event>, x: nat, stuck: set<nat>)
    requires DbInv(cfg, db) && x in db.rows && AllFit(cfg, db, events, x, stuck) && Unpolled(events, x)
    ensures var after, free := Course(cfg, db, events), cfg.BatchSize() - |Ahead(db.rows, x) * stuck|;
            && DbInv(cfg, after) && x in after.rows && after.rows[x] == db.rows[x]
            && Ahead(after.rows, x) <= Ahead(db.rows, x)
            && |Ahead(after.rows, x) - stuck| + Polls(events) * free <= |Ahead(db.rows, x) - stuck|
  {
    hide DbInv, Do, Run, Ahead, PollingRound, PassesOver, ValidOp, Config.BatchSize;
    if events != [] {
      var pre, last := events[..|events| - 1], events[|events| - 1];
      WaitIsBounded(cfg, db, pre, x, stuck);
      var before, free := Course(cfg, db, pre), cfg.BatchSize() - |Ahead(db.rows, x) * stuck|;
      if last.Poll? {
        assert x !in last.round.ids by { PassedOver(last, x); }
        PollShrinks(cfg, before, last.round, x, stuck, Ahead(db.rows, x));
        assert Polls(events) * free == Polls(pre) * free + free;
      } else {
        OtherGetsBehind(cfg, before, last.op, x);
        SubsetSize(Ahead(After(cfg, before, last).rows, x) - stuck, Ahead(before.rows, x) - stuck);
      }
    }
  }

  lemma PassedOver(event: Event, x: nat)
    requires event.Poll? && PassesOver(event, x)
    ensures x !in event.round.ids
  {
  }

  /** A stale payment is polled within n / f + 1 reconcile batches, if n other rows are ahead
      of it at first and the stuck ones among them leave f > 0 places of each batch, however
      many other payments are created, changed or delivered in between. */
  lemma PolledAmidOthers(cfg: Config, db: Db, events: seq<Event>, x: nat, stuck: set<nat>)
    requires DbInv(cfg, db) && x in db.rows && AllFit(cfg, db, events, x, stuck)
    requires Polls(events) * (cfg.BatchSize() - |Ahead(db.rows, x) * stuck|) > |Ahead(db.rows, x) - stuck|
    ensures !Unpolled(events, x)
  {
    hide DbInv, AllFit, Ahead, Course, Polls, Unpolled, Config.BatchSize;
    if Unpolled(events, x) {
      WaitIsBounded(cfg, db, events, x, stuck);
      assert false;
    }
  }
}
