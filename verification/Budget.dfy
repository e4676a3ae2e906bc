/** The retry budget of the callback dispatcher over whole serial runs: how many
    delivery attempts there can be, and how early delivery can be given up. */
module Budget {
  import opened Basics
  import opened Entity
  import opened Lifecycle
  import opened Table
  import opened Serial

  /** Whether a change (re-)arms delivery, that is, calls markForCallbackDelivery. */
  predicate Arms(p: Payment, cause: Cause, change: Change) {
    && change.Write? && !cause.Dispatch? && TerminalStatus(change.row.status)
    && (cause.Webhook? ==> change.row.status != p.status)
  }

  predicate Delivers(p: Payment, cause: Cause, change: Change) {
    change.Write? && cause.Dispatch? && !IsBlank(p.statusCallbackURL) && Accepted(cause.attempt)
  }

  predicate Fails(p: Payment, cause: Cause, change: Change) {
    change.Write? && cause.Dispatch? && !IsBlank(p.statusCallbackURL) && !Accepted(cause.attempt)
  }

  function Bit(b: bool): nat {
    if b then 1 else 0
  }

  /** The attempts a row may still use, and whether it is still to be delivered. */
  function Owed(cfg: Config, p: Payment): nat {
    if p.delivery == DELIVERY_PENDING && p.attempts < cfg.MaxAttempts() then cfg.MaxAttempts() - p.attempts else 0
  }

  function Open(p: Payment): nat {
    Bit(p.delivery == DELIVERY_PENDING)
  }

  function OwedBy(cfg: Config): Payment -> nat {
    p => Owed(cfg, p)
  }

  function Sum(rows: Rows, n: nat, weight: Payment -> nat): nat {
    if n == 0 then 0
    else Sum(rows, n - 1, weight) + if n - 1 in rows then weight(rows[n - 1]) else 0
  }

  lemma {:induction false} SumReplace(rows: Rows, n: nat, weight: Payment -> nat, id: nat, row: Payment)
    ensures Sum(rows[id := row], n, weight) + (if id in rows && id < n then weight(rows[id]) else 0)
         == Sum(rows, n, weight) + (if id < n then weight(row) else 0)
  {
    if n > 0 {
      SumReplace(rows, n - 1, weight, id, row);
    }
  }

  /** One writer on one row: what it uses up was owed by the row or granted by arming it. */
  lemma RowBudget(cfg: Config, p: Payment, cause: Cause, now: int)
    requires RowInv(cfg, p) && Selected(cfg, p, cause, now)
    requires ChangeOf(cfg, p, cause, now).Write?
    ensures var c := ChangeOf(cfg, p, cause, now);
            && Bit(Fails(p, cause, c)) + Bit(Delivers(p, cause, c)) + Owed(cfg, c.row)
                 <= Owed(cfg, p) + (if Arms(p, cause, c) then cfg.MaxAttempts() else 0)
            && Bit(Delivers(p, cause, c)) + Open(c.row) <= Open(p) + Bit(Arms(p, cause, c))
  {
    hide DispatchChange, CancelChange, ExpireChange, WebhookChange, ReconcileChange, OptionalsInv, IsBlank,
      Config.MaxAttempts;
    if cause.Dispatch? {
      AttemptsNeverOverflow(cfg, p, now);
      DispatchOutcome(cfg, p, cause.attempt, now);
    } else {
      ArmsOrKeeps(cfg, p, cause, now);
    }
  }

  /** What is counted is what happens: an attempt is either refused, which raises the counter
      and takes one off what is owed, or acknowledged, which closes the row; arming a row
      owes it the whole budget. */
  lemma RowCounts(cfg: Config, p: Payment, cause: Cause, now: int)
    requires RowInv(cfg, p) && Selected(cfg, p, cause, now)
    requires ChangeOf(cfg, p, cause, now).Write?
    ensures var c := ChangeOf(cfg, p, cause, now);
            && (cause.Dispatch? ==> Fails(p, cause, c) != Delivers(p, cause, c))
            && (Fails(p, cause, c) ==> c.row.attempts == p.attempts + 1 && Owed(cfg, c.row) + 1 == Owed(cfg, p))
            && (Delivers(p, cause, c) ==> c.row.delivery == DELIVERY_SUCCESS && Open(p) == 1 && Open(c.row) == 0)
            && (Arms(p, cause, c) ==> Owed(cfg, c.row) == cfg.MaxAttempts() && Open(c.row) == 1)
            && (!Arms(p, cause, c) && !cause.Dispatch? ==> c.row.delivery == p.delivery && c.row.nextAt == p.nextAt)
  {
    hide DispatchChange, CancelChange, ExpireChange, WebhookChange, ReconcileChange, OptionalsInv, IsBlank;
    if cause.Dispatch? {
      AttemptsNeverOverflow(cfg, p, now);
      DispatchOutcome(cfg, p, cause.attempt, now);
    } else {
      ArmsOrKeeps(cfg, p, cause, now);
    }
  }

  /** What a run has done so far: rows armed, failed and acknowledged attempts. */
  datatype Tally = Tally(marks: nat, failures: nat, successes: nat)

  /** The step's contribution, counted only when its row write landed. */
  function TallyOf(cfg: Config, db: Db, op: Op): Tally {
    if op.Create? || op.id !in db.rows || !Lands(db.rows, Attempted(cfg, db, op), op.fault) then Tally(0, 0, 0)
    else
      var p, c := db.rows[op.id], Attempted(cfg, db, op);
      Tally(Bit(Arms(p, op.cause, c)), Bit(Fails(p, op.cause, c)), Bit(Delivers(p, op.cause, c)))
  }

  function Plus(t: Tally, s: Tally): Tally {
    Tally(t.marks + s.marks, t.failures + s.failures, t.successes + s.successes)
  }

  function Count(cfg: Config, db: Db, ops: seq<Op>): Tally {
    if ops == [] then Tally(0, 0, 0)
    else
      var pre := ops[..|ops| - 1];
      Plus(Count(cfg, db, pre), TallyOf(cfg, Run(cfg, db, pre), ops[|ops| - 1]))
  }

  /** The delivery attempts made, plus those still owed to pending rows, fit the budget
      granted by arming rows; and rows delivered or still open fit the armings. */
  ghost predicate WithinBudget(cfg: Config, db: Db, t: Tally) {
    && t.failures + t.successes + Sum(db.rows, db.nextID, OwedBy(cfg)) <= t.marks * cfg.MaxAttempts()
    && t.successes + Sum(db.rows, db.nextID, Open) <= t.marks
  }

  lemma InsertWithinBudget(cfg: Config, db: Db, t: Tally, row: Payment, fault: Fault)
    requires TableInv(db.rows, db.nextID) && row.delivery == DELIVERY_NONE
    requires WithinBudget(cfg, db, t)
    ensures WithinBudget(cfg, Insert(db, row, fault), t)
  {
    var stored := row.(id := db.nextID);
    SumReplace(db.rows, db.nextID, OwedBy(cfg), db.nextID, stored);
    SumReplace(db.rows, db.nextID, Open, db.nextID, stored);
  }

  lemma Distribute(a: int, b: int, m: int)
    ensures (a + b) * m == a * m + b * m
  {
  }

  lemma ReplaceWithinBudget(cfg: Config, db: Db, t: Tally, id: nat, row: Payment, s: Tally, db': Db)
    requires TableInv(db.rows, db.nextID) && id in db.rows
    requires WithinBudget(cfg, db, t)
    requires db'.rows == db.rows[id := row] && db'.nextID == db.nextID
    requires s.failures + s.successes + Owed(cfg, row) <= Owed(cfg, db.rows[id]) + s.marks * cfg.MaxAttempts()
    requires s.successes + Open(row) <= Open(db.rows[id]) + s.marks
    ensures WithinBudget(cfg, db', Plus(t, s))
  {
    hide Sum, Owed, Open, Config.MaxAttempts;
    SumReplace(db.rows, db.nextID, OwedBy(cfg), id, row);
    SumReplace(db.rows, db.nextID, Open, id, row);
    Distribute(t.marks, s.marks, cfg.MaxAttempts());
  }

  lemma TouchWithinBudget(cfg: Config, db: Db, t: Tally, op: Op)
    requires DbInv(cfg, db) && op.Touch?
    requires WithinBudget(cfg, db, t)
    ensures WithinBudget(cfg, Do(cfg, db, op), Plus(t, TallyOf(cfg, db, op)))
  {
    hide RowInv, ChangeOf, Sum, Owed, Open, WithinBudget, Config.MaxAttempts;
    TouchEffect(cfg, db, op);
    var c := Attempted(cfg, db, op);
    if c.Write? && op.fault.write.None? {
      RowBudget(cfg, db.rows[op.id], op.cause, op.now);
      var s := TallyOf(cfg, db, op);
      assert s.marks * cfg.MaxAttempts() == if s.marks == 1 then cfg.MaxAttempts() else 0;
      ReplaceWithinBudget(cfg, db, t, op.id, c.row, s, Do(cfg, db, op));
    }
  }

  lemma StepWithinBudget(cfg: Config, db: Db, t: Tally, op: Op)
    requires DbInv(cfg, db) && ValidOp(op) && WithinBudget(cfg, db, t)
    ensures WithinBudget(cfg, Do(cfg, db, op), Plus(t, TallyOf(cfg, db, op)))
  {
    hide RowInv, ChangeOf, NewRow, Sum;
    if op.Create? {
      CreateEffect(cfg, db, op);
      InsertWithinBudget(cfg, db, t, CreatedRow(op), op.fault);
    } else {
      TouchWithinBudget(cfg, db, t, op);
    }
  }

  /** Over any serial run, whatever the endpoints answer and whatever writes fail. */
  lemma {:induction false} RetryBudget(cfg: Config, ops: seq<Op>)
    requires forall op :: op in ops ==> ValidOp(op)
    ensures WithinBudget(cfg, Run(cfg, EMPTY, ops), Count(cfg, EMPTY, ops))
  {
    if ops != [] {
      var pre, op := ops[..|ops| - 1], ops[|ops| - 1];
      RetryBudget(cfg, pre);
      RunKeepsDbInv(cfg, EMPTY, pre);
      StepWithinBudget(cfg, Run(cfg, EMPTY, pre), Count(cfg, EMPTY, pre), op);
    }
  }

  /** When each row was last armed, and when its delivery was last given up. */
  datatype History = History(markedAt: map<nat, int>, gaveUpAt: map<nat, int>)

  function Noted(h: History, p: Payment, cause: Cause, c: Change, now: int): History
    requires c.Write?
  {
    if Arms(p, cause, c) then h.(markedAt := h.markedAt[p.id := now])
    else if p.delivery == DELIVERY_PENDING && c.row.delivery == DELIVERY_FAILED then
      h.(gaveUpAt := h.gaveUpAt[p.id := now])
    else h
  }

  function Recorded(cfg: Config, db: Db, h: History, op: Op): History {
    if op.Create? || op.id !in db.rows || !Lands(db.rows, Attempted(cfg, db, op), op.fault) then h
    else Noted(h, db.rows[op.id], op.cause, Attempted(cfg, db, op), op.now)
  }

  function Past(cfg: Config, db: Db, ops: seq<Op>): History {
    if ops == [] then History(map[], map[])
    else
      var pre := ops[..|ops| - 1];
      Recorded(cfg, Run(cfg, db, pre), Past(cfg, db, pre), ops[|ops| - 1])
  }

  /** A pending row is not due before its elapsed attempts have each been followed by
      a full retry interval; a failed one was not given up before the whole budget was. */
  ghost predicate BacksOff(cfg: Config, h: History, p: Payment) {
    && (p.delivery == DELIVERY_PENDING ==>
          && p.id in h.markedAt && p.nextAt.Some?
          && p.nextAt.value >= h.markedAt[p.id] + p.attempts * cfg.RetryInterval())
    && (p.delivery == DELIVERY_FAILED ==>
          && p.id in h.markedAt && p.id in h.gaveUpAt
          && h.gaveUpAt[p.id] >= h.markedAt[p.id] + (cfg.MaxAttempts() - 1) * cfg.RetryInterval())
  }

  lemma RefusedBacksOff(cfg: Config, h: History, p: Payment, text: string, now: int)
    requires RowInv(cfg, p) && DueForDispatch(p, now) && BacksOff(cfg, h, p)
    ensures var row := Refused(cfg, p, text, now);
            && (row.delivery == DELIVERY_PENDING ==> BacksOff(cfg, h, row))
            && (row.delivery == DELIVERY_FAILED ==> BacksOff(cfg, h.(gaveUpAt := h.gaveUpAt[p.id := now]), row))
  {
    hide RowInv, Wrap32, Truncate, Config.RetryInterval;
    AttemptsNeverOverflow(cfg, p, now);
    var interval := cfg.RetryInterval();
    Distribute(p.attempts, 1, interval);
  }

  lemma DispatchBacksOff(cfg: Config, h: History, p: Payment, attempt: Attempt, now: int)
    requires RowInv(cfg, p) && DueForDispatch(p, now) && BacksOff(cfg, h, p)
    requires DispatchChange(cfg, p, attempt, now).Write?
    ensures var c := DispatchChange(cfg, p, attempt, now);
            BacksOff(cfg, Noted(h, p, Dispatch(attempt), c, now), c.row)
  {
    if !Accepted(attempt) {
      RefusedBacksOff(cfg, h, p, AttemptError(attempt).1, now);
    }
  }

  /** A writer other than the dispatcher either arms delivery afresh or leaves it alone. */
  lemma ArmsOrKeeps(cfg: Config, p: Payment, cause: Cause, now: int)
    requires RowInv(cfg, p) && Selected(cfg, p, cause, now)
    requires ChangeOf(cfg, p, cause, now).Write? && !cause.Dispatch?
    ensures var c := ChangeOf(cfg, p, cause, now);
            && c.row.id == p.id
            && (Arms(p, cause, c) ==>
                  c.row.delivery == DELIVERY_PENDING && c.row.attempts == 0 && c.row.nextAt == Some(now))
            && (!Arms(p, cause, c) ==>
                  c.row.delivery == p.delivery && c.row.attempts == p.attempts && c.row.nextAt == p.nextAt)
  {
    hide DispatchChange, DeliveryInv, OptionalsInv, IsBlank, TrimSpace;
    if cause.Reconcile? {
      ReconcileKeepsRowInv(cfg, p, cause.reply, now);
    }
  }

  lemma OtherBacksOff(cfg: Config, h: History, p: Payment, cause: Cause, now: int)
    requires RowInv(cfg, p) && Selected(cfg, p, cause, now) && BacksOff(cfg, h, p)
    requires ChangeOf(cfg, p, cause, now).Write? && !cause.Dispatch?
    ensures var c := ChangeOf(cfg, p, cause, now); BacksOff(cfg, Noted(h, p, cause, c, now), c.row)
  {
    hide ChangeOf, RowInv;
    ArmsOrKeeps(cfg, p, cause, now);
  }

  lemma RowBacksOff(cfg: Config, h: History, p: Payment, cause: Cause, now: int)
    requires RowInv(cfg, p) && Selected(cfg, p, cause, now) && BacksOff(cfg, h, p)
    requires ChangeOf(cfg, p, cause, now).Write?
    ensures var c := ChangeOf(cfg, p, cause, now); BacksOff(cfg, Noted(h, p, cause, c, now), c.row)
  {
    hide RowInv, DispatchChange, CancelChange, ExpireChange, WebhookChange, ReconcileChange, BacksOff, Noted;
    if cause.Dispatch? {
      DispatchBacksOff(cfg, h, p, cause.attempt, now);
    } else {
      OtherBacksOff(cfg, h, p, cause, now);
    }
  }

  ghost predicate AllBackOff(cfg: Config, db: Db, h: History) {
    forall id :: id in db.rows ==> BacksOff(cfg, h, db.rows[id])
  }

  lemma StepBacksOff(cfg: Config, db: Db, h: History, op: Op)
    requires DbInv(cfg, db) && ValidOp(op) && AllBackOff(cfg, db, h)
    ensures AllBackOff(cfg, Do(cfg, db, op), Recorded(cfg, db, h, op))
  {
    hide RowInv, ChangeOf, NewRow, BacksOff, Noted;
    if op.Create? {
      CreateEffect(cfg, db, op);
      assert forall id :: BacksOff(cfg, h, CreatedRow(op).(id := id)) by { CreatedBacksOff(cfg, h, op); }
    } else {
      TouchEffect(cfg, db, op);
      var c := Attempted(cfg, db, op);
      if c.Write? && op.fault.write.None? {
        RowBacksOff(cfg, h, db.rows[op.id], op.cause, op.now);
        forall id | id in db.rows && id != op.id
          ensures BacksOff(cfg, Recorded(cfg, db, h, op), db.rows[id])
        {
          OtherRowBacksOff(cfg, h, db.rows[id], db.rows[op.id], op.cause, c, op.now);
        }
      }
    }
  }

  lemma CreatedBacksOff(cfg: Config, h: History, op: Op)
    requires op.Create? && CreatedRow(op).delivery == DELIVERY_NONE
    ensures forall id :: BacksOff(cfg, h, CreatedRow(op).(id := id))
  {
  }

  lemma OtherRowBacksOff(cfg: Config, h: History, p: Payment, q: Payment, cause: Cause, c: Change, now: int)
    requires BacksOff(cfg, h, p) && p.id != q.id && c.Write?
    ensures BacksOff(cfg, Noted(h, q, cause, c, now), p)
  {
  }

  /** Delivery backs off: in every serial run no row is retried, or given up, early. */
  lemma {:induction false} RetriesBackOff(cfg: Config, ops: seq<Op>)
    requires forall op :: op in ops ==> ValidOp(op)
    ensures AllBackOff(cfg, Run(cfg, EMPTY, ops), Past(cfg, EMPTY, ops))
  {
    if ops != [] {
      var pre, op := ops[..|ops| - 1], ops[|ops| - 1];
      RetriesBackOff(cfg, pre);
      RunKeepsDbInv(cfg, EMPTY, pre);
      StepBacksOff(cfg, Run(cfg, EMPTY, pre), Past(cfg, EMPTY, pre), op);
    }
  }

  // ----- Progress -----

  /** Whether the step's write on row `id` lands, and whether it (re-)arms delivery. */
  predicate LandsOn(cfg: Config, db: Db, op: Op, id: nat) {
    op.Touch? && op.id == id && id in db.rows && Lands(db.rows, Attempted(cfg, db, op), op.fault)
  }

  predicate ArmsOn(cfg: Config, db: Db, op: Op, id: nat) {
    LandsOn(cfg, db, op, id) && Arms(db.rows[id], op.cause, Attempted(cfg, db, op))
  }

  /** How many delivery attempts on the row have been recorded. */
  function Deliveries(cfg: Config, db: Db, ops: seq<Op>, id: nat): nat {
    if ops == [] then 0
    else
      var pre, last := ops[..|ops| - 1], ops[|ops| - 1];
      Deliveries(cfg, db, pre, id)
      + Bit(last.Touch? && last.cause.Dispatch? && LandsOn(cfg, Run(cfg, db, pre), last, id))
  }

  ghost predicate NotRearmed(cfg: Config, db: Db, ops: seq<Op>, id: nat) {
    ops != [] ==>
      var pre := ops[..|ops| - 1];
      NotRearmed(cfg, db, pre, id) && !ArmsOn(cfg, Run(cfg, db, pre), ops[|ops| - 1], id)
  }

  /** Where the delivery of a row stands n recorded attempts after it stood at p. */
  predicate Progressed(cfg: Config, p: Payment, q: Payment, n: nat) {
    || (q.delivery == DELIVERY_PENDING && q.attempts == p.attempts + n)
    || (q.delivery == DELIVERY_SUCCESS && 1 <= n <= cfg.MaxAttempts() - p.attempts)
    || (q.delivery == DELIVERY_FAILED && n == cfg.MaxAttempts() - p.attempts)
  }

  lemma RowProgresses(cfg: Config, p: Payment, q: Payment, n: nat, cause: Cause, now: int)
    requires RowInv(cfg, p) && RowInv(cfg, q) && p.delivery == DELIVERY_PENDING && Progressed(cfg, p, q, n)
    requires Selected(cfg, q, cause, now) && ChangeOf(cfg, q, cause, now).Write?
    requires !Arms(q, cause, ChangeOf(cfg, q, cause, now))
    ensures Progressed(cfg, p, ChangeOf(cfg, q, cause, now).row, n + Bit(cause.Dispatch?))
  {
    hide DispatchChange, OptionalsInv, Arms, CancelChange, ExpireChange, WebhookChange, ReconcileChange,
      Config.MaxAttempts;
    if cause.Dispatch? {
      AttemptsNeverOverflow(cfg, q, now);
      DispatchOutcome(cfg, q, cause.attempt, now);
    } else {
      ArmsOrKeeps(cfg, q, cause, now);
    }
  }

  /** Delivery makes progress over every serial run that does not arm the row again: every
      recorded attempt uses up one of the budget or ends delivery, so that once the rest of
      the budget has been attempted the row is delivered or given up. */
  lemma {:induction false} DeliveryProgresses(cfg: Config, db: Db, ops: seq<Op>, id: nat)
    requires DbInv(cfg, db) && forall op :: op in ops ==> ValidOp(op)
    requires id in db.rows && db.rows[id].delivery == DELIVERY_PENDING && NotRearmed(cfg, db, ops, id)
    ensures id in Run(cfg, db, ops).rows
    ensures Progressed(cfg, db.rows[id], Run(cfg, db, ops).rows[id], Deliveries(cfg, db, ops, id))
  {
    hide RowInv, ChangeOf, Do, Progressed, Arms, Selected, DbInv;
    if ops == [] {
      assert Progressed(cfg, db.rows[id], db.rows[id], 0) by { ProgressStarts(cfg, db.rows[id]); }
    } else {
      var pre, op := ops[..|ops| - 1], ops[|ops| - 1];
      DeliveryProgresses(cfg, db, pre, id);
      RunKeepsDbInv(cfg, db, pre);
      StepProgresses(cfg, db, Run(cfg, db, pre), op, id, Deliveries(cfg, db, pre, id));
    }
  }

  lemma ProgressStarts(cfg: Config, p: Payment)
    requires p.delivery == DELIVERY_PENDING
    ensures Progressed(cfg, p, p, 0)
  {
  }

  lemma StepProgresses(cfg: Config, start: Db, db: Db, op: Op, id: nat, n: nat)
    requires DbInv(cfg, start) && DbInv(cfg, db) && ValidOp(op)
    requires id in start.rows && start.rows[id].delivery == DELIVERY_PENDING
    requires id in db.rows && Progressed(cfg, start.rows[id], db.rows[id], n) && !ArmsOn(cfg, db, op, id)
    ensures var db' := Do(cfg, db, op);
            && id in db'.rows
            && var done := Bit(op.Touch? && op.cause.Dispatch? && LandsOn(cfg, db, op, id));
               Progressed(cfg, start.rows[id], db'.rows[id], n + done)
  {
    hide RowInv, ChangeOf, NewRow, Progressed, Arms, Selected;
    if op.Create? {
      CreateEffect(cfg, db, op);
    } else {
      TouchEffect(cfg, db, op);
      if LandsOn(cfg, db, op, id) {
        RowProgresses(cfg, start.rows[id], db.rows[id], n, op.cause, op.now);
      }
    }
  }

  /** In particular delivery is settled after the budgeted number of attempts. */
  lemma DeliverySettles(cfg: Config, db: Db, ops: seq<Op>, id: nat)
    requires DbInv(cfg, db) && forall op :: op in ops ==> ValidOp(op)
    requires id in db.rows && db.rows[id].delivery == DELIVERY_PENDING && NotRearmed(cfg, db, ops, id)
    ensures id in Run(cfg, db, ops).rows
    ensures var n, left := Deliveries(cfg, db, ops, id), cfg.MaxAttempts() - db.rows[id].attempts;
            && n <= left
            && (n == left ==> Run(cfg, db, ops).rows[id].delivery in {DELIVERY_SUCCESS, DELIVERY_FAILED})
  {
    hide ChangeOf, Do, NotRearmed, Deliveries, OptionalsInv, ValidOp, TableInv;
    DeliveryProgresses(cfg, db, ops, id);
    RunKeepsDbInv(cfg, db, ops);
  }
}
