/** Handlers and workers running concurrently over one table. Every actor reads rows,
    may wait for an outside answer, computes on its own copy and then overwrites the
    stored row by id, without checking that the row is still the one it read. */
module Concurrent {
  import opened Basics
  import opened Entity
  import opened Stripe
  import opened Lifecycle
  import opened Table
  import Serial
  import Batches

  datatype Job = ReconcileJob | DispatchJob | ExpireJob

  /** How an actor goes on after its write: a handler is done, a worker has more items. */
  datatype Onward = Done | Resume(job: Job, now: int, rest: seq<Payment>)

  /** What a row about to be written was computed from: the copy that was read, which may
      be stale by now, the cause, and the clock reading. */
  datatype Origin = Origin(snap: Payment, cause: Cause, now: int)

  /** Where an actor stands between two accesses to shared state. */
  datatype Proc =
    | Planning(req: CreateRequest)
    | Inserting(row: Payment, call: Serial.Op)
    | Canceling(snap: Payment)
    | Receiving(raw: RawEvent, payload: string, snap: Payment)
    | Choosing(job: Job, now: int)
    | Looping(job: Job, now: int, items: seq<Payment>)
    | Writing(row: Payment, origin: Origin, onward: Onward)

  /** A create call that returned a payment. */
  datatype Answer = Answer(callerService: string, requestID: string, id: nat)

  datatype Sys = Sys(rows: Rows, nextID: nat, clock: int, procs: map<nat, Proc>, answers: seq<Answer>)

  datatype Action =
    | Tick(now: int)
    | CreateBegin(pid: nat, req: CreateRequest)
    | CreateCall(pid: nat, hash: string, callbackURL: string, reply: CreateReply)
    | CreateInsert(pid: nat)
    | CancelBegin(pid: nat, id: nat)
    | CancelDecide(pid: nat)
    | WebhookBegin(pid: nat, raw: RawEvent, payload: string, provider: int, hash: string)
    | WebhookDecide(pid: nat)
    | JobBegin(pid: nat, job: Job)
    | JobSelect(pid: nat, ids: seq<nat>)
    | JobItem(pid: nat, cause: Cause)
    | WriteRow(pid: nat)
    | WriteFails(pid: nat)
    | Abandon(pid: nat)

  ghost function Start(clock: int): Sys {
    Sys(map[], 1, clock, map[], [])
  }

  ghost predicate IsJobSelection(cfg: Config, rows: Rows, job: Job, now: int, ids: seq<nat>) {
    match job
    case ReconcileJob =>
      var due := Batches.ReconcileDue(now - cfg.reconcileStaleAfter);
      Batches.IsSelection(rows, due, Batches.ByUpdate(), cfg.BatchSize(), ids)
    case DispatchJob =>
      Batches.IsSelection(rows, Batches.DispatchDue(now), Batches.ByNextAt(), cfg.BatchSize(), ids)
    case ExpireJob =>
      Batches.IsSelection(rows, Batches.ExpiryDue(now - cfg.pendingTimeout), Batches.ByCreation(), cfg.BatchSize(), ids)
  }

  predicate CauseOfJob(job: Job, cause: Cause) {
    match job
    case ReconcileJob => cause.Reconcile?
    case DispatchJob => cause.Dispatch?
    case ExpireJob => cause.Expire?
  }

  predicate DueForJob(cfg: Config, p: Payment, job: Job, now: int) {
    match job
    case ReconcileJob => DueForReconcile(p, now - cfg.reconcileStaleAfter)
    case DispatchJob => DueForDispatch(p, now)
    case ExpireJob => DueForExpiry(p, now - cfg.pendingTimeout)
  }

  ghost function SetProc(s: Sys, pid: nat, proc: Proc): Sys {
    s.(procs := s.procs[pid := proc])
  }

  ghost function Finish(s: Sys, pid: nat): Sys {
    s.(procs := s.procs - {pid})
  }

  ghost function Continue(s: Sys, pid: nat, onward: Onward): Sys {
    match onward
    case Done => Finish(s, pid)
    case Resume(job, now, rest) => SetProc(s, pid, Looping(job, now, rest))
  }

  ghost function BeginCreate(s: Sys, pid: nat, req: CreateRequest): Sys {
    var callerService, requestID := TrimSpace(req.callerService), TrimSpace(req.requestID);
    if id: nat :| HasKey(s.rows, id, callerService, requestID) then
      s.(answers := s.answers + [Answer(callerService, requestID, id)])
    else SetProc(s, pid, Planning(req))
  }

  /** From its copy a writer computes a row to store, or nothing to do. */
  ghost function Decide(cfg: Config, s: Sys, pid: nat, origin: Origin, onward: Onward): Sys {
    match ChangeOf(cfg, origin.snap, origin.cause, origin.now)
    case Skip(_) => Continue(s, pid, onward)
    case Write(row, _, _) => SetProc(s, pid, Writing(row, origin, onward))
  }

  ghost function WithRow(s: Sys, row: Payment): Sys {
    s.(rows := s.rows[s.nextID := row.(id := s.nextID)], nextID := s.nextID + 1,
       answers := s.answers + [Answer(row.callerService, row.requestID, s.nextID)])
  }

  ghost function InsertRow(s: Sys, pid: nat, row: Payment): Sys {
    if Rejects(s.rows, row) then Finish(s, pid)
    else Finish(WithRow(s, row), pid)
  }

  ghost function BeginWebhook(s: Sys, pid: nat, raw: RawEvent, payload: string, provider: int, hash: string): Sys {
    if id: nat :| HasHash(s.rows, id, provider, hash) then SetProc(s, pid, Receiving(raw, payload, s.rows[id]))
    else s
  }

  ghost function OverwriteRow(s: Sys, row: Payment): Sys {
    if row.id in s.rows then s.(rows := s.rows[row.id := Overwrite(s.rows[row.id], row)]) else s
  }

  /** The create step of a serial run that amounts to this call. */
  function CallOp(s: Sys, req: CreateRequest, hash: string, callbackURL: string, reply: CreateReply): Serial.Op {
    Serial.Create(req, hash, callbackURL, reply, s.clock, Serial.Fault(None, false))
  }

  ghost function CallProvider(s: Sys, pid: nat, op: Serial.Op): Sys
    requires op.Create?
  {
    SetProc(s, pid, Inserting(Serial.CreatedRow(op), op))
  }

  ghost function SelectItems(cfg: Config, s: Sys, pid: nat, job: Job, now: int, ids: seq<nat>): Sys {
    if IsJobSelection(cfg, s.rows, job, now, ids) then
      SetProc(s, pid, Looping(job, now, seq(|ids|, k requires 0 <= k < |ids| => s.rows[ids[k]])))
    else s
  }

  /** A step of a running actor; an action that does not fit its state has no effect. */
  ghost function Advance(cfg: Config, s: Sys, pid: nat, a: Action): Sys
    requires pid in s.procs
  {
    match s.procs[pid]
    case Planning(req) =>
      if a.CreateCall? then CallProvider(s, pid, CallOp(s, req, a.hash, a.callbackURL, a.reply)) else s
    case Inserting(row, _) => if a.CreateInsert? then InsertRow(s, pid, row) else s
    case Canceling(snap) => if a.CancelDecide? then Decide(cfg, s, pid, Origin(snap, Cancel, s.clock), Done) else s
    case Receiving(raw, payload, snap) =>
      if a.WebhookDecide? then Decide(cfg, s, pid, Origin(snap, Webhook(raw, payload), s.clock), Done) else s
    case Choosing(job, now) => if a.JobSelect? then SelectItems(cfg, s, pid, job, now, a.ids) else s
    case Looping(job, now, items) =>
      if a.JobItem? && items != [] && CauseOfJob(job, a.cause) then
        Decide(cfg, s, pid, Origin(items[0], a.cause, now), Resume(job, now, items[1..]))
      else s
    case Writing(row, _, onward) =>
      if a.WriteRow? then Continue(OverwriteRow(s, row), pid, onward)
      else if a.WriteFails? then Continue(s, pid, onward)
      else s
  }

  ghost function Apply(cfg: Config, s: Sys, a: Action): Sys {
    match a
    case Tick(now) => if s.clock <= now then s.(clock := now) else s
    case CreateBegin(pid, req) => if pid !in s.procs && ValidRequest(req) then BeginCreate(s, pid, req) else s
    case CancelBegin(pid, id) =>
      if pid !in s.procs && id in s.rows then SetProc(s, pid, Canceling(s.rows[id])) else s
    case WebhookBegin(pid, raw, payload, provider, hash) =>
      if pid !in s.procs then BeginWebhook(s, pid, raw, payload, provider, hash) else s
    case JobBegin(pid, job) => if pid !in s.procs then SetProc(s, pid, Choosing(job, s.clock)) else s
    case Abandon(pid) => Finish(s, pid)
    case _ => if a.pid in s.procs then Advance(cfg, s, a.pid, a) else s
  }

  ghost function After(cfg: Config, s: Sys, acts: seq<Action>): Sys {
    if acts == [] then s else Apply(cfg, After(cfg, s, acts[..|acts| - 1]), acts[|acts| - 1])
  }

  // ----- The invariant -----

  /** The configured delays are not negative. */
  predicate DelaysForward(cfg: Config) {
    cfg.pendingTimeout >= 0 && cfg.reconcileStaleAfter >= 0
  }

  predicate Times(cfg: Config, p: Payment) {
    DelaysForward(cfg) ==>
      p.createdAt <= p.updatedAt && (p.nextAt.Some? ==> p.createdAt <= p.nextAt.value)
  }

  predicate Good(cfg: Config, p: Payment) {
    RowInv(cfg, p) && Times(cfg, p)
  }

  /** A copy of a row, however stale, still names the stored row of the same identity. */
  ghost predicate SnapInv(cfg: Config, rows: Rows, p: Payment) {
    p.id in rows && SameIdentity(rows[p.id], p) && Good(cfg, p)
  }

  ghost predicate ItemsInv(cfg: Config, rows: Rows, job: Job, now: int, items: seq<Payment>) {
    forall k :: 0 <= k < |items| ==> SnapInv(cfg, rows, items[k]) && DueForJob(cfg, items[k], job, now)
  }

  predicate CarriesNoStatus(cause: Cause) {
    cause.Webhook? && EventStatus(cause.raw.kind) == 0
  }

  ghost predicate OnwardInv(cfg: Config, rows: Rows, clock: int, onward: Onward) {
    onward.Resume? ==> onward.now <= clock && ItemsInv(cfg, rows, onward.job, onward.now, onward.rest)
  }

  /** A row about to be written is what its cause makes of the copy, and is terminal
      unless a webhook without a status keeps the copy's. */
  ghost predicate OriginInv(cfg: Config, row: Payment, origin: Origin) {
    && Good(cfg, origin.snap) && SameIdentity(origin.snap, row)
    && Selected(cfg, origin.snap, origin.cause, origin.now)
    && ChangeOf(cfg, origin.snap, origin.cause, origin.now).Write?
    && ChangeOf(cfg, origin.snap, origin.cause, origin.now).row == row
    && (!TerminalStatus(row.status) <==> CarriesNoStatus(origin.cause) && !TerminalStatus(origin.snap.status))
  }

  /** The row to be inserted is that of a serial create step. */
  ghost predicate CallInv(row: Payment, op: Serial.Op) {
    op.Create? && op.fault.write.None? && Serial.ValidOp(op) && Serial.CreatedRow(op) == row
  }

  ghost predicate ProcInv(cfg: Config, rows: Rows, clock: int, proc: Proc) {
    match proc
    case Planning(req) => ValidRequest(req)
    case Inserting(row, op) => Good(cfg, row) && row.createdAt <= clock && CallInv(row, op)
    case Canceling(snap) => SnapInv(cfg, rows, snap)
    case Receiving(_, _, snap) => SnapInv(cfg, rows, snap)
    case Choosing(_, now) => now <= clock
    case Looping(job, now, items) => now <= clock && ItemsInv(cfg, rows, job, now, items)
    case Writing(row, origin, onward) =>
      SnapInv(cfg, rows, row) && OriginInv(cfg, row, origin) && OnwardInv(cfg, rows, clock, onward)
  }

  ghost predicate RowsInv(cfg: Config, rows: Rows, clock: int) {
    forall id :: id in rows ==> Good(cfg, rows[id]) && rows[id].createdAt <= clock
  }

  ghost predicate AnswersInv(rows: Rows, answers: seq<Answer>) {
    forall k :: 0 <= k < |answers| ==> HasKey(rows, answers[k].id, answers[k].callerService, answers[k].requestID)
  }

  ghost predicate Inv(cfg: Config, s: Sys) {
    && TableInv(s.rows, s.nextID)
    && RowsInv(cfg, s.rows, s.clock)
    && (forall pid :: pid in s.procs ==> ProcInv(cfg, s.rows, s.clock, s.procs[pid]))
    && AnswersInv(s.rows, s.answers)
  }

  /** Every row is still there, with the same identity. */
  ghost predicate Extends(rows: Rows, rows': Rows) {
    forall id :: id in rows ==> id in rows' && SameIdentity(rows[id], rows'[id])
  }

  // ----- Each step keeps the invariant -----

  lemma SnapStable(cfg: Config, rows: Rows, rows': Rows, p: Payment)
    requires SnapInv(cfg, rows, p) && Extends(rows, rows')
    ensures SnapInv(cfg, rows', p)
  {
    hide Good;
  }

  lemma ProcStable(cfg: Config, rows: Rows, rows': Rows, clock: int, clock': int, proc: Proc)
    requires ProcInv(cfg, rows, clock, proc) && Extends(rows, rows') && clock <= clock'
    ensures ProcInv(cfg, rows', clock', proc)
  {
    hide SnapInv, Good, Extends, DueForJob, EventStatus;
    forall p | SnapInv(cfg, rows, p)
      ensures SnapInv(cfg, rows', p)
    {
      SnapStable(cfg, rows, rows', p);
    }
  }

  lemma ProcSet(cfg: Config, s: Sys, pid: nat, proc: Proc)
    requires Inv(cfg, s) && ProcInv(cfg, s.rows, s.clock, proc)
    ensures Inv(cfg, SetProc(s, pid, proc)) && Inv(cfg, Finish(s, pid))
  {
    hide ProcInv, RowsInv, TableInv;
  }

  /** A change of the table that keeps identities disturbs no actor in flight. */
  lemma TableChange(cfg: Config, s: Sys, s': Sys)
    requires Inv(cfg, s) && s'.procs == s.procs && s.clock <= s'.clock
    requires TableInv(s'.rows, s'.nextID) && RowsInv(cfg, s'.rows, s'.clock) && AnswersInv(s'.rows, s'.answers)
    requires Extends(s.rows, s'.rows)
    ensures Inv(cfg, s')
  {
    hide ProcInv, RowsInv, TableInv, Extends, AnswersInv;
    forall pid | pid in s.procs
      ensures ProcInv(cfg, s'.rows, s'.clock, s.procs[pid])
    {
      ProcStable(cfg, s.rows, s'.rows, s.clock, s'.clock, s.procs[pid]);
    }
  }

  lemma TickKeepsInv(cfg: Config, s: Sys, now: int)
    requires Inv(cfg, s) && s.clock <= now
    ensures Inv(cfg, s.(clock := now))
  {
    hide ProcInv, TableInv, Good;
    TableChange(cfg, s, s.(clock := now));
  }

  lemma AnswerKeepsInv(cfg: Config, s: Sys, answer: Answer)
    requires Inv(cfg, s) && HasKey(s.rows, answer.id, answer.callerService, answer.requestID)
    ensures Inv(cfg, s.(answers := s.answers + [answer]))
  {
    hide ProcInv, RowsInv, TableInv;
  }

  lemma InsertExtends(rows: Rows, n: nat, row: Payment)
    requires n !in rows
    ensures Extends(rows, rows[n := row])
  {
  }

  lemma InsertKeepsRows(cfg: Config, rows: Rows, clock: int, n: nat, row: Payment)
    requires RowsInv(cfg, rows, clock) && Good(cfg, row) && row.createdAt <= clock
    ensures RowsInv(cfg, rows[n := row], clock)
  {
    hide Good;
  }

  lemma InsertKeepsAnswers(rows: Rows, answers: seq<Answer>, n: nat, row: Payment)
    requires n !in rows && AnswersInv(rows, answers)
    ensures AnswersInv(rows[n := row], answers + [Answer(row.callerService, row.requestID, n)])
  {
  }

  lemma InsertKeepsInv(cfg: Config, s: Sys, row: Payment)
    requires Inv(cfg, s) && Good(cfg, row) && row.createdAt <= s.clock && !Rejects(s.rows, row)
    ensures Inv(cfg, WithRow(s, row)) && Extends(s.rows, WithRow(s, row).rows)
  {
    hide ProcInv, RowsInv, TableInv, AnswersInv, Good, Extends, Rejects;
    InsertKeepsTableInv(s.rows, s.nextID, row);
    var stored := row.(id := s.nextID);
    GoodIgnoresId(cfg, row, s.nextID);
    InsertExtends(s.rows, s.nextID, stored);
    InsertKeepsRows(cfg, s.rows, s.clock, s.nextID, stored);
    InsertKeepsAnswers(s.rows, s.answers, s.nextID, stored);
    TableChange(cfg, s, WithRow(s, row));
  }

  lemma GoodIgnoresId(cfg: Config, p: Payment, id: nat)
    requires Good(cfg, p)
    ensures Good(cfg, p.(id := id))
  {
  }

  /** An UPDATE with any copy, however stale, keeps the invariant and stores the copy. */
  lemma OverwriteKeepsInv(cfg: Config, s: Sys, row: Payment)
    requires Inv(cfg, s) && SnapInv(cfg, s.rows, row)
    ensures OverwriteRow(s, row).rows == s.rows[row.id := row]
    ensures Inv(cfg, OverwriteRow(s, row)) && Extends(s.rows, OverwriteRow(s, row).rows)
  {
    hide ProcInv, Good;
    SameProviderNeverCollides(s.rows, s.nextID, row);
    assert Overwrite(s.rows[row.id], row) == row;
    hide TableInv;
    assert AnswersInv(s.rows[row.id := row], s.answers);
    TableChange(cfg, s, OverwriteRow(s, row));
  }

  lemma ContinueKeepsInv(cfg: Config, s: Sys, pid: nat, onward: Onward)
    requires Inv(cfg, s) && OnwardInv(cfg, s.rows, s.clock, onward)
    ensures Inv(cfg, Continue(s, pid, onward))
  {
    hide Inv, ItemsInv;
    var proc := if onward.Resume? then Looping(onward.job, onward.now, onward.rest) else Choosing(ExpireJob, s.clock);
    ProcSet(cfg, s, pid, proc);
  }

  /** Every write stamps the row with its clock reading and sets no earlier due time. */
  predicate Stamps(p: Payment, c: Change, now: int) {
    c.Write? ==>
      && c.row.updatedAt == now && c.row.createdAt == p.createdAt
      && (c.row.nextAt == p.nextAt || (c.row.nextAt.Some? ==> c.row.nextAt.value >= now))
  }

  lemma DispatchStamps(cfg: Config, p: Payment, attempt: Attempt, now: int)
    ensures Stamps(p, DispatchChange(cfg, p, attempt, now), now)
  {
    hide AttemptError;
  }

  lemma ChangeStamps(cfg: Config, p: Payment, cause: Cause, now: int)
    ensures Stamps(p, ChangeOf(cfg, p, cause, now), now)
  {
    hide DispatchChange, ParseEvent, GetPaymentStatus;
    if cause.Dispatch? {
      DispatchStamps(cfg, p, cause.attempt, now);
    }
  }

  lemma ChangeKeepsTimes(cfg: Config, p: Payment, cause: Cause, now: int)
    requires Times(cfg, p) && Selected(cfg, p, cause, now)
    requires cause.Cancel? || cause.Webhook? ==> p.createdAt <= now
    ensures var c := ChangeOf(cfg, p, cause, now); c.Write? ==> Times(cfg, c.row)
  {
    hide ChangeOf;
    ChangeStamps(cfg, p, cause, now);
  }

  /** Whatever a writer computes from a copy, however stale, may be stored. */
  lemma WriterSound(cfg: Config, rows: Rows, origin: Origin)
    requires SnapInv(cfg, rows, origin.snap) && Selected(cfg, origin.snap, origin.cause, origin.now)
    requires origin.cause.Cancel? || origin.cause.Webhook? ==> origin.snap.createdAt <= origin.now
    ensures var c := ChangeOf(cfg, origin.snap, origin.cause, origin.now);
            c.Write? ==> SnapInv(cfg, rows, c.row) && OriginInv(cfg, c.row, origin)
  {
    hide RowInv, ChangeOf, Selected;
    ChangeKeepsRowInv(cfg, origin.snap, origin.cause, origin.now);
    ChangeKeepsTimes(cfg, origin.snap, origin.cause, origin.now);
    WriterStatus(cfg, origin.snap, origin.cause, origin.now);
  }

  lemma WriterStatus(cfg: Config, p: Payment, cause: Cause, now: int)
    requires RowInv(cfg, p) && Selected(cfg, p, cause, now)
    ensures var c := ChangeOf(cfg, p, cause, now);
            c.Write? ==> (!TerminalStatus(c.row.status) <==> CarriesNoStatus(cause) && !TerminalStatus(p.status))
  {
    hide RowInv, DispatchChange, WebhookChange, ReconcileChange, EventStatus;
    match cause
    case Webhook(raw, payload) => WebhookStatus(p, raw, payload, now);
    case Reconcile(reply) => ReconcileKeepsRowInv(cfg, p, reply, now);
    case Dispatch(attempt) =>
      DispatchKeepsRowInv(cfg, p, attempt, now);
      DueIsTerminal(cfg, p, now);
    case Cancel =>
    case Expire =>
  }

  lemma DueIsTerminal(cfg: Config, p: Payment, now: int)
    requires RowInv(cfg, p) && DueForDispatch(p, now)
    ensures TerminalStatus(p.status) && p.delivery == DELIVERY_PENDING
  {
  }

  lemma WebhookStatus(p: Payment, raw: RawEvent, payload: string, now: int)
    ensures var row := WebhookChange(p, ParseEvent(raw), payload, now).row;
            && row.status == (if EventStatus(raw.kind) == 0 then p.status else EventStatus(raw.kind))
            && (EventStatus(raw.kind) != 0 ==> TerminalStatus(row.status))
  {
    hide EventStatus;
    EventStatusRange(raw);
  }

  lemma DecideKeepsInv(cfg: Config, s: Sys, pid: nat, origin: Origin, onward: Onward)
    requires Inv(cfg, s) && SnapInv(cfg, s.rows, origin.snap) && OnwardInv(cfg, s.rows, s.clock, onward)
    requires Selected(cfg, origin.snap, origin.cause, origin.now)
    requires origin.cause.Cancel? || origin.cause.Webhook? ==> origin.now == s.clock
    ensures Inv(cfg, Decide(cfg, s, pid, origin, onward))
  {
    hide Inv, SnapInv, ChangeOf, Selected, OriginInv, OnwardInv, Continue;
    SnapNotFuture(cfg, s, origin.snap);
    WriterSound(cfg, s.rows, origin);
    match ChangeOf(cfg, origin.snap, origin.cause, origin.now)
    case Skip(_) => ContinueKeepsInv(cfg, s, pid, onward);
    case Write(row, _, _) => ProcSet(cfg, s, pid, Writing(row, origin, onward));
  }

  lemma ItemKeepsInv(cfg: Config, s: Sys, pid: nat, job: Job, now: int, items: seq<Payment>, cause: Cause)
    requires Inv(cfg, s) && now <= s.clock && ItemsInv(cfg, s.rows, job, now, items)
    requires items != [] && CauseOfJob(job, cause)
    ensures Inv(cfg, Decide(cfg, s, pid, Origin(items[0], cause, now), Resume(job, now, items[1..])))
  {
    hide Inv, SnapInv, Decide;
    assert ItemsInv(cfg, s.rows, job, now, items[1..]);
    DecideKeepsInv(cfg, s, pid, Origin(items[0], cause, now), Resume(job, now, items[1..]));
  }

  lemma StoredIsSnap(cfg: Config, s: Sys, id: nat)
    requires Inv(cfg, s) && id in s.rows
    ensures SnapInv(cfg, s.rows, s.rows[id])
  {
    hide ProcInv, Good;
  }

  lemma SelectKeepsInv(cfg: Config, s: Sys, pid: nat, job: Job, now: int, ids: seq<nat>)
    requires Inv(cfg, s) && now <= s.clock
    ensures Inv(cfg, SelectItems(cfg, s, pid, job, now, ids))
  {
    hide Inv, SnapInv;
    if IsJobSelection(cfg, s.rows, job, now, ids) {
      var items := seq(|ids|, k requires 0 <= k < |ids| => s.rows[ids[k]]);
      forall k | 0 <= k < |items|
        ensures SnapInv(cfg, s.rows, items[k]) && DueForJob(cfg, items[k], job, now)
      {
        StoredIsSnap(cfg, s, ids[k]);
      }
      ProcSet(cfg, s, pid, Looping(job, now, items));
    }
  }

  lemma SnapNotFuture(cfg: Config, s: Sys, p: Payment)
    requires Inv(cfg, s) && SnapInv(cfg, s.rows, p)
    ensures p.createdAt <= s.clock
  {
    hide ProcInv, Good;
  }

  lemma CallKeepsInv(cfg: Config, s: Sys, pid: nat, op: Serial.Op)
    requires Inv(cfg, s) && op.Create? && Serial.ValidOp(op) && op.now == s.clock && op.fault.write.None?
    ensures Inv(cfg, CallProvider(s, pid, op))
  {
    hide Inv, ValidRequest;
    NewRowInv(cfg, op.req, op.hash, op.callbackURL, op.reply, s.clock);
    var row := Serial.CreatedRow(op);
    hide RowInv;
    assert Good(cfg, row);
    ProcSet(cfg, s, pid, Inserting(row, op));
  }

  lemma ProcHolds(cfg: Config, s: Sys, pid: nat)
    requires Inv(cfg, s) && pid in s.procs
    ensures ProcInv(cfg, s.rows, s.clock, s.procs[pid])
  {
    hide ProcInv, TableInv, RowsInv;
  }

  lemma InsertStep(cfg: Config, s: Sys, pid: nat, row: Payment)
    requires Inv(cfg, s) && Good(cfg, row) && row.createdAt <= s.clock
    ensures Inv(cfg, InsertRow(s, pid, row))
  {
    hide Inv, Good, Rejects, Finish, SetProc;
    ProcSet(cfg, s, pid, Choosing(ExpireJob, s.clock));
    if !Rejects(s.rows, row) {
      InsertKeepsInv(cfg, s, row);
      ProcSet(cfg, WithRow(s, row), pid, Choosing(ExpireJob, s.clock));
    }
  }

  lemma WriteStep(cfg: Config, s: Sys, pid: nat, row: Payment, onward: Onward)
    requires Inv(cfg, s) && SnapInv(cfg, s.rows, row) && OnwardInv(cfg, s.rows, s.clock, onward)
    ensures Inv(cfg, Continue(OverwriteRow(s, row), pid, onward))
  {
    hide Inv, SnapInv, Extends;
    OverwriteKeepsInv(cfg, s, row);
    var s' := OverwriteRow(s, row);
    assert OnwardInv(cfg, s'.rows, s'.clock, onward) by {
      if onward.Resume? {
        ProcStable(cfg, s.rows, s'.rows, s.clock, s'.clock, Looping(onward.job, onward.now, onward.rest));
      }
    }
    ContinueKeepsInv(cfg, s', pid, onward);
  }

  lemma BeginWebhookStep(cfg: Config, s: Sys, pid: nat, raw: RawEvent, payload: string, provider: int, hash: string)
    requires Inv(cfg, s)
    ensures Inv(cfg, BeginWebhook(s, pid, raw, payload, provider, hash))
  {
    hide Inv, SnapInv;
    forall id | id in s.rows
      ensures Inv(cfg, SetProc(s, pid, Receiving(raw, payload, s.rows[id])))
    {
      StoredIsSnap(cfg, s, id);
      ProcSet(cfg, s, pid, Receiving(raw, payload, s.rows[id]));
    }
  }

  lemma BeginCreateStep(cfg: Config, s: Sys, pid: nat, req: CreateRequest)
    requires Inv(cfg, s) && ValidRequest(req)
    ensures Inv(cfg, BeginCreate(s, pid, req))
  {
    hide Inv, ValidRequest;
    var callerService, requestID := TrimSpace(req.callerService), TrimSpace(req.requestID);
    forall id | HasKey(s.rows, id, callerService, requestID)
      ensures Inv(cfg, s.(answers := s.answers + [Answer(callerService, requestID, id)]))
    {
      AnswerKeepsInv(cfg, s, Answer(callerService, requestID, id));
    }
    ProcSet(cfg, s, pid, Planning(req));
  }

  lemma AdvanceKeepsInv(cfg: Config, s: Sys, pid: nat, a: Action)
    requires Inv(cfg, s) && pid in s.procs
    ensures Inv(cfg, Advance(cfg, s, pid, a))
  {
    hide Inv, SnapInv, Good, ItemsInv, CallProvider, Decide, SelectItems, InsertRow, Continue, OverwriteRow,
      CauseOfJob, OnwardInv, OriginInv, CallInv, CarriesNoStatus, ValidRequest, TerminalStatus;
    ProcHolds(cfg, s, pid);
    match s.procs[pid]
    case Planning(req) =>
      if a.CreateCall? { CallKeepsInv(cfg, s, pid, CallOp(s, req, a.hash, a.callbackURL, a.reply)); }
    case Inserting(row, _) => InsertStep(cfg, s, pid, row);
    case Canceling(snap) => HandlerKeepsInv(cfg, s, pid, Origin(snap, Cancel, s.clock));
    case Receiving(raw, payload, snap) => HandlerKeepsInv(cfg, s, pid, Origin(snap, Webhook(raw, payload), s.clock));
    case Choosing(job, now) => if a.JobSelect? { SelectKeepsInv(cfg, s, pid, job, now, a.ids); }
    case Looping(job, now, items) =>
      if a.JobItem? && items != [] && CauseOfJob(job, a.cause) {
        ItemKeepsInv(cfg, s, pid, job, now, items, a.cause);
      }
    case Writing(row, _, onward) =>
      WriteStep(cfg, s, pid, row, onward);
      ContinueKeepsInv(cfg, s, pid, onward);
  }

  lemma HandlerKeepsInv(cfg: Config, s: Sys, pid: nat, origin: Origin)
    requires Inv(cfg, s) && SnapInv(cfg, s.rows, origin.snap)
    requires (origin.cause.Cancel? || origin.cause.Webhook?) && origin.now == s.clock
    ensures Inv(cfg, Decide(cfg, s, pid, origin, Done))
  {
    hide Inv, SnapInv, Decide;
    DecideKeepsInv(cfg, s, pid, origin, Done);
  }

  lemma ApplyKeepsInv(cfg: Config, s: Sys, a: Action)
    requires Inv(cfg, s)
    ensures Inv(cfg, Apply(cfg, s, a))
  {
    hide Inv, SnapInv, ValidRequest, BeginWebhook, BeginCreate, Advance;
    match a
    case Tick(now) => if s.clock <= now { TickKeepsInv(cfg, s, now); }
    case CreateBegin(pid, req) =>
      if pid !in s.procs && ValidRequest(req) { BeginCreateStep(cfg, s, pid, req); }
    case CancelBegin(pid, id) =>
      if id in s.rows {
        StoredIsSnap(cfg, s, id);
        ProcSet(cfg, s, pid, Canceling(s.rows[id]));
      }
    case WebhookBegin(pid, raw, payload, provider, hash) => BeginWebhookStep(cfg, s, pid, raw, payload, provider, hash);
    case JobBegin(pid, job) => ProcSet(cfg, s, pid, Choosing(job, s.clock));
    case Abandon(pid) => ProcSet(cfg, s, pid, Choosing(ExpireJob, s.clock));
    case _ => if a.pid in s.procs { AdvanceKeepsInv(cfg, s, a.pid, a); }
  }

  lemma {:induction false} RunKeepsInv(cfg: Config, s: Sys, acts: seq<Action>)
    requires Inv(cfg, s)
    ensures Inv(cfg, After(cfg, s, acts))
  {
    hide Inv, Apply;
    if acts != [] {
      RunKeepsInv(cfg, s, acts[..|acts| - 1]);
      ApplyKeepsInv(cfg, After(cfg, s, acts[..|acts| - 1]), acts[|acts| - 1]);
    }
  }
}
