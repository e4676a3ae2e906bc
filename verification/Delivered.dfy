/** What a delivered callback has told its receiver: in every interleaving, a payment whose
    delivery succeeded has the status that its endpoint acknowledged. */
module Delivered {
  import opened Basics
  import opened Entity
  import opened Stripe
  import opened Lifecycle
  import opened Table
  import opened Concurrent
  import opened Interleavings
  import opened Budget
  import Serial

  /** A payment and the status of it that was posted and acknowledged. */
  type Ack = (nat, int)

  /** A dispatcher posts the status of its copy, and the endpoint acknowledges it. */
  predicate Acknowledges(s: Sys, a: Action) {
    && a.JobItem? && a.cause.Dispatch? && Accepted(a.cause.attempt)
    && a.pid in s.procs && s.procs[a.pid].Looping? && s.procs[a.pid].job == DispatchJob && s.procs[a.pid].items != []
  }

  function AckOf(s: Sys, a: Action): set<Ack> {
    if Acknowledges(s, a) then
      var copy := s.procs[a.pid].items[0]; {(copy.id, copy.status)}
    else {}
  }

  ghost function Acks(cfg: Config, s: Sys, acts: seq<Action>): set<Ack> {
    if acts == [] then {}
    else
      var pre := acts[..|acts| - 1];
      Acks(cfg, s, pre) + AckOf(After(cfg, s, pre), acts[|acts| - 1])
  }

  /** If delivery succeeded, the status was acknowledged. */
  predicate Told(p: Payment, acks: set<Ack>) {
    p.delivery == DELIVERY_SUCCESS ==> (p.id, p.status) in acks
  }

  predicate AllTold(items: seq<Payment>, acks: set<Ack>) {
    forall k :: 0 <= k < |items| ==> Told(items[k], acks)
  }

  predicate ProcTold(proc: Proc, acks: set<Ack>) {
    match proc
    case Planning(_) => true
    case Inserting(row, _) => row.delivery == DELIVERY_NONE
    case Canceling(snap) => Told(snap, acks)
    case Receiving(_, _, snap) => Told(snap, acks)
    case Choosing(_, _) => true
    case Looping(_, _, items) => AllTold(items, acks)
    case Writing(row, _, onward) => Told(row, acks) && (onward.Resume? ==> AllTold(onward.rest, acks))
  }

  ghost predicate SysTold(s: Sys, acks: set<Ack>) {
    && (forall id :: id in s.rows ==> Told(s.rows[id], acks))
    && (forall pid :: pid in s.procs ==> ProcTold(s.procs[pid], acks))
  }

  lemma ToldMore(s: Sys, acks: set<Ack>, more: set<Ack>)
    requires SysTold(s, acks)
    ensures SysTold(s, acks + more)
  {
  }

  lemma StatusKept(cfg: Config, p: Payment, cause: Cause, now: int)
    requires RowInv(cfg, p) && Selected(cfg, p, cause, now)
    requires ChangeOf(cfg, p, cause, now).Write? && !cause.Dispatch?
    ensures var c := ChangeOf(cfg, p, cause, now); !Arms(p, cause, c) ==> c.row.status == p.status
  {
    hide DispatchChange, ReconcileChange, WebhookChange, EventStatus, DeliveryInv, OptionalsInv, IsBlank;
    match cause
    case Webhook(raw, payload) => WebhookStatus(p, raw, payload, now);
    case Reconcile(reply) => ReconcileKeepsRowInv(cfg, p, reply, now);
    case Cancel =>
    case Expire =>
  }

  /** Every writer keeps status and delivery together, or arms delivery again, or has just
      been acknowledged. */
  lemma ChangeTold(cfg: Config, p: Payment, cause: Cause, now: int, acks: set<Ack>)
    requires RowInv(cfg, p) && Selected(cfg, p, cause, now) && ChangeOf(cfg, p, cause, now).Write?
    requires Told(p, acks)
    requires cause.Dispatch? && Accepted(cause.attempt) ==> (p.id, p.status) in acks
    ensures Told(ChangeOf(cfg, p, cause, now).row, acks)
  {
    hide DispatchChange, ReconcileChange, WebhookChange, CancelChange, ExpireChange, DeliveryInv, OptionalsInv, IsBlank,
      Arms;
    if cause.Dispatch? {
      DispatchOutcome(cfg, p, cause.attempt, now);
      DueIsTerminal(cfg, p, now);
      DispatchKeepsRowInv(cfg, p, cause.attempt, now);
    } else {
      ArmsOrKeeps(cfg, p, cause, now);
      StatusKept(cfg, p, cause, now);
    }
  }

  lemma SetTold(s: Sys, pid: nat, proc: Proc, acks: set<Ack>)
    requires SysTold(s, acks) && ProcTold(proc, acks)
    ensures SysTold(SetProc(s, pid, proc), acks) && SysTold(Finish(s, pid), acks)
  {
    hide ProcTold, Told;
  }

  lemma ContinueTold(s: Sys, pid: nat, onward: Onward, acks: set<Ack>)
    requires SysTold(s, acks) && (onward.Resume? ==> AllTold(onward.rest, acks))
    ensures SysTold(Continue(s, pid, onward), acks)
  {
    hide SysTold, AllTold;
    var proc := if onward.Resume? then Looping(onward.job, onward.now, onward.rest) else Choosing(ExpireJob, s.clock);
    SetTold(s, pid, proc, acks);
  }

  lemma DecideTold(cfg: Config, s: Sys, pid: nat, origin: Origin, onward: Onward, acks: set<Ack>)
    requires SysTold(s, acks) && Told(origin.snap, acks) && (onward.Resume? ==> AllTold(onward.rest, acks))
    requires RowInv(cfg, origin.snap) && Selected(cfg, origin.snap, origin.cause, origin.now)
    requires origin.cause.Dispatch? && Accepted(origin.cause.attempt) ==> (origin.snap.id, origin.snap.status) in acks
    ensures SysTold(Decide(cfg, s, pid, origin, onward), acks)
  {
    hide SysTold, AllTold, Told, RowInv, ChangeOf, Selected, Continue;
    match ChangeOf(cfg, origin.snap, origin.cause, origin.now)
    case Skip(_) => ContinueTold(s, pid, onward, acks);
    case Write(row, _, _) =>
      ChangeTold(cfg, origin.snap, origin.cause, origin.now, acks);
      SetTold(s, pid, Writing(row, origin, onward), acks);
  }

  lemma ItemTold(cfg: Config, s: Sys, pid: nat, job: Job, now: int, items: seq<Payment>, cause: Cause, acks: set<Ack>)
    requires SysTold(s, acks) && AllTold(items, acks) && ItemsInv(cfg, s.rows, job, now, items)
    requires items != [] && CauseOfJob(job, cause)
    requires cause.Dispatch? && Accepted(cause.attempt) ==> (items[0].id, items[0].status) in acks
    ensures SysTold(Decide(cfg, s, pid, Origin(items[0], cause, now), Resume(job, now, items[1..])), acks)
  {
    hide SysTold, Told, RowInv, Decide, SameIdentity, Times, DueForDispatch, DueForExpiry, DueForReconcile;
    DecideTold(cfg, s, pid, Origin(items[0], cause, now), Resume(job, now, items[1..]), acks);
  }

  lemma SelectTold(cfg: Config, s: Sys, pid: nat, job: Job, now: int, ids: seq<nat>, acks: set<Ack>)
    requires SysTold(s, acks)
    ensures SysTold(SelectItems(cfg, s, pid, job, now, ids), acks)
  {
    hide Told;
    if IsJobSelection(cfg, s.rows, job, now, ids) {
      SetTold(s, pid, Looping(job, now, seq(|ids|, k requires 0 <= k < |ids| => s.rows[ids[k]])), acks);
    }
  }

  lemma CallTold(cfg: Config, s: Sys, pid: nat, op: Serial.Op, acks: set<Ack>)
    requires SysTold(s, acks) && op.Create? && Serial.ValidOp(op)
    ensures SysTold(CallProvider(s, pid, op), acks)
  {
    hide SysTold, ValidRequest, NewRow;
    NewRowInv(cfg, op.req, op.hash, op.callbackURL, op.reply, op.now);
    SetTold(s, pid, Inserting(Serial.CreatedRow(op), op), acks);
  }

  lemma InsertTold(s: Sys, pid: nat, row: Payment, acks: set<Ack>)
    requires SysTold(s, acks) && row.delivery == DELIVERY_NONE
    ensures SysTold(InsertRow(s, pid, row), acks)
  {
    hide ProcTold, Rejects;
  }

  lemma WriteTold(s: Sys, row: Payment, acks: set<Ack>)
    requires SysTold(s, acks) && Told(row, acks)
    requires row.id in s.rows ==> s.rows[row.id].id == row.id
    ensures SysTold(OverwriteRow(s, row), acks)
  {
    hide ProcTold;
  }

  /** The facts about copies in flight that the steps need. */
  lemma CopiesGood(cfg: Config, s: Sys, pid: nat)
    requires Inv(cfg, s) && pid in s.procs
    ensures var proc := s.procs[pid];
            && (proc.Planning? ==> ValidRequest(proc.req))
            && (proc.Canceling? || proc.Receiving? ==> RowInv(cfg, proc.snap))
            && (proc.Looping? ==> ItemsInv(cfg, s.rows, proc.job, proc.now, proc.items))
            && (proc.Writing? && proc.row.id in s.rows ==> s.rows[proc.row.id].id == proc.row.id)
  {
    hide Inv, RowInv, OriginInv, OnwardInv, CallInv, ItemsInv, ValidRequest, Times;
    ProcHolds(cfg, s, pid);
  }

  lemma AdvanceTold(cfg: Config, s: Sys, pid: nat, a: Action, acks: set<Ack>)
    requires Inv(cfg, s) && pid in s.procs && !a.Tick? && a.pid == pid && SysTold(s, acks)
    requires AckOf(s, a) <= acks
    ensures SysTold(Advance(cfg, s, pid, a), acks)
  {
    hide Inv, SysTold, AllTold, Told, RowInv, ItemsInv, CallProvider, Decide, SelectItems, InsertRow, Continue,
      OverwriteRow, CauseOfJob, ValidRequest;
    CopiesGood(cfg, s, pid);
    ProcIsTold(s, pid, acks);
    match s.procs[pid]
    case Planning(req) =>
      if a.CreateCall? { CallTold(cfg, s, pid, CallOp(s, req, a.hash, a.callbackURL, a.reply), acks); }
    case Inserting(row, _) => InsertTold(s, pid, row, acks);
    case Canceling(snap) => DecideTold(cfg, s, pid, Origin(snap, Cancel, s.clock), Done, acks);
    case Receiving(raw, payload, snap) =>
      DecideTold(cfg, s, pid, Origin(snap, Webhook(raw, payload), s.clock), Done, acks);
    case Choosing(job, now) => if a.JobSelect? { SelectTold(cfg, s, pid, job, now, a.ids, acks); }
    case Looping(job, now, items) =>
      if a.JobItem? && items != [] && CauseOfJob(job, a.cause) {
        DispatchIsAcknowledged(s, a, acks);
        ItemTold(cfg, s, pid, job, now, items, a.cause, acks);
      }
    case Writing(row, _, onward) =>
      WriteTold(s, row, acks);
      ContinueTold(OverwriteRow(s, row), pid, onward, acks);
      ContinueTold(s, pid, onward, acks);
  }

  lemma ProcIsTold(s: Sys, pid: nat, acks: set<Ack>)
    requires SysTold(s, acks) && pid in s.procs
    ensures ProcTold(s.procs[pid], acks)
  {
  }

  lemma DispatchIsAcknowledged(s: Sys, a: Action, acks: set<Ack>)
    requires a.JobItem? && a.pid in s.procs && s.procs[a.pid].Looping? && s.procs[a.pid].items != []
    requires CauseOfJob(s.procs[a.pid].job, a.cause) && AckOf(s, a) <= acks
    ensures var copy := s.procs[a.pid].items[0];
            a.cause.Dispatch? && Accepted(a.cause.attempt) ==> (copy.id, copy.status) in acks
  {
  }

  lemma ApplyTold(cfg: Config, s: Sys, a: Action, acks: set<Ack>)
    requires Inv(cfg, s) && SysTold(s, acks) && AckOf(s, a) <= acks
    ensures SysTold(Apply(cfg, s, a), acks)
  {
    hide Inv, Told, ValidRequest, TrimSpace, HasKey, Advance, Acknowledges;
    match a
    case Tick(_) =>
    case CreateBegin(pid, req) => SetTold(s, pid, Planning(req), acks);
    case CancelBegin(pid, id) => if id in s.rows { SetTold(s, pid, Canceling(s.rows[id]), acks); }
    case WebhookBegin(pid, raw, payload, _, _) =>
      forall id | id in s.rows
        ensures SysTold(SetProc(s, pid, Receiving(raw, payload, s.rows[id])), acks)
      {
        SetTold(s, pid, Receiving(raw, payload, s.rows[id]), acks);
      }
    case JobBegin(pid, job) => SetTold(s, pid, Choosing(job, s.clock), acks);
    case Abandon(pid) => SetTold(s, pid, Choosing(ExpireJob, s.clock), acks);
    case _ => if a.pid in s.procs { AdvanceTold(cfg, s, a.pid, a, acks); }
  }

  lemma {:induction false} RunTold(cfg: Config, clock: int, acts: seq<Action>)
    ensures SysTold(After(cfg, Start(clock), acts), Acks(cfg, Start(clock), acts))
  {
    hide Inv, Apply, SysTold, AckOf;
    if acts == [] {
      NothingTold(clock);
    } else {
      var pre, a := acts[..|acts| - 1], acts[|acts| - 1];
      var s, acks := After(cfg, Start(clock), pre), Acks(cfg, Start(clock), pre);
      RunTold(cfg, clock, pre);
      StartInv(cfg, clock);
      RunKeepsInv(cfg, Start(clock), pre);
      ToldMore(s, acks, AckOf(s, a));
      ApplyTold(cfg, s, a, acks + AckOf(s, a));
    }
  }

  lemma NothingTold(clock: int)
    ensures SysTold(Start(clock), {})
  {
  }

  /** Every acknowledgement goes back to a post of a dispatcher's copy. */
  lemma {:induction false} AckHappened(cfg: Config, clock: int, acts: seq<Action>, ack: Ack) returns (j: nat)
    requires ack in Acks(cfg, Start(clock), acts)
    ensures j < |acts|
    ensures var s := After(cfg, Start(clock), acts[..j]);
            && Acknowledges(s, acts[j])
            && s.procs[acts[j].pid].items[0].id == ack.0 && s.procs[acts[j].pid].items[0].status == ack.1
  {
    hide Apply, Acknowledges;
    var pre := acts[..|acts| - 1];
    if ack in Acks(cfg, Start(clock), pre) {
      j := AckHappened(cfg, clock, pre, ack);
      PrefixOfPrefix(acts, j);
    } else {
      j := |pre|;
    }
  }

  /** However handlers and workers interleave, a stored payment whose delivery succeeded has
      a status that was posted to its endpoint and acknowledged, by a dispatcher whose copy
      of that payment had this very status. */
  lemma DeliveredIsAcknowledged(cfg: Config, clock: int, acts: seq<Action>, id: nat) returns (j: nat)
    requires var rows := After(cfg, Start(clock), acts).rows; id in rows && rows[id].delivery == DELIVERY_SUCCESS
    ensures j < |acts|
    ensures var s := After(cfg, Start(clock), acts[..j]);
            && Acknowledges(s, acts[j])
            && s.procs[acts[j].pid].items[0].id == id
            && s.procs[acts[j].pid].items[0].status == After(cfg, Start(clock), acts).rows[id].status
  {
    hide After, Acks, Acknowledges, ProcTold;
    RunTold(cfg, clock, acts);
    var row := After(cfg, Start(clock), acts).rows[id];
    RowHasId(cfg, clock, acts, id);
    j := AckHappened(cfg, clock, acts, (id, row.status));
  }

  lemma RowHasId(cfg: Config, clock: int, acts: seq<Action>, id: nat)
    requires id in After(cfg, Start(clock), acts).rows
    ensures After(cfg, Start(clock), acts).rows[id].id == id
  {
    hide After, ProcInv, RowsInv, AnswersInv;
    StartInv(cfg, clock);
    RunKeepsInv(cfg, Start(clock), acts);
  }
}
