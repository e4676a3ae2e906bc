/** Handlers and worker batches that are left alone do in the interleaving model what they
    do in serial runs: no step of the code is missing from it. */
module Embedding {
  import opened Basics
  import opened Entity
  import opened Stripe
  import opened Lifecycle
  import opened Table
  import opened Concurrent
  import opened Interleavings
  import opened Serializability
  import Serial
  import Batches

  const FINE := Serial.Fault(None, false)

  lemma TableIsDb(cfg: Config, s: Sys, db: Serial.Db)
    requires Inv(cfg, s) && SameTable(s, db)
    ensures Serial.DbInv(cfg, db)
  {
    hide ProcInv, RowInv, AnswersInv, Times;
  }

  function WriteAction(pid: nat, fault: Serial.Fault): Action {
    if fault.write.None? then WriteRow(pid) else WriteFails(pid)
  }

  lemma WriteLands(cfg: Config, s: Sys, pid: nat, row: Payment, origin: Origin, onward: Onward, fault: Serial.Fault)
    requires row.id in s.rows && Overwrite(s.rows[row.id], row) == row
    ensures var s' := Apply(cfg, SetProc(s, pid, Writing(row, origin, onward)), WriteAction(pid, fault));
            && s'.rows == (if fault.write.None? then s.rows[row.id := row] else s.rows) && s'.nextID == s.nextID
            && s'.clock == s.clock && s'.procs == Continue(s, pid, onward).procs
  {
    hide Overwrite;
    assert s.procs[pid := Writing(row, origin, onward)] - {pid} == s.procs - {pid};
    if onward.Resume? {
      var proc := Looping(onward.job, onward.now, onward.rest);
      assert s.procs[pid := Writing(row, origin, onward)][pid := proc] == s.procs[pid := proc];
    }
  }

  lemma NothingToWrite(cfg: Config, s: Sys, pid: nat, onward: Onward, fault: Serial.Fault)
    ensures Apply(cfg, Continue(s, pid, onward), WriteAction(pid, fault)) == Continue(s, pid, onward)
  {
  }

  /** Deciding on a copy that is the stored row, and then writing, is a serial step. */
  lemma DecideThenWriteIsStep(
      cfg: Config, s: Sys, db: Serial.Db, pid: nat, id: nat, cause: Cause, now: int, onward: Onward,
      fault: Serial.Fault)
    requires Inv(cfg, s) && SameTable(s, db) && id in s.rows && Selected(cfg, s.rows[id], cause, now)
    ensures var s' := Apply(
              cfg, Decide(cfg, s, pid, Origin(s.rows[id], cause, now), onward), WriteAction(pid, fault));
            && SameTable(s', Serial.Do(cfg, db, Serial.Touch(id, cause, now, fault)))
            && s'.clock == s.clock && s'.procs == Continue(s, pid, onward).procs
  {
    hide Inv, Apply, Selected, ChangeOf, Continue, RowInv, Serial.Do, Serial.DbInv;
    TableIsDb(cfg, s, db);
    Serial.TouchEffect(cfg, db, Serial.Touch(id, cause, now, fault));
    ContinueKeepsTable(s, pid, onward);
    match ChangeOf(cfg, s.rows[id], cause, now)
    case Skip(_) =>
      NothingToWrite(cfg, s, pid, onward, fault);
    case Write(row, _, _) =>
      Serial.OverwriteIsExact(s.rows[id], row);
      WriteLands(cfg, s, pid, row, Origin(s.rows[id], cause, now), onward, fault);
      DoKeepsNext(cfg, db, Serial.Touch(id, cause, now, fault));
  }

  lemma ContinueKeepsTable(s: Sys, pid: nat, onward: Onward)
    ensures var s' := Continue(s, pid, onward); s'.rows == s.rows && s'.nextID == s.nextID && s'.clock == s.clock
  {
  }

  lemma DoKeepsNext(cfg: Config, db: Serial.Db, op: Serial.Op)
    requires op.Touch?
    ensures Serial.Do(cfg, db, op).nextID == db.nextID
  {
    hide ChangeOf, Selected;
  }

  // ----- Handlers -----

  lemma CancelEmbeds(cfg: Config, s: Sys, db: Serial.Db, pid: nat, id: nat, fault: Serial.Fault)
    requires Inv(cfg, s) && SameTable(s, db) && pid !in s.procs && id in s.rows
    ensures var s' := After(cfg, s, [CancelBegin(pid, id), CancelDecide(pid), WriteAction(pid, fault)]);
            && SameTable(s', Serial.Do(cfg, db, Serial.Touch(id, Cancel, s.clock, fault)))
            && s'.procs == s.procs && s'.clock == s.clock
  {
    hide Inv, Decide, Serial.Do, SameTable, WriteAction;
    AfterThree(cfg, s, CancelBegin(pid, id), CancelDecide(pid), WriteAction(pid, fault));
    var s1 := SetProc(s, pid, Canceling(s.rows[id]));
    StoredIsSnap(cfg, s, id);
    SnapAllowed(cfg, s, pid, Canceling(s.rows[id]));
    SameTableAs(s, s1, db);
    DecideThenWriteIsStep(cfg, s1, db, pid, id, Cancel, s.clock, Done, fault);
    assert Continue(s1, pid, Done).procs == s.procs;
  }

  lemma SnapAllowed(cfg: Config, s: Sys, pid: nat, proc: Proc)
    requires Inv(cfg, s) && ProcInv(cfg, s.rows, s.clock, proc)
    ensures Inv(cfg, SetProc(s, pid, proc))
  {
    hide Inv, ProcInv;
    ProcSet(cfg, s, pid, proc);
  }

  lemma SameTableAs(s: Sys, s': Sys, db: Serial.Db)
    requires SameTable(s, db) && s'.rows == s.rows && s'.nextID == s.nextID
    ensures SameTable(s', db)
  {
  }

  lemma WebhookEmbeds(
      cfg: Config, s: Sys, db: Serial.Db, pid: nat, id: nat, raw: RawEvent, payload: string, provider: int,
      hash: string, fault: Serial.Fault)
    requires Inv(cfg, s) && SameTable(s, db) && pid !in s.procs && HasHash(s.rows, id, provider, hash)
    ensures var begin := WebhookBegin(pid, raw, payload, provider, hash);
            var s' := After(cfg, s, [begin, WebhookDecide(pid), WriteAction(pid, fault)]);
            && SameTable(s', Serial.Do(cfg, db, Serial.Touch(id, Webhook(raw, payload), s.clock, fault)))
            && s'.procs == s.procs && s'.clock == s.clock
  {
    hide Inv, Decide, Serial.Do, SameTable, WriteAction;
    AfterThree(cfg, s, WebhookBegin(pid, raw, payload, provider, hash), WebhookDecide(pid), WriteAction(pid, fault));
    var s1 := SetProc(s, pid, Receiving(raw, payload, s.rows[id]));
    HashIsUnique(cfg, s, id, provider, hash);
    assert Apply(cfg, s, WebhookBegin(pid, raw, payload, provider, hash)) == s1;
    StoredIsSnap(cfg, s, id);
    SnapAllowed(cfg, s, pid, Receiving(raw, payload, s.rows[id]));
    SameTableAs(s, s1, db);
    DecideThenWriteIsStep(cfg, s1, db, pid, id, Webhook(raw, payload), s.clock, Done, fault);
    assert Continue(s1, pid, Done).procs == s.procs;
  }

  lemma HashIsUnique(cfg: Config, s: Sys, id: nat, provider: int, hash: string)
    requires Inv(cfg, s) && HasHash(s.rows, id, provider, hash)
    ensures forall found: nat :: HasHash(s.rows, found, provider, hash) <==> found == id
  {
    hide ProcInv, RowsInv, AnswersInv;
    forall found: nat | HasHash(s.rows, found, provider, hash)
      ensures found == id
    {
      assert SameHash(s.rows[found], s.rows[id]);
    }
  }

  lemma CreateEmbeds(
      cfg: Config, s: Sys, db: Serial.Db, pid: nat, req: CreateRequest, hash: string, url: string, reply: CreateReply)
    requires Inv(cfg, s) && SameTable(s, db) && pid !in s.procs && ValidRequest(req)
    requires forall id: nat :: !HasKey(s.rows, id, TrimSpace(req.callerService), TrimSpace(req.requestID))
    ensures var s' := After(cfg, s, [CreateBegin(pid, req), CreateCall(pid, hash, url, reply), CreateInsert(pid)]);
            && SameTable(s', Serial.Do(cfg, db, CallOp(s, req, hash, url, reply)))
            && s'.procs == s.procs && s'.clock == s.clock
  {
    hide Inv, Apply, ValidRequest, Serial.Do, Serial.CreatedRow;
    AfterThree(cfg, s, CreateBegin(pid, req), CreateCall(pid, hash, url, reply), CreateInsert(pid));
    var op := CallOp(s, req, hash, url, reply);
    PlanBegins(cfg, s, pid, req);
    PlanCalls(cfg, SetProc(s, pid, Planning(req)), pid, req, hash, url, reply);
    assert s.procs[pid := Planning(req)][pid := Inserting(Serial.CreatedRow(op), op)]
        == s.procs[pid := Inserting(Serial.CreatedRow(op), op)];
    PlanInserts(cfg, s, db, pid, op);
  }

  lemma PlanBegins(cfg: Config, s: Sys, pid: nat, req: CreateRequest)
    requires pid !in s.procs && ValidRequest(req)
    requires forall id: nat :: !HasKey(s.rows, id, TrimSpace(req.callerService), TrimSpace(req.requestID))
    ensures Apply(cfg, s, CreateBegin(pid, req)) == SetProc(s, pid, Planning(req))
  {
    hide ValidRequest, HasKey, TrimSpace;
  }

  lemma PlanCalls(cfg: Config, s: Sys, pid: nat, req: CreateRequest, hash: string, url: string, reply: CreateReply)
    requires pid in s.procs && s.procs[pid] == Planning(req)
    ensures var op := CallOp(s, req, hash, url, reply);
            Apply(cfg, s, CreateCall(pid, hash, url, reply)) == SetProc(s, pid, Inserting(Serial.CreatedRow(op), op))
  {
    hide Serial.CreatedRow;
  }

  lemma PlanInserts(cfg: Config, s: Sys, db: Serial.Db, pid: nat, op: Serial.Op)
    requires SameTable(s, db) && pid !in s.procs && op.Create? && op.fault.write.None?
    ensures var s' := Apply(cfg, SetProc(s, pid, Inserting(Serial.CreatedRow(op), op)), CreateInsert(pid));
            SameTable(s', Serial.Do(cfg, db, op)) && s'.procs == s.procs && s'.clock == s.clock
  {
    hide Rejects, Serial.CreatedRow;
    assert s.procs[pid := Inserting(Serial.CreatedRow(op), op)] - {pid} == s.procs;
  }

  // ----- Batches -----

  /** A worker works through its list: it decides on each item, and its write lands or fails. */
  function ItemActions(pid: nat, b: Batches.Batch, ids: seq<nat>): seq<Action> {
    if ids == [] then []
    else
      var id := ids[|ids| - 1];
      ItemActions(pid, b, ids[..|ids| - 1]) + [JobItem(pid, b.cause(id)), WriteAction(pid, b.fault(id))]
  }

  function Copies(rows: Rows, ids: seq<nat>): seq<Payment>
    requires forall k :: 0 <= k < |ids| ==> ids[k] in rows
  {
    seq(|ids|, k requires 0 <= k < |ids| => rows[ids[k]])
  }

  lemma AfterTwoMore(cfg: Config, s: Sys, acts: seq<Action>, a1: Action, a2: Action)
    ensures After(cfg, s, acts + [a1, a2]) == Apply(cfg, Apply(cfg, After(cfg, s, acts), a1), a2)
  {
    hide Apply, After;
    AfterAppend(cfg, s, acts, a1);
    AfterAppend(cfg, s, acts + [a1], a2);
    assert acts + [a1, a2] == acts + [a1] + [a2];
  }

  lemma ItemBegins(cfg: Config, s: Sys, pid: nat, job: Job, now: int, items: seq<Payment>, cause: Cause)
    requires pid in s.procs && s.procs[pid] == Looping(job, now, items) && items != [] && CauseOfJob(job, cause)
    ensures Apply(cfg, s, JobItem(pid, cause))
         == Decide(cfg, s, pid, Origin(items[0], cause, now), Resume(job, now, items[1..]))
  {
    hide Decide, CauseOfJob;
  }

  predicate Fitting(cfg: Config, rows: Rows, job: Job, b: Batches.Batch, ids: seq<nat>) {
    && Batches.Distinct(ids)
    && forall k :: 0 <= k < |ids| ==>
         && ids[k] in rows && CauseOfJob(job, b.cause(ids[k])) && Selected(cfg, rows[ids[k]], b.cause(ids[k]), b.now)
  }

  /** The i-th item of the list is still the stored row when its turn comes. */
  lemma ItemUndisturbed(cfg: Config, db: Serial.Db, job: Job, b: Batches.Batch, ids: seq<nat>, i: nat)
    requires Serial.DbInv(cfg, db) && Fitting(cfg, db.rows, job, b, ids) && i < |ids|
    ensures var before := Serial.Run(cfg, db, Batches.OpsFor(b, ids[..i]));
            && ids[i] in before.rows && before.rows[ids[i]] == db.rows[ids[i]]
            && Serial.Run(cfg, db, Batches.OpsFor(b, ids[..i + 1]))
                 == Serial.Do(cfg, before, Serial.Touch(ids[i], b.cause(ids[i]), b.now, b.fault(ids[i])))
  {
    hide Serial.DbInv, Selected, CauseOfJob, Batches.RowAfter, Batches.EventsFor, Serial.Do, Serial.Run;
    Batches.BatchIsAtOnce(cfg, db, ids[..i], b);
    assert ids[..i + 1][..i] == ids[..i];
    Serial.RunAppend(cfg, db, Batches.OpsFor(b, ids[..i]), Batches.OpFor(b, ids[i]));
  }

  lemma {:induction false} ItemsEmbed(
      cfg: Config, s: Sys, db: Serial.Db, pid: nat, job: Job, b: Batches.Batch, ids: seq<nat>, n: nat)
    requires Inv(cfg, s) && SameTable(s, db) && Fitting(cfg, s.rows, job, b, ids) && n <= |ids|
    requires pid in s.procs && s.procs[pid] == Looping(job, b.now, Copies(s.rows, ids))
    ensures var s' := After(cfg, s, ItemActions(pid, b, ids[..n]));
            && SameTable(s', Serial.Run(cfg, db, Batches.OpsFor(b, ids[..n])))
            && s'.clock == s.clock && s'.procs == s.procs[pid := Looping(job, b.now, Copies(s.rows, ids)[n..])]
  {
    hide Inv, Apply, After, Decide, CauseOfJob, Selected, WriteAction, Serial.Do, Serial.Run, Serial.DbInv,
      Batches.Distinct, Batches.OpsFor;
    var items := Copies(s.rows, ids);
    if n == 0 {
      NothingDone(cfg, s, db, pid, b);
      assert ids[..0] == [] && items[0..] == items && s.procs[pid := s.procs[pid]] == s.procs;
    } else {
      var i, pre := n - 1, ItemActions(pid, b, ids[..n - 1]);
      ItemsEmbed(cfg, s, db, pid, job, b, ids, i);
      RunKeepsInv(cfg, s, pre);
      TableIsDb(cfg, s, db);
      ItemUndisturbed(cfg, db, job, b, ids, i);
      var before, mid := Serial.Run(cfg, db, Batches.OpsFor(b, ids[..i])), After(cfg, s, pre);
      assert items[i..][0] == mid.rows[ids[i]] && items[i..][1..] == items[n..];
      ItemBegins(cfg, mid, pid, job, b.now, items[i..], b.cause(ids[i]));
      DecideThenWriteIsStep(
        cfg, mid, before, pid, ids[i], b.cause(ids[i]), b.now, Resume(job, b.now, items[n..]), b.fault(ids[i]));
      assert ids[..n][..i] == ids[..i] && ids[..n][i] == ids[i];
      AfterTwoMore(cfg, s, pre, JobItem(pid, b.cause(ids[i])), WriteAction(pid, b.fault(ids[i])));
    }
  }

  lemma NothingDone(cfg: Config, s: Sys, db: Serial.Db, pid: nat, b: Batches.Batch)
    ensures After(cfg, s, ItemActions(pid, b, [])) == s && Serial.Run(cfg, db, Batches.OpsFor(b, [])) == db
  {
  }

  lemma SelectionFits(cfg: Config, rows: Rows, job: Job, b: Batches.Batch, ids: seq<nat>)
    requires IsJobSelection(cfg, rows, job, b.now, ids) && forall id :: CauseOfJob(job, b.cause(id))
    ensures Fitting(cfg, rows, job, b, ids)
  {
  }

  lemma WorkerStarts(cfg: Config, s: Sys, pid: nat, job: Job, ids: seq<nat>)
    requires pid !in s.procs && IsJobSelection(cfg, s.rows, job, s.clock, ids)
    requires forall k :: 0 <= k < |ids| ==> ids[k] in s.rows
    ensures Apply(cfg, Apply(cfg, s, JobBegin(pid, job)), JobSelect(pid, ids))
         == SetProc(s, pid, Looping(job, s.clock, Copies(s.rows, ids)))
  {
    hide Apply, IsJobSelection;
    WorkerChooses(cfg, s, pid, job);
    WorkerSelects(cfg, SetProc(s, pid, Choosing(job, s.clock)), pid, job, ids);
    assert s.procs[pid := Choosing(job, s.clock)][pid := Looping(job, s.clock, Copies(s.rows, ids))]
        == s.procs[pid := Looping(job, s.clock, Copies(s.rows, ids))];
  }

  lemma WorkerChooses(cfg: Config, s: Sys, pid: nat, job: Job)
    requires pid !in s.procs
    ensures Apply(cfg, s, JobBegin(pid, job)) == SetProc(s, pid, Choosing(job, s.clock))
  {
  }

  lemma WorkerSelects(cfg: Config, s: Sys, pid: nat, job: Job, ids: seq<nat>)
    requires pid in s.procs && s.procs[pid] == Choosing(job, s.clock) && IsJobSelection(cfg, s.rows, job, s.clock, ids)
    requires forall k :: 0 <= k < |ids| ==> ids[k] in s.rows
    ensures Apply(cfg, s, JobSelect(pid, ids)) == SetProc(s, pid, Looping(job, s.clock, Copies(s.rows, ids)))
  {
    hide IsJobSelection;
    assert forall items :: |items| == |ids| && (forall k :: 0 <= k < |ids| ==> items[k] == s.rows[ids[k]]) ==>
        items == Copies(s.rows, ids);
  }

  /** A worker that is left alone runs its batch as in serial runs, whatever the answers and
      the faults. */
  lemma BatchEmbeds(cfg: Config, s: Sys, db: Serial.Db, pid: nat, job: Job, b: Batches.Batch, ids: seq<nat>)
    requires Inv(cfg, s) && SameTable(s, db) && pid !in s.procs && b.now == s.clock
    requires IsJobSelection(cfg, s.rows, job, b.now, ids) && forall id :: CauseOfJob(job, b.cause(id))
    ensures var started := Apply(cfg, Apply(cfg, s, JobBegin(pid, job)), JobSelect(pid, ids));
            var s' := After(cfg, started, ItemActions(pid, b, ids));
            && SameTable(s', Serial.Run(cfg, db, Batches.OpsFor(b, ids)))
            && Apply(cfg, s', Abandon(pid)).procs == s.procs
  {
    hide Inv, IsJobSelection, CauseOfJob, Serial.Run, ItemActions, SelectItems;
    SelectionFits(cfg, s.rows, job, b, ids);
    WorkerStarts(cfg, s, pid, job, ids);
    var started := SetProc(s, pid, Looping(job, s.clock, Copies(s.rows, ids)));
    ApplyKeepsInv(cfg, s, JobBegin(pid, job));
    ApplyKeepsInv(cfg, Apply(cfg, s, JobBegin(pid, job)), JobSelect(pid, ids));
    ItemsEmbed(cfg, started, db, pid, job, b, ids, |ids|);
    assert ids[..|ids|] == ids;
  }

  /** Each of the three workers can do so with any selection of its query. */
  lemma ReconcileEmbeds(cfg: Config, s: Sys, db: Serial.Db, pid: nat, b: Batches.Batch, ids: seq<nat>)
    requires Inv(cfg, s) && SameTable(s, db) && pid !in s.procs && b.now == s.clock
    requires var due := Batches.ReconcileDue(b.now - cfg.reconcileStaleAfter);
             Batches.IsSelection(s.rows, due, Batches.ByUpdate(), cfg.BatchSize(), ids)
    requires forall id :: b.cause(id).Reconcile?
    ensures var started := Apply(cfg, Apply(cfg, s, JobBegin(pid, ReconcileJob)), JobSelect(pid, ids));
            SameTable(After(cfg, started, ItemActions(pid, b, ids)), Serial.Run(cfg, db, Batches.OpsFor(b, ids)))
  {
    hide Inv, Apply, After, Serial.Run, ItemActions, Batches.IsSelection;
    BatchEmbeds(cfg, s, db, pid, ReconcileJob, b, ids);
  }

  lemma DispatchEmbeds(cfg: Config, s: Sys, db: Serial.Db, pid: nat, b: Batches.Batch, ids: seq<nat>)
    requires Inv(cfg, s) && SameTable(s, db) && pid !in s.procs && b.now == s.clock
    requires Batches.IsSelection(s.rows, Batches.DispatchDue(b.now), Batches.ByNextAt(), cfg.BatchSize(), ids)
    requires forall id :: b.cause(id).Dispatch?
    ensures var started := Apply(cfg, Apply(cfg, s, JobBegin(pid, DispatchJob)), JobSelect(pid, ids));
            SameTable(After(cfg, started, ItemActions(pid, b, ids)), Serial.Run(cfg, db, Batches.OpsFor(b, ids)))
  {
    hide Inv, Apply, After, Serial.Run, ItemActions, Batches.IsSelection;
    BatchEmbeds(cfg, s, db, pid, DispatchJob, b, ids);
  }

  lemma ExpiryEmbeds(cfg: Config, s: Sys, db: Serial.Db, pid: nat, b: Batches.Batch, ids: seq<nat>)
    requires Inv(cfg, s) && SameTable(s, db) && pid !in s.procs && b.now == s.clock
    requires var due := Batches.ExpiryDue(b.now - cfg.pendingTimeout);
             Batches.IsSelection(s.rows, due, Batches.ByCreation(), cfg.BatchSize(), ids)
    requires forall id :: b.cause(id).Expire?
    ensures var started := Apply(cfg, Apply(cfg, s, JobBegin(pid, ExpireJob)), JobSelect(pid, ids));
            SameTable(After(cfg, started, ItemActions(pid, b, ids)), Serial.Run(cfg, db, Batches.OpsFor(b, ids)))
  {
    hide Inv, Apply, After, Serial.Run, ItemActions, Batches.IsSelection;
    BatchEmbeds(cfg, s, db, pid, ExpireJob, b, ids);
  }

  // ----- Time -----

  /** The latest of a clock reading and the ticks. */
  function Latest(clock: int, acts: seq<Action>): int {
    if acts == [] then clock
    else
      var before, a := Latest(clock, acts[..|acts| - 1]), acts[|acts| - 1];
      if a.Tick? && before < a.now then a.now else before
  }

  lemma AdvanceKeepsClock(cfg: Config, s: Sys, pid: nat, a: Action)
    requires pid in s.procs
    ensures Advance(cfg, s, pid, a).clock == s.clock
  {
    hide NewRow, ChangeOf, Overwrite, Rejects, IsJobSelection;
  }

  lemma ApplyClock(cfg: Config, s: Sys, a: Action)
    ensures Apply(cfg, s, a).clock == if a.Tick? && s.clock < a.now then a.now else s.clock
  {
    hide Advance, ValidRequest, HasKey, HasHash, TrimSpace;
    if !a.Tick? && a.pid in s.procs {
      AdvanceKeepsClock(cfg, s, a.pid, a);
    }
  }

  /** The clock runs as it likes, but never backwards. */
  lemma {:induction false} ClockExactly(cfg: Config, s: Sys, acts: seq<Action>)
    ensures After(cfg, s, acts).clock == Latest(s.clock, acts)
  {
    hide Apply;
    if acts != [] {
      var pre := acts[..|acts| - 1];
      ClockExactly(cfg, s, pre);
      ApplyClock(cfg, After(cfg, s, pre), acts[|acts| - 1]);
    }
  }
}
