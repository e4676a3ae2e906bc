/** What holds in every interleaving of handlers and workers, and what does not. */
module Interleavings {
  import opened Basics
  import opened Entity
  import opened Stripe
  import opened Lifecycle
  import opened Table
  import opened Concurrent
  import Serial

  lemma StartInv(cfg: Config, clock: int)
    ensures Inv(cfg, Start(clock))
  {
  }

  predicate AboutToDispatch(proc: Proc) {
    proc.Looping? && proc.job == DispatchJob && proc.items != []
  }

  /** However stale the copies that handlers and workers write back, every stored row
      satisfies the joint row invariant, and no attempt counter about to be incremented
      can wrap. */
  lemma JointInvariant(cfg: Config, clock: int, acts: seq<Action>)
    ensures var s := After(cfg, Start(clock), acts);
            && TableInv(s.rows, s.nextID)
            && (forall id :: id in s.rows ==> RowInv(cfg, s.rows[id]) && Times(cfg, s.rows[id]))
            && (forall pid :: pid in s.procs && AboutToDispatch(s.procs[pid]) ==>
                  Wrap32(s.procs[pid].items[0].attempts + 1) == s.procs[pid].items[0].attempts + 1)
  {
    hide RowInv, ProcInv, Times, Apply, Wrap32, TableInv, AnswersInv;
    StartInv(cfg, clock);
    RunKeepsInv(cfg, Start(clock), acts);
    var s := After(cfg, Start(clock), acts);
    forall pid | pid in s.procs && AboutToDispatch(s.procs[pid])
      ensures Wrap32(s.procs[pid].items[0].attempts + 1) == s.procs[pid].items[0].attempts + 1
    {
      HeadNeverOverflows(cfg, s, s.procs[pid]);
    }
  }

  lemma HeadNeverOverflows(cfg: Config, s: Sys, proc: Proc)
    requires ProcInv(cfg, s.rows, s.clock, proc) && AboutToDispatch(proc)
    ensures Wrap32(proc.items[0].attempts + 1) == proc.items[0].attempts + 1
  {
    hide SameIdentity, Times;
    AttemptsNeverOverflow(cfg, proc.items[0], proc.now);
  }

  /** The actor is about to overwrite a row. */
  predicate Overwrites(s: Sys, a: Action) {
    a.WriteRow? && a.pid in s.procs && s.procs[a.pid].Writing?
  }

  /** The actor is about to insert a row that no unique index rejects. */
  predicate Inserts(s: Sys, a: Action) {
    a.CreateInsert? && a.pid in s.procs && s.procs[a.pid].Inserting? && !Rejects(s.rows, s.procs[a.pid].row)
  }

  lemma AdvanceRows(cfg: Config, s: Sys, pid: nat, a: Action)
    requires pid in s.procs && !a.Tick? && a.pid == pid
    ensures var s' := Advance(cfg, s, pid, a);
            && s'.rows == (if Overwrites(s, a) then OverwriteRow(s, s.procs[pid].row).rows
                           else if Inserts(s, a) then WithRow(s, s.procs[pid].row).rows
                           else s.rows)
            && s'.nextID == if Inserts(s, a) then s.nextID + 1 else s.nextID
  {
    hide NewRow, ChangeOf, Overwrite, Rejects, IsJobSelection;
  }

  lemma ApplyTouches(cfg: Config, s: Sys, a: Action)
    ensures var s' := Apply(cfg, s, a);
            && s'.rows == (if Overwrites(s, a) then OverwriteRow(s, s.procs[a.pid].row).rows
                           else if Inserts(s, a) then WithRow(s, s.procs[a.pid].row).rows
                           else s.rows)
            && s'.nextID == if Inserts(s, a) then s.nextID + 1 else s.nextID
  {
    hide Advance, OverwriteRow, WithRow, Rejects, ValidRequest, TrimSpace, HasKey, HasHash;
    if !a.Tick? && a.pid in s.procs {
      AdvanceRows(cfg, s, a.pid, a);
    }
  }

  /** The only steps that touch the table: an overwrite stores the writer's copy, and an
      insert adds a row under a new id. */
  lemma ApplyRows(cfg: Config, s: Sys, a: Action)
    requires Inv(cfg, s)
    ensures var rows := Apply(cfg, s, a).rows;
            if Overwrites(s, a) then
              var row := s.procs[a.pid].row; rows == s.rows[row.id := row] && SnapInv(cfg, s.rows, row)
            else if Inserts(s, a) then
              s.nextID !in s.rows && rows == s.rows[s.nextID := s.procs[a.pid].row.(id := s.nextID)]
            else rows == s.rows
    ensures Apply(cfg, s, a).nextID == if Inserts(s, a) then s.nextID + 1 else s.nextID
  {
    hide Inv, SnapInv, Apply, OverwriteRow, OriginInv, OnwardInv, Rejects;
    ApplyTouches(cfg, s, a);
    if Overwrites(s, a) {
      ProcHolds(cfg, s, a.pid);
      OverwriteKeepsInv(cfg, s, s.procs[a.pid].row);
    } else if Inserts(s, a) {
      NextIsFree(cfg, s);
    }
  }

  lemma NextIsFree(cfg: Config, s: Sys)
    requires Inv(cfg, s)
    ensures s.nextID !in s.rows
  {
    hide ProcInv, RowsInv;
  }

  lemma ApplyExtends(cfg: Config, s: Sys, a: Action)
    requires Inv(cfg, s)
    ensures Extends(s.rows, Apply(cfg, s, a).rows)
  {
    hide Inv, Good, Apply, Rejects;
    ApplyRows(cfg, s, a);
  }

  /** In every interleaving rows stay, with their key, hash, provider, amount, callback URL
      and creation time. */
  lemma {:induction false} IdentityFrozen(cfg: Config, s: Sys, acts: seq<Action>)
    requires Inv(cfg, s)
    ensures Extends(s.rows, After(cfg, s, acts).rows)
  {
    hide Inv, Apply;
    if acts != [] {
      var pre := After(cfg, s, acts[..|acts| - 1]);
      IdentityFrozen(cfg, s, acts[..|acts| - 1]);
      RunKeepsInv(cfg, s, acts[..|acts| - 1]);
      ApplyExtends(cfg, pre, acts[|acts| - 1]);
    }
  }

  /** The hash in a webhook URL resolves to one and the same payment for ever. */
  lemma HashResolvesForever(cfg: Config, s: Sys, acts: seq<Action>, provider: int, hash: string, id: nat, found: nat)
    requires Inv(cfg, s) && HasHash(s.rows, id, provider, hash)
    ensures HasHash(After(cfg, s, acts).rows, found, provider, hash) <==> found == id
  {
    hide ProcInv, RowsInv, AnswersInv;
    IdentityFrozen(cfg, s, acts);
    RunKeepsInv(cfg, s, acts);
    var rows := After(cfg, s, acts).rows;
    if HasHash(rows, found, provider, hash) {
      assert SameHash(rows[found], rows[id]);
    }
  }

  // ----- Terminal statuses -----

  /** A webhook that maps to no status writes back a row computed from a copy that was
      read while the row was not terminal. */
  predicate Reopens(s: Sys, a: Action, id: nat) {
    && Overwrites(s, a)
    && s.procs[a.pid].row.id == id
    && CarriesNoStatus(s.procs[a.pid].origin.cause)
    && !TerminalStatus(s.procs[a.pid].origin.snap.status)
  }

  /** Exactly which steps lose a terminal status. */
  lemma TerminalLostExactly(cfg: Config, s: Sys, a: Action, id: nat)
    requires Inv(cfg, s) && id in s.rows && TerminalStatus(s.rows[id].status)
    ensures id in Apply(cfg, s, a).rows
    ensures !TerminalStatus(Apply(cfg, s, a).rows[id].status) <==> Reopens(s, a, id)
  {
    hide Inv, SnapInv, Apply, Rejects, CarriesNoStatus, OnwardInv, Good, SameIdentity, Selected, ChangeOf;
    ApplyRows(cfg, s, a);
    if Overwrites(s, a) {
      ProcHolds(cfg, s, a.pid);
    }
  }

  lemma PrefixOfPrefix(acts: seq<Action>, k: nat)
    requires k < |acts|
    ensures acts[..|acts| - 1][..k] == acts[..k]
  {
  }

  predicate TerminalRow(rows: Rows, id: nat) {
    id in rows && TerminalStatus(rows[id].status)
  }

  /** The row is terminal at every point of the run. */
  ghost predicate AlwaysTerminal(cfg: Config, s: Sys, acts: seq<Action>, id: nat) {
    && TerminalRow(After(cfg, s, acts).rows, id)
    && (acts != [] ==> AlwaysTerminal(cfg, s, acts[..|acts| - 1], id))
  }

  ghost predicate NeverReopened(cfg: Config, s: Sys, acts: seq<Action>, id: nat) {
    acts != [] ==>
      var pre := acts[..|acts| - 1];
      NeverReopened(cfg, s, pre, id) && !Reopens(After(cfg, s, pre), acts[|acts| - 1], id)
  }

  /** Over a run, a terminal row stays terminal throughout iff no step reopens it. */
  lemma {:induction false} TerminalExactly(cfg: Config, s: Sys, acts: seq<Action>, id: nat)
    requires Inv(cfg, s) && TerminalRow(s.rows, id)
    ensures AlwaysTerminal(cfg, s, acts, id) <==> NeverReopened(cfg, s, acts, id)
  {
    hide Inv, Apply, Reopens, TerminalStatus;
    if acts != [] {
      var pre := acts[..|acts| - 1];
      TerminalExactly(cfg, s, pre, id);
      if AlwaysTerminal(cfg, s, pre, id) {
        RunKeepsInv(cfg, s, pre);
        TerminalLostExactly(cfg, After(cfg, s, pre), acts[|acts| - 1], id);
      }
    }
  }

  /** No step of the run writes for a webhook that maps to no status. */
  ghost predicate NoStatuslessWrite(cfg: Config, s: Sys, acts: seq<Action>) {
    acts != [] ==>
      var pre, a := acts[..|acts| - 1], acts[|acts| - 1];
      var before := After(cfg, s, pre);
      && NoStatuslessWrite(cfg, s, pre)
      && !(Overwrites(before, a) && CarriesNoStatus(before.procs[a.pid].origin.cause))
  }

  /** Then a terminal row stays terminal for ever, in every interleaving. */
  lemma {:induction false} TerminalForever(cfg: Config, s: Sys, acts: seq<Action>, id: nat)
    requires Inv(cfg, s) && id in s.rows && TerminalStatus(s.rows[id].status)
    requires NoStatuslessWrite(cfg, s, acts)
    ensures id in After(cfg, s, acts).rows && TerminalStatus(After(cfg, s, acts).rows[id].status)
  {
    hide Inv, Apply, CarriesNoStatus, TerminalStatus;
    if acts != [] {
      var pre := acts[..|acts| - 1];
      TerminalForever(cfg, s, pre, id);
      RunKeepsInv(cfg, s, pre);
      TerminalLostExactly(cfg, After(cfg, s, pre), acts[|acts| - 1], id);
    }
  }

  /** The event and the copy with which a webhook handler works, once it has read a row. */
  function WebhookRead(proc: Proc): Option<(RawEvent, Payment)> {
    if proc.Receiving? then Some((proc.raw, proc.snap))
    else if proc.Writing? && proc.origin.cause.Webhook? then Some((proc.origin.cause.raw, proc.origin.snap))
    else None
  }

  /** The j-th action was this handler's read, and the copy is the row as it was then. */
  ghost predicate ReadAt(cfg: Config, clock: int, acts: seq<Action>, j: int, pid: nat, read: (RawEvent, Payment)) {
    && 0 <= j < |acts| && acts[j].WebhookBegin? && acts[j].pid == pid && acts[j].raw == read.0
    && var rows := After(cfg, Start(clock), acts[..j]).rows;
       HasHash(rows, read.1.id, acts[j].provider, acts[j].hash) && rows[read.1.id] == read.1
  }

  lemma AdvanceReads(cfg: Config, s: Sys, pid: nat, a: Action, other: nat)
    requires pid in s.procs && other in Advance(cfg, s, pid, a).procs
    ensures var read := WebhookRead(Advance(cfg, s, pid, a).procs[other]);
            read.Some? ==> other in s.procs && WebhookRead(s.procs[other]) == read
  {
    hide NewRow, ChangeOf, Overwrite, Rejects, IsJobSelection;
  }

  /** A handler's event and copy come from its own read and do not change afterwards. */
  lemma ApplyReads(cfg: Config, s: Sys, a: Action, pid: nat)
    requires TableInv(s.rows, s.nextID) && pid in Apply(cfg, s, a).procs
    ensures var read := WebhookRead(Apply(cfg, s, a).procs[pid]);
            read.Some? ==>
              || (pid in s.procs && WebhookRead(s.procs[pid]) == read)
              || (a.WebhookBegin? && a.pid == pid && a.raw == read.value.0
                    && HasHash(s.rows, read.value.1.id, a.provider, a.hash) && s.rows[read.value.1.id] == read.value.1)
  {
    hide Advance, ValidRequest, TrimSpace;
    match a
    case Tick(_) =>
    case CreateBegin(_, _) =>
    case CancelBegin(_, _) =>
    case WebhookBegin(_, _, _, _, _) =>
    case JobBegin(_, _) =>
    case Abandon(_) =>
    case _ => if a.pid in s.procs { AdvanceReads(cfg, s, a.pid, a, pid); }
  }

  lemma {:induction false} ReadsHappened(cfg: Config, clock: int, acts: seq<Action>, pid: nat) returns (j: int)
    requires pid in After(cfg, Start(clock), acts).procs
    requires WebhookRead(After(cfg, Start(clock), acts).procs[pid]).Some?
    ensures ReadAt(cfg, clock, acts, j, pid, WebhookRead(After(cfg, Start(clock), acts).procs[pid]).value)
  {
    hide Apply, HasHash, Inv, WebhookRead;
    var pre, a := acts[..|acts| - 1], acts[|acts| - 1];
    var s := After(cfg, Start(clock), pre);
    StartInv(cfg, clock);
    RunKeepsInv(cfg, Start(clock), pre);
    InvTable(cfg, s);
    ApplyReads(cfg, s, a, pid);
    if pid in s.procs && WebhookRead(s.procs[pid]) == WebhookRead(Apply(cfg, s, a).procs[pid]) {
      j := ReadsHappened(cfg, clock, pre, pid);
      PrefixOfPrefix(acts, j);
    } else {
      j := |pre|;
    }
  }

  lemma InvTable(cfg: Config, s: Sys)
    requires Inv(cfg, s)
    ensures TableInv(s.rows, s.nextID)
  {
    hide ProcInv, RowsInv, TableInv, AnswersInv;
  }

  /** Whenever a run loses a terminal status, it does so by the write of a handler whose
      webhook maps to no status, and which earlier in the run read that very row, by the
      hash of its URL, while the row was not terminal. */
  lemma LostByStaleRead(cfg: Config, clock: int, acts: seq<Action>, a: Action, id: nat) returns (j: int)
    requires var rows := After(cfg, Start(clock), acts).rows; id in rows && TerminalStatus(rows[id].status)
    requires var rows := Apply(cfg, After(cfg, Start(clock), acts), a).rows;
             id in rows && !TerminalStatus(rows[id].status)
    ensures a.WriteRow? && 0 <= j < |acts|
    ensures acts[j].WebhookBegin? && acts[j].pid == a.pid && EventStatus(acts[j].raw.kind) == 0
    ensures var rows := After(cfg, Start(clock), acts[..j]).rows;
            HasHash(rows, id, acts[j].provider, acts[j].hash) && !TerminalStatus(rows[id].status)
  {
    hide Inv, Apply, After, HasHash, EventStatus;
    var s := After(cfg, Start(clock), acts);
    StartInv(cfg, clock);
    RunKeepsInv(cfg, Start(clock), acts);
    TerminalLostExactly(cfg, s, a, id);
    j := ReadsHappened(cfg, clock, acts, a.pid);
    CopyKeepsId(cfg, s, a.pid);
  }

  lemma CopyKeepsId(cfg: Config, s: Sys, pid: nat)
    requires Inv(cfg, s) && pid in s.procs && s.procs[pid].Writing?
    ensures s.procs[pid].origin.snap.id == s.procs[pid].row.id
  {
    hide Inv, SnapInv, OnwardInv, Good, ChangeOf, Selected;
    ProcHolds(cfg, s, pid);
  }

  // ----- Idempotent creation -----

  lemma OneRowPerKey(rows: Rows, nextID: nat, callerService: string, requestID: string, i: nat, j: nat)
    requires TableInv(rows, nextID)
    requires HasKey(rows, i, callerService, requestID) && HasKey(rows, j, callerService, requestID)
    ensures i == j
  {
    assert SameKey(rows[i], rows[j]);
  }

  /** All create calls that succeed for one key, racing or not, return the same id, and
      the table holds that one row for the key. */
  lemma CreatesAgree(cfg: Config, clock: int, acts: seq<Action>, i: nat, j: nat)
    requires var s := After(cfg, Start(clock), acts);
             && i < |s.answers| && j < |s.answers|
             && s.answers[i].callerService == s.answers[j].callerService
             && s.answers[i].requestID == s.answers[j].requestID
    ensures var s := After(cfg, Start(clock), acts);
            && s.answers[i].id == s.answers[j].id
            && forall id: nat ::
                 HasKey(s.rows, id, s.answers[i].callerService, s.answers[i].requestID) <==> id == s.answers[i].id
  {
    hide ProcInv, RowsInv, TableInv, HasKey;
    StartInv(cfg, clock);
    RunKeepsInv(cfg, Start(clock), acts);
    var s := After(cfg, Start(clock), acts);
    var key := s.answers[i];
    forall id: nat | HasKey(s.rows, id, key.callerService, key.requestID)
      ensures id == key.id
    {
      OneRowPerKey(s.rows, s.nextID, key.callerService, key.requestID, id, key.id);
    }
  }

  /** Some row already has the key or the callback hash of a row to be inserted. */
  ghost predicate Taken(rows: Rows, row: Payment) {
    || (exists id: nat :: HasKey(rows, id, row.callerService, row.requestID))
    || (exists id: nat :: HasHash(rows, id, row.provider, row.callbackHash))
  }

  lemma TakenIsRejected(rows: Rows, row: Payment)
    ensures Taken(rows, row) <==> Rejects(rows, row)
  {
    forall id: nat
      ensures id in rows ==> (HasKey(rows, id, row.callerService, row.requestID) <==> SameKey(rows[id], row))
      ensures id in rows ==> (HasHash(rows, id, row.provider, row.callbackHash) <==> SameHash(rows[id], row))
    {
    }
  }

  /** The racing insert: a loser changes neither the table nor the answers; a winner adds
      the one row for the key and answers with its new id. */
  lemma InsertOutcome(cfg: Config, s: Sys, pid: nat)
    requires Inv(cfg, s) && pid in s.procs && s.procs[pid].Inserting?
    ensures var row, s' := s.procs[pid].row, Apply(cfg, s, CreateInsert(pid));
            && (Taken(s.rows, row) ==> s' == Finish(s, pid))
            && (!Taken(s.rows, row) ==>
                  && s.nextID !in s.rows
                  && s'.rows == s.rows[s.nextID := row.(id := s.nextID)]
                  && s'.answers == s.answers + [Answer(row.callerService, row.requestID, s.nextID)])
  {
    hide Inv, Rejects, Taken;
    TakenIsRejected(s.rows, s.procs[pid].row);
    NextIsFree(cfg, s);
  }

  /** Once a key has its row, every later create call for it returns that row's id. */
  lemma RetryFindsWinner(cfg: Config, s: Sys, acts: seq<Action>, winner: nat, pid: nat, req: CreateRequest)
    requires Inv(cfg, s) && HasKey(s.rows, winner, TrimSpace(req.callerService), TrimSpace(req.requestID))
    requires ValidRequest(req) && pid !in After(cfg, s, acts).procs
    ensures var later := After(cfg, s, acts);
            Apply(cfg, later, CreateBegin(pid, req))
              == later.(answers :=
                   later.answers + [Answer(TrimSpace(req.callerService), TrimSpace(req.requestID), winner)])
  {
    hide ProcInv, RowsInv, TableInv, AnswersInv, ValidRequest, TrimSpace;
    IdentityFrozen(cfg, s, acts);
    RunKeepsInv(cfg, s, acts);
    var later := After(cfg, s, acts);
    var callerService, requestID := TrimSpace(req.callerService), TrimSpace(req.requestID);
    assert HasKey(later.rows, winner, callerService, requestID);
    forall id: nat | HasKey(later.rows, id, callerService, requestID)
      ensures id == winner
    {
      OneRowPerKey(later.rows, later.nextID, callerService, requestID, id, winner);
    }
  }

  // ----- Terminal statuses are not final in every interleaving -----

  lemma AfterAppend(cfg: Config, s: Sys, acts: seq<Action>, a: Action)
    ensures After(cfg, s, acts + [a]) == Apply(cfg, After(cfg, s, acts), a)
  {
    hide Apply;
    assert (acts + [a])[..|acts|] == acts;
  }

  lemma CreateBegins(cfg: Config, req: CreateRequest)
    requires ValidRequest(req)
    ensures Apply(cfg, Start(0), CreateBegin(0, req)) == SetProc(Start(0), 0, Planning(req))
  {
    hide ValidRequest, TrimSpace;
  }

  lemma CreateCalls(cfg: Config, s: Sys, req: CreateRequest, hash: string, url: string, reply: CreateReply)
    requires 0 in s.procs && s.procs[0] == Planning(req)
    ensures Apply(cfg, s, CreateCall(0, hash, url, reply)) == CallProvider(s, 0, CallOp(s, req, hash, url, reply))
  {
    hide CallProvider, CallOp;
  }

  lemma CreateInserts(cfg: Config, s: Sys, row: Payment, op: Serial.Op)
    requires 0 in s.procs && s.procs[0] == Inserting(row, op) && s.rows == map[]
    ensures Apply(cfg, s, CreateInsert(0)) == Finish(WithRow(s, row), 0)
  {
    hide Rejects, WithRow;
    EmptyAccepts(row);
  }

  lemma CreateSteps(cfg: Config, req: CreateRequest) returns (acts: seq<Action>, row: Payment)
    requires ValidRequest(req)
    ensures row.status == PENDING && row.id == 1 && row.provider == STRIPE && row.callbackHash == "h"
    ensures var s := After(cfg, Start(0), acts); s.rows == map[1 := row] && s.procs == map[] && s.clock == 0
    ensures RowInv(cfg, row) && forall a :: a in acts ==> !a.WriteRow?
  {
    hide ValidRequest, NewRow, Created, RowInv, Apply, After;
    var reply := CreateReply("", "", "");
    NewRowInv(cfg, req, "h", "url", reply, 0);
    NewRowHash(req, "h", Created(req.paymentMethod, "url", reply), 0);
    var op := CallOp(Start(0), req, "h", "url", reply);
    var built := Serial.CreatedRow(op);
    row := built.(id := 1);
    RowInvIgnoresId(cfg, built, 1);
    acts := [CreateBegin(0, req), CreateCall(0, "h", "url", reply), CreateInsert(0)];
    var s1 := SetProc(Start(0), 0, Planning(req));
    CreateBegins(cfg, req);
    CreateCalls(cfg, s1, req, "h", "url", reply);
    var s2 := SetProc(s1, 0, Inserting(built, op));
    CreateInserts(cfg, s2, built, op);
    AfterThree(cfg, Start(0), acts[0], acts[1], acts[2]);
  }

  lemma AfterThree(cfg: Config, s: Sys, a1: Action, a2: Action, a3: Action)
    ensures After(cfg, s, [a1, a2, a3]) == Apply(cfg, Apply(cfg, Apply(cfg, s, a1), a2), a3)
  {
    hide Apply;
    assert [a1, a2, a3][..2] == [a1, a2] && [a1, a2][..1] == [a1] && [a1][..0] == [];
    assert After(cfg, s, [a1]) == Apply(cfg, s, a1);
    assert After(cfg, s, [a1, a2]) == Apply(cfg, Apply(cfg, s, a1), a2);
  }

  lemma RowInvIgnoresId(cfg: Config, p: Payment, id: nat)
    requires RowInv(cfg, p)
    ensures RowInv(cfg, p.(id := id))
  {
  }

  lemma EmptyAccepts(row: Payment)
    ensures !Rejects(map[], row)
  {
  }

  lemma NewRowHash(req: CreateRequest, hash: string, out: CreateOutput, now: int)
    ensures NewRow(req, hash, out, now).callbackHash == hash
    ensures NewRow(req, hash, out, now).provider == ProviderCode(req.provider)
  {
    hide TrimSpace, NonBlank, ToUpper, ToLower;
  }

  lemma BeginReads(cfg: Config, s: Sys, row: Payment, pid: nat, raw: RawEvent)
    requires s.rows == map[row.id := row] && pid !in s.procs
    ensures Apply(cfg, s, WebhookBegin(pid, raw, "", row.provider, row.callbackHash))
         == SetProc(s, pid, Receiving(raw, "", row))
  {
    assert HasHash(s.rows, row.id, row.provider, row.callbackHash);
  }

  lemma WebhookDecides(cfg: Config, s: Sys, pid: nat)
    requires pid in s.procs && s.procs[pid].Receiving?
    ensures var proc := s.procs[pid];
            var row := WebhookChange(proc.snap, ParseEvent(proc.raw), proc.payload, s.clock).row;
            Apply(cfg, s, WebhookDecide(pid))
              == SetProc(s, pid, Writing(row, Origin(proc.snap, Webhook(proc.raw, proc.payload), s.clock), Done))
  {
    hide WebhookChange, ParseEvent;
  }

  /** A handler's write: the row is stored and the handler is done. */
  lemma HandlerWrites(cfg: Config, s: Sys, pid: nat)
    requires pid in s.procs && s.procs[pid].Writing? && s.procs[pid].onward.Done? && s.procs[pid].row.id in s.rows
    ensures var row := s.procs[pid].row;
            Apply(cfg, s, WriteRow(pid))
              == s.(rows := s.rows[row.id := Overwrite(s.rows[row.id], row)], procs := s.procs - {pid})
  {
    hide Overwrite;
  }

  lemma DecideThenWrite(cfg: Config, s: Sys, pid: nat)
    requires pid in s.procs && s.procs[pid].Receiving? && s.procs[pid].snap.id in s.rows
    ensures var proc := s.procs[pid];
            var s' := Apply(cfg, Apply(cfg, s, WebhookDecide(pid)), WriteRow(pid));
            && s'.rows.Keys == s.rows.Keys
            && s'.rows[proc.snap.id].status
                 == (if EventStatus(proc.raw.kind) == 0 then proc.snap.status else EventStatus(proc.raw.kind))
            && s'.procs == s.procs - {pid}
  {
    hide EventStatus, WebhookChange, ParseEvent, Apply;
    var proc := s.procs[pid];
    WebhookStatus(proc.snap, proc.raw, proc.payload, s.clock);
    WebhookKeepsId(proc.snap, ParseEvent(proc.raw), proc.payload, s.clock);
    WebhookDecides(cfg, s, pid);
    HandlerWrites(cfg, Apply(cfg, s, WebhookDecide(pid)), pid);
    assert SetProc(s, pid, proc).procs == s.procs;
  }

  lemma WebhookKeepsId(snap: Payment, event: CallbackEvent, payload: string, now: int)
    ensures WebhookChange(snap, event, payload, now).row.id == snap.id
  {
  }

  /** Some interleaving loses a terminal status: a webhook of an unmapped kind reads the
      pending row, a second webhook marks it PAID, and the first then writes PENDING back. */
  lemma StaleWebhookReopens(cfg: Config, req: CreateRequest) returns (acts: seq<Action>, more: seq<Action>)
    requires ValidRequest(req)
    ensures var s, s' := After(cfg, Start(0), acts), After(cfg, Start(0), acts + more);
            && 1 in s.rows && s.rows[1].status == PAID
            && 1 in s'.rows && s'.rows[1].status == PENDING
  {
    hide ValidRequest, Apply, EventStatus;
    var create, row := CreateSteps(cfg, req);
    var paid, other := RawEvent("", "invoice.paid", "", ""), RawEvent("", "charge.updated", "", "");
    KnownKinds();
    var a1 := WebhookBegin(1, other, "", STRIPE, "h");
    var a2 := WebhookBegin(2, paid, "", STRIPE, "h");
    var s0 := After(cfg, Start(0), create);
    BeginReads(cfg, s0, row, 1, other);
    var s1 := Apply(cfg, s0, a1);
    BeginReads(cfg, s1, row, 2, paid);
    var s2 := Apply(cfg, s1, a2);
    DecideThenWrite(cfg, s2, 2);
    var s3 := Apply(cfg, Apply(cfg, s2, WebhookDecide(2)), WriteRow(2));
    DecideThenWrite(cfg, s3, 1);
    AfterAppend(cfg, Start(0), create, a1);
    AfterAppend(cfg, Start(0), create + [a1], a2);
    AfterAppend(cfg, Start(0), create + [a1] + [a2], WebhookDecide(2));
    AfterAppend(cfg, Start(0), create + [a1] + [a2] + [WebhookDecide(2)], WriteRow(2));
    acts := create + [a1] + [a2] + [WebhookDecide(2)] + [WriteRow(2)];
    AfterAppend(cfg, Start(0), acts, WebhookDecide(1));
    AfterAppend(cfg, Start(0), acts + [WebhookDecide(1)], WriteRow(1));
    more := [WebhookDecide(1), WriteRow(1)];
    assert acts + more == acts + [WebhookDecide(1)] + [WriteRow(1)];
  }

  lemma KnownKinds()
    ensures EventStatus("invoice.paid") == PAID && EventStatus("charge.updated") == 0
  {
  }
}
