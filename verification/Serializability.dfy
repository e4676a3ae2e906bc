/** When an interleaving is as good as a serial run: if every writer still finds the row
    it read. */
module Serializability {
  import opened Basics
  import opened Entity
  import opened Lifecycle
  import opened Table
  import opened Concurrent
  import opened Interleavings
  import Serial
  import Budget

  /** No write of the run finds a row other than the copy that its writer read. */
  ghost predicate Undisturbed(cfg: Config, s: Sys, acts: seq<Action>) {
    acts != [] ==>
      var pre, a := acts[..|acts| - 1], acts[|acts| - 1];
      Undisturbed(cfg, s, pre) && !Stale(After(cfg, s, pre), a)
  }

  /** The writer is about to overwrite a row that is not what it read. */
  predicate Stale(s: Sys, a: Action) {
    Overwrites(s, a) && (var proc := s.procs[a.pid]; proc.row.id in s.rows ==> s.rows[proc.row.id] != proc.origin.snap)
  }

  ghost predicate SameTable(s: Sys, db: Serial.Db) {
    db.rows == s.rows && db.nextID == s.nextID
  }

  /** The serial step that a write amounts to. */
  function WriteOp(proc: Proc): Serial.Op
    requires proc.Writing?
  {
    Serial.Touch(proc.row.id, proc.origin.cause, proc.origin.now, Serial.Fault(None, false))
  }

  lemma WriteIsSerial(cfg: Config, db: Serial.Db, proc: Proc)
    requires proc.Writing? && OriginInv(cfg, proc.row, proc.origin)
    requires proc.row.id in db.rows && db.rows[proc.row.id] == proc.origin.snap
    ensures var after := Serial.Do(cfg, db, WriteOp(proc));
            after.rows == db.rows[proc.row.id := proc.row] && after.nextID == db.nextID
  {
    hide ChangeOf, Selected, Good, CarriesNoStatus;
    Serial.OverwriteIsExact(proc.origin.snap, proc.row);
  }

  lemma InsertIsSerial(cfg: Config, db: Serial.Db, row: Payment, op: Serial.Op)
    requires CallInv(row, op) && !Rejects(db.rows, row)
    ensures var after := Serial.Do(cfg, db, op);
            after.rows == db.rows[db.nextID := row.(id := db.nextID)] && after.nextID == db.nextID + 1
  {
    hide NewRow, Rejects, ValidRequest;
  }

  /** The facts about an actor in flight that the serial step needs. */
  lemma ActorFacts(cfg: Config, s: Sys, pid: nat)
    requires Inv(cfg, s) && pid in s.procs
    ensures s.procs[pid].Writing? ==>
              OriginInv(cfg, s.procs[pid].row, s.procs[pid].origin) && s.procs[pid].row.id in s.rows
    ensures s.procs[pid].Inserting? ==> CallInv(s.procs[pid].row, s.procs[pid].call)
  {
    hide Inv, OriginInv, CallInv, OnwardInv, Good, SameIdentity;
    ProcHolds(cfg, s, pid);
  }

  /** The serial step that an action commits, if it writes the table. */
  function Committed(s: Sys, a: Action): Option<Serial.Op> {
    if Overwrites(s, a) then Some(WriteOp(s.procs[a.pid]))
    else if Inserts(s, a) then Some(s.procs[a.pid].call)
    else None
  }

  /** The serial steps of a run: its writes and inserts in the order in which they commit. */
  ghost function Commits(cfg: Config, s: Sys, acts: seq<Action>): seq<Serial.Op> {
    if acts == [] then []
    else
      var pre := acts[..|acts| - 1];
      var op := Committed(After(cfg, s, pre), acts[|acts| - 1]);
      if op.Some? then Commits(cfg, s, pre) + [op.value] else Commits(cfg, s, pre)
  }

  /** One step of the system does to the table what the serial step it commits does. */
  lemma StepIsSerial(cfg: Config, s: Sys, db: Serial.Db, a: Action)
    requires Inv(cfg, s) && SameTable(s, db) && !Stale(s, a)
    ensures var op := Committed(s, a);
            && (op.None? ==> SameTable(Apply(cfg, s, a), db))
            && (op.Some? ==> Serial.ValidOp(op.value) && SameTable(Apply(cfg, s, a), Serial.Do(cfg, db, op.value)))
  {
    hide Inv, Apply, Serial.Do, SnapInv, OriginInv, CallInv, Rejects;
    ApplyRows(cfg, s, a);
    if Overwrites(s, a) {
      ActorFacts(cfg, s, a.pid);
      WriteIsSerial(cfg, db, s.procs[a.pid]);
    } else if Inserts(s, a) {
      ActorFacts(cfg, s, a.pid);
      InsertIsSerial(cfg, db, s.procs[a.pid].row, s.procs[a.pid].call);
      CallIsValid(s.procs[a.pid].row, s.procs[a.pid].call);
    }
  }

  lemma CallIsValid(row: Payment, op: Serial.Op)
    requires CallInv(row, op)
    ensures Serial.ValidOp(op)
  {
  }

  /** In particular only a stale write can take a terminal status back. */
  lemma ReopeningIsStale(s: Sys, a: Action, id: nat)
    requires id in s.rows && TerminalStatus(s.rows[id].status) && Reopens(s, a, id)
    ensures Stale(s, a)
  {
  }

  /** Every interleaving in which no writer is overtaken leaves the table of the serial run
      of its own inserts and writes, in the order in which they commit. */
  lemma {:induction false} UndisturbedIsSerial(cfg: Config, clock: int, acts: seq<Action>)
    requires Undisturbed(cfg, Start(clock), acts)
    ensures var ops := Commits(cfg, Start(clock), acts);
            && (forall op :: op in ops ==> Serial.ValidOp(op))
            && SameTable(After(cfg, Start(clock), acts), Serial.Run(cfg, Serial.EMPTY, ops))
  {
    hide Inv, Apply, Stale, Committed, Serial.Do, Serial.ValidOp;
    if acts != [] {
      var pre, a := acts[..|acts| - 1], acts[|acts| - 1];
      UndisturbedIsSerial(cfg, clock, pre);
      StartInv(cfg, clock);
      RunKeepsInv(cfg, Start(clock), pre);
      var s, ops := After(cfg, Start(clock), pre), Commits(cfg, Start(clock), pre);
      StepIsSerial(cfg, s, Serial.Run(cfg, Serial.EMPTY, ops), a);
      if Committed(s, a).Some? {
        Serial.RunAppend(cfg, Serial.EMPTY, ops, Committed(s, a).value);
      }
    }
  }

  // ----- What carries over -----

  /** The retry budget and the back-off bounds of serial runs hold of the table of every
      such interleaving, counting over what it commits. */
  lemma UndisturbedBudget(cfg: Config, clock: int, acts: seq<Action>)
    requires Undisturbed(cfg, Start(clock), acts)
    ensures var s, ops := After(cfg, Start(clock), acts), Commits(cfg, Start(clock), acts);
            var db := Serial.Db(s.rows, s.nextID, []);
            && Budget.WithinBudget(cfg, db, Budget.Count(cfg, Serial.EMPTY, ops))
            && Budget.AllBackOff(cfg, db, Budget.Past(cfg, Serial.EMPTY, ops))
  {
    hide Undisturbed, After, Commits, Serial.Run, Serial.ValidOp, Budget.Count, Budget.Past, Budget.BacksOff,
      Budget.Sum;
    UndisturbedIsSerial(cfg, clock, acts);
    Budget.RetryBudget(cfg, Commits(cfg, Start(clock), acts));
    Budget.RetriesBackOff(cfg, Commits(cfg, Start(clock), acts));
  }
}
