/** The retry budget when handlers and workers overlap: every stale write may cost one
    more budget, and some do. */
module Overlap {
  import opened Basics
  import opened Entity
  import opened Lifecycle
  import opened Table
  import opened Concurrent
  import opened Interleavings
  import opened Serializability
  import opened Budget
  import Serial
  import Batches

  /** What a write contributes: whether it arms delivery, and which attempt it records. */
  function WriteTally(cfg: Config, origin: Origin): Tally {
    var c := ChangeOf(cfg, origin.snap, origin.cause, origin.now);
    Tally(
      Bit(Arms(origin.snap, origin.cause, c)),
      Bit(Fails(origin.snap, origin.cause, c)),
      Bit(Delivers(origin.snap, origin.cause, c)))
  }

  function ActTally(cfg: Config, s: Sys, a: Action): Tally {
    if Overwrites(s, a) then WriteTally(cfg, s.procs[a.pid].origin) else Tally(0, 0, 0)
  }

  ghost function RunTally(cfg: Config, s: Sys, acts: seq<Action>): Tally {
    if acts == [] then Tally(0, 0, 0)
    else
      var pre := acts[..|acts| - 1];
      Plus(RunTally(cfg, s, pre), ActTally(cfg, After(cfg, s, pre), acts[|acts| - 1]))
  }

  ghost function StaleWrites(cfg: Config, s: Sys, acts: seq<Action>): nat {
    if acts == [] then 0
    else
      var pre := acts[..|acts| - 1];
      StaleWrites(cfg, s, pre) + Bit(Stale(After(cfg, s, pre), acts[|acts| - 1]))
  }

  /** The budget that a run grants: one per arming and one per stale write. */
  ghost predicate Granted(cfg: Config, s: Sys, t: Tally, stale: nat) {
    WithinBudget(cfg, Serial.Db(s.rows, s.nextID, []), Tally(t.marks + stale, t.failures, t.successes))
  }

  /** A write of a row computed from a copy uses what the copy owed, which is what the
      stored row owes, or at most one budget if the copy is stale. */
  lemma WriteBudget(cfg: Config, stored: Payment, row: Payment, origin: Origin, stale: bool)
    requires OriginInv(cfg, row, origin) && (stale || stored == origin.snap)
    ensures var t := WriteTally(cfg, origin);
            && t.failures + t.successes + Owed(cfg, row)
                 <= Owed(cfg, stored) + (t.marks + Bit(stale)) * cfg.MaxAttempts()
            && t.successes + Open(row) <= Open(stored) + t.marks + Bit(stale)
  {
    hide RowInv, ChangeOf, Selected, Arms, Fails, Delivers, Config.MaxAttempts;
    RowBudget(cfg, origin.snap, origin.cause, origin.now);
    OneBudgetAtMost(cfg, origin.snap);
    var t := WriteTally(cfg, origin);
    Distribute(t.marks, Bit(stale), cfg.MaxAttempts());
    assert t.marks * cfg.MaxAttempts() == if t.marks == 1 then cfg.MaxAttempts() else 0;
    assert Bit(stale) * cfg.MaxAttempts() == if stale then cfg.MaxAttempts() else 0;
  }

  lemma OneBudgetAtMost(cfg: Config, p: Payment)
    requires RowInv(cfg, p)
    ensures Owed(cfg, p) <= cfg.MaxAttempts() && Open(p) <= 1
  {
  }

  lemma InsertGranted(cfg: Config, s: Sys, t: Tally, stale: nat, row: Payment, op: Serial.Op)
    requires TableInv(s.rows, s.nextID) && CallInv(row, op) && Granted(cfg, s, t, stale)
    ensures Granted(cfg, WithRow(s, row), t, stale)
  {
    hide WithinBudget, NewRow, ValidRequest, TableInv;
    NewRowInv(cfg, op.req, op.hash, op.callbackURL, op.reply, op.now);
    assert row.delivery == DELIVERY_NONE;
    var db := Serial.Db(s.rows, s.nextID, []);
    SumInsert(cfg, db, Tally(t.marks + stale, t.failures, t.successes), row);
  }

  lemma SumInsert(cfg: Config, db: Serial.Db, t: Tally, row: Payment)
    requires TableInv(db.rows, db.nextID) && row.delivery == DELIVERY_NONE && WithinBudget(cfg, db, t)
    ensures WithinBudget(cfg, Serial.Db(db.rows[db.nextID := row.(id := db.nextID)], db.nextID + 1, []), t)
  {
    var stored := row.(id := db.nextID);
    SumReplace(db.rows, db.nextID, OwedBy(cfg), db.nextID, stored);
    SumReplace(db.rows, db.nextID, Open, db.nextID, stored);
  }

  lemma OverwriteGranted(
      cfg: Config, s: Sys, s': Sys, t: Tally, stale: nat, row: Payment, origin: Origin, isStale: bool)
    requires TableInv(s.rows, s.nextID) && row.id in s.rows && Granted(cfg, s, t, stale)
    requires OriginInv(cfg, row, origin) && (isStale || s.rows[row.id] == origin.snap)
    requires s'.rows == s.rows[row.id := row] && s'.nextID == s.nextID
    ensures Granted(cfg, s', Plus(t, WriteTally(cfg, origin)), stale + Bit(isStale))
  {
    hide WithinBudget, OriginInv, WriteTally, Owed, Open, Config.MaxAttempts, TableInv;
    WriteBudget(cfg, s.rows[row.id], row, origin, isStale);
    var w := WriteTally(cfg, origin);
    var granted := Tally(w.marks + Bit(isStale), w.failures, w.successes);
    ReplaceWithinBudget(
      cfg, Serial.Db(s.rows, s.nextID, []), Tally(t.marks + stale, t.failures, t.successes), row.id, row, granted,
      Serial.Db(s'.rows, s'.nextID, []));
  }

  lemma StepGranted(cfg: Config, s: Sys, t: Tally, stale: nat, a: Action)
    requires Inv(cfg, s) && Granted(cfg, s, t, stale)
    ensures Granted(cfg, Apply(cfg, s, a), Plus(t, ActTally(cfg, s, a)), stale + Bit(Stale(s, a)))
  {
    hide Inv, Apply, Granted, WriteTally, OriginInv, CallInv, SnapInv, Rejects, TableInv;
    ApplyRows(cfg, s, a);
    InvTable(cfg, s);
    if Overwrites(s, a) {
      ActorFacts(cfg, s, a.pid);
      var proc := s.procs[a.pid];
      OverwriteGranted(cfg, s, Apply(cfg, s, a), t, stale, proc.row, proc.origin, Stale(s, a));
    } else if Inserts(s, a) {
      ActorFacts(cfg, s, a.pid);
      InsertGranted(cfg, s, t, stale, s.procs[a.pid].row, s.procs[a.pid].call);
      SameGranted(cfg, WithRow(s, s.procs[a.pid].row), Apply(cfg, s, a), t, stale);
    } else {
      SameGranted(cfg, s, Apply(cfg, s, a), t, stale);
    }
  }

  lemma SameGranted(cfg: Config, s: Sys, s': Sys, t: Tally, stale: nat)
    requires Granted(cfg, s, t, stale) && s'.rows == s.rows && s'.nextID == s.nextID
    ensures Granted(cfg, s', t, stale)
  {
  }

  /** In every interleaving: attempts recorded, plus those still owed, are at most the
      maximum times the armings and stale writes together; acknowledgements, plus rows
      still open, are at most the armings and stale writes. */
  lemma {:induction false} OverlapBudget(cfg: Config, clock: int, acts: seq<Action>)
    ensures var tally, stale := RunTally(cfg, Start(clock), acts), StaleWrites(cfg, Start(clock), acts);
            Granted(cfg, After(cfg, Start(clock), acts), tally, stale)
  {
    hide Inv, Apply, Stale, ActTally;
    if acts != [] {
      var pre := acts[..|acts| - 1];
      OverlapBudget(cfg, clock, pre);
      StartInv(cfg, clock);
      RunKeepsInv(cfg, Start(clock), pre);
      StepGranted(
        cfg, After(cfg, Start(clock), pre), RunTally(cfg, Start(clock), pre), StaleWrites(cfg, Start(clock), pre),
        acts[|acts| - 1]);
    }
  }

  // ----- Two dispatchers, one arming -----

  /** What has been counted when a run reaches a state. */
  datatype Count = Count(s: Sys, tally: Tally, stale: nat)

  ghost function CountOf(cfg: Config, acts: seq<Action>): Count {
    Count(After(cfg, Start(0), acts), RunTally(cfg, Start(0), acts), StaleWrites(cfg, Start(0), acts))
  }

  ghost function Counted(cfg: Config, c: Count, a: Action): Count {
    Count(Apply(cfg, c.s, a), Plus(c.tally, ActTally(cfg, c.s, a)), c.stale + Bit(Stale(c.s, a)))
  }

  lemma CountAppend(cfg: Config, acts: seq<Action>, a: Action)
    ensures CountOf(cfg, acts + [a]) == Counted(cfg, CountOf(cfg, acts), a)
  {
    hide Apply, ActTally, Stale;
    assert (acts + [a])[..|acts|] == acts;
  }

  lemma {:induction false} NothingCounted(cfg: Config, acts: seq<Action>)
    requires forall a :: a in acts ==> !a.WriteRow?
    ensures CountOf(cfg, acts) == Count(After(cfg, Start(0), acts), Tally(0, 0, 0), 0)
  {
    hide Apply, ActTally, Stale;
    if acts != [] {
      NothingCounted(cfg, acts[..|acts| - 1]);
      WritesOnlyCount(cfg, After(cfg, Start(0), acts[..|acts| - 1]), acts[|acts| - 1]);
    }
  }

  lemma WritesOnlyCount(cfg: Config, s: Sys, a: Action)
    requires !a.WriteRow?
    ensures ActTally(cfg, s, a) == Tally(0, 0, 0) && !Stale(s, a)
  {
    hide WriteTally;
  }

  /** A step that writes no row leaves the counts. */
  lemma NotCounted(cfg: Config, c: Count, a: Action)
    requires !a.WriteRow?
    ensures Counted(cfg, c, a) == c.(s := Apply(cfg, c.s, a))
  {
    hide Apply, WriteTally;
  }

  /** A canceled payment whose callback is due. */
  predicate Armed(cfg: Config, p: Payment) {
    p.id == 1 && p.delivery == DELIVERY_PENDING && p.nextAt == Some(0) && RowInv(cfg, p)
  }

  lemma CancelBegins(cfg: Config, s: Sys, row: Payment)
    requires s.rows == map[1 := row] && s.procs == map[]
    ensures Apply(cfg, s, CancelBegin(1, 1)) == SetProc(s, 1, Canceling(row))
  {
  }

  lemma CancelDecides(cfg: Config, s: Sys, row: Payment)
    requires 1 in s.procs && s.procs[1] == Canceling(row) && s.clock == 0 && CancelChange(row, 0).Write?
    ensures Apply(cfg, s, CancelDecide(1))
         == SetProc(s, 1, Writing(CancelChange(row, 0).row, Origin(row, Cancel, 0), Done))
  {
    hide CancelChange;
  }

  /** A handler arms delivery with a write that is not stale. */
  lemma ArmingCounted(cfg: Config, s: Sys, pid: nat)
    requires pid in s.procs && s.procs[pid].Writing? && !Stale(s, WriteRow(pid))
    requires WriteTally(cfg, s.procs[pid].origin) == Tally(1, 0, 0)
    ensures Counted(cfg, Count(s, Tally(0, 0, 0), 0), WriteRow(pid))
         == Count(Apply(cfg, s, WriteRow(pid)), Tally(1, 0, 0), 0)
  {
    WriteCounts(cfg, s, pid);
  }

  lemma WriteCounts(cfg: Config, s: Sys, pid: nat)
    requires pid in s.procs && s.procs[pid].Writing?
    ensures ActTally(cfg, s, WriteRow(pid)) == WriteTally(cfg, s.procs[pid].origin)
  {
    hide WriteTally;
  }

  lemma CancelRun(cfg: Config, c: Count, row: Payment) returns (armed: Payment, last: Count)
    requires c.s.rows == map[1 := row] && c.s.procs == map[] && c.s.clock == 0
    requires row.id == 1 && row.status == PENDING && RowInv(cfg, row) && c.tally == Tally(0, 0, 0) && c.stale == 0
    ensures last == Counted3(cfg, c, CancelBegin(1, 1), CancelDecide(1), WriteRow(1))
    ensures Armed(cfg, armed) && last.s.rows == map[1 := armed] && last.s.procs == map[] && last.s.clock == 0
    ensures last.tally == Tally(1, 0, 0) && last.stale == 0
  {
    hide RowInv, WriteTally, Stale, Apply, Counted, CancelChange, Overwrite;
    CanceledIsArmed(cfg, row);
    armed := CancelChange(row, 0).row;
    NotCounted(cfg, c, CancelBegin(1, 1));
    CancelBegins(cfg, c.s, row);
    var s1 := SetProc(c.s, 1, Canceling(row));
    NotCounted(cfg, c.(s := s1), CancelDecide(1));
    CancelDecides(cfg, s1, row);
    var s2 := SetProc(s1, 1, Writing(armed, Origin(row, Cancel, 0), Done));
    FreshIsNotStale(s2, 1);
    ArmingCounted(cfg, s2, 1);
    HandlerWrites(cfg, s2, 1);
    last := Counted(cfg, c.(s := s2), WriteRow(1));
  }

  lemma FreshIsNotStale(s: Sys, pid: nat)
    requires pid in s.procs && s.procs[pid].Writing?
    requires s.procs[pid].row.id in s.rows && s.rows[s.procs[pid].row.id] == s.procs[pid].origin.snap
    ensures !Stale(s, WriteRow(pid))
  {
  }

  lemma CanceledIsArmed(cfg: Config, row: Payment)
    requires row.id == 1 && row.status == PENDING && RowInv(cfg, row)
    ensures CancelChange(row, 0).Write? && Armed(cfg, CancelChange(row, 0).row)
    ensures WriteTally(cfg, Origin(row, Cancel, 0)) == Tally(1, 0, 0)
    ensures Overwrite(row, CancelChange(row, 0).row) == CancelChange(row, 0).row
  {
    ChangeKeepsRowInv(cfg, row, Cancel, 0);
  }

  function Acknowledge(pid: nat): Action {
    JobItem(pid, Dispatch(Response(200)))
  }

  lemma OnlyRowIsSelected(cfg: Config, rows: Rows, armed: Payment)
    requires rows == map[1 := armed] && Armed(cfg, armed)
    ensures IsJobSelection(cfg, rows, DispatchJob, 0, [1])
  {
    hide RowInv, Config.BatchSize;
    assert Batches.DueSet(rows, Batches.DispatchDue(0)) == {1};
  }

  lemma DispatcherBegins(cfg: Config, s: Sys, pid: nat)
    requires pid !in s.procs && s.clock == 0
    ensures Apply(cfg, s, JobBegin(pid, DispatchJob)) == SetProc(s, pid, Choosing(DispatchJob, 0))
  {
  }

  lemma DispatcherSelects(cfg: Config, s: Sys, pid: nat, armed: Payment)
    requires pid in s.procs && s.procs[pid] == Choosing(DispatchJob, 0)
    requires Armed(cfg, armed) && s.rows == map[1 := armed]
    ensures Apply(cfg, s, JobSelect(pid, [1])) == SetProc(s, pid, Looping(DispatchJob, 0, [armed]))
  {
    hide IsJobSelection, Armed;
    OnlyRowIsSelected(cfg, s.rows, armed);
    assert seq(|[1]|, k requires 0 <= k < |[1]| => s.rows[[1][k]]) == [armed];
  }

  lemma DispatcherPosts(cfg: Config, s: Sys, pid: nat, armed: Payment)
    requires pid in s.procs && s.procs[pid] == Looping(DispatchJob, 0, [armed]) && Armed(cfg, armed)
    ensures Apply(cfg, s, Acknowledge(pid)) == SetProc(s, pid, AboutToWrite(cfg, armed))
  {
    hide DispatchChange, Armed;
    DeliveryIsWritten(cfg, armed);
    assert [armed][1..] == [];
  }

  /** A dispatcher that has posted the status of the armed row and been acknowledged. */
  ghost function AboutToWrite(cfg: Config, armed: Payment): Proc
    requires Armed(cfg, armed)
  {
    DeliveryIsWritten(cfg, armed);
    Writing(
      DispatchChange(cfg, armed, Response(200), 0).row, Origin(armed, Dispatch(Response(200)), 0),
      Resume(DispatchJob, 0, []))
  }

  /** A dispatcher starts, selects the armed row and posts its status. */
  lemma DispatcherRun(cfg: Config, c: Count, pid: nat, armed: Payment)
    requires Armed(cfg, armed) && c.s.rows == map[1 := armed] && c.s.clock == 0 && pid !in c.s.procs
    ensures Counted3(cfg, c, JobBegin(pid, DispatchJob), JobSelect(pid, [1]), Acknowledge(pid))
         == c.(s := SetProc(c.s, pid, AboutToWrite(cfg, armed)))
  {
    hide Apply, Counted, Armed, AboutToWrite;
    var s1 := SetProc(c.s, pid, Choosing(DispatchJob, 0));
    var s2 := SetProc(s1, pid, Looping(DispatchJob, 0, [armed]));
    NotCounted(cfg, c, JobBegin(pid, DispatchJob));
    DispatcherBegins(cfg, c.s, pid);
    NotCounted(cfg, c.(s := s1), JobSelect(pid, [1]));
    DispatcherSelects(cfg, s1, pid, armed);
    NotCounted(cfg, c.(s := s2), Acknowledge(pid));
    DispatcherPosts(cfg, s2, pid, armed);
  }

  ghost function Counted3(cfg: Config, c: Count, a1: Action, a2: Action, a3: Action): Count {
    Counted(cfg, Counted(cfg, Counted(cfg, c, a1), a2), a3)
  }

  lemma CountAppend3(cfg: Config, acts: seq<Action>, a1: Action, a2: Action, a3: Action)
    ensures CountOf(cfg, acts + [a1, a2, a3]) == Counted3(cfg, CountOf(cfg, acts), a1, a2, a3)
  {
    hide CountOf, Counted;
    CountAppend(cfg, acts, a1);
    CountAppend(cfg, acts + [a1], a2);
    CountAppend(cfg, acts + [a1] + [a2], a3);
    assert acts + [a1, a2, a3] == acts + [a1] + [a2] + [a3];
  }

  lemma DeliveryIsWritten(cfg: Config, armed: Payment)
    requires Armed(cfg, armed)
    ensures var c := DispatchChange(cfg, armed, Response(200), 0);
            && c.Write? && c.row.id == 1 && c.row != armed
            && WriteTally(cfg, Origin(armed, Dispatch(Response(200)), 0)) == Tally(0, 0, 1)
            && Overwrite(armed, c.row) == c.row && Overwrite(c.row, c.row) == c.row
  {
    hide DeliveryInv;
  }

  /** The second of two dispatchers that read the same row writes over the first. */
  lemma BothWrite(cfg: Config, c: Count, armed: Payment)
    requires Armed(cfg, armed) && c.s.rows == map[1 := armed] && 2 in c.s.procs && 3 in c.s.procs
    requires c.s.procs[2] == c.s.procs[3] == AboutToWrite(cfg, armed)
    requires c.tally == Tally(1, 0, 0) && c.stale == 0
    ensures var last := Counted(cfg, Counted(cfg, c, WriteRow(2)), WriteRow(3));
            last.tally == Tally(1, 0, 2) && last.stale == 1
  {
    hide DispatchChange, WriteTally, Armed, Overwrite;
    DeliveryIsWritten(cfg, armed);
    var c1 := Counted(cfg, c, WriteRow(2));
    assert !Stale(c.s, WriteRow(2)) && c1.s.procs[3] == c.s.procs[3];
    assert c1.s.rows[1] == c.s.procs[3].row;
    assert Stale(c1.s, WriteRow(3));
  }

  /** "Acknowledged deliveries never exceed the armings" fails when dispatchers overlap: a
      payment armed once is acknowledged twice, which is as many as OverlapBudget allows. */
  lemma OverlapDeliversTwice(cfg: Config, req: CreateRequest) returns (acts: seq<Action>)
    requires ValidRequest(req)
    ensures RunTally(cfg, Start(0), acts) == Tally(1, 0, 2) && StaleWrites(cfg, Start(0), acts) == 1
  {
    hide ValidRequest, Armed, Counted, RowInv, AboutToWrite, After;
    var create, row := CreateSteps(cfg, req);
    NothingCounted(cfg, create);
    var c0 := CountOf(cfg, create);
    var armed, c1 := CancelRun(cfg, c0, row);
    var acts1 := create + [CancelBegin(1, 1), CancelDecide(1), WriteRow(1)];
    CountAppend3(cfg, create, CancelBegin(1, 1), CancelDecide(1), WriteRow(1));
    var acts2 := acts1 + [JobBegin(2, DispatchJob), JobSelect(2, [1]), Acknowledge(2)];
    CountAppend3(cfg, acts1, JobBegin(2, DispatchJob), JobSelect(2, [1]), Acknowledge(2));
    DispatcherRun(cfg, c1, 2, armed);
    var c2 := c1.(s := SetProc(c1.s, 2, AboutToWrite(cfg, armed)));
    var acts3 := acts2 + [JobBegin(3, DispatchJob), JobSelect(3, [1]), Acknowledge(3)];
    CountAppend3(cfg, acts2, JobBegin(3, DispatchJob), JobSelect(3, [1]), Acknowledge(3));
    DispatcherRun(cfg, c2, 3, armed);
    var c3 := c2.(s := SetProc(c2.s, 3, AboutToWrite(cfg, armed)));
    BothWrite(cfg, c3, armed);
    CountAppend(cfg, acts3, WriteRow(2));
    CountAppend(cfg, acts3 + [WriteRow(2)], WriteRow(3));
    acts := acts3 + [WriteRow(2)] + [WriteRow(3)];
  }
}
