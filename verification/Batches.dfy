/** Worker batches: selecting due rows, processing the selected snapshots one by one,
    and what a batch, or a sequence of batches, does to the whole table. */
module Batches {
  import opened Basics
  import opened Entity
  import opened Stripe
  import opened Lifecycle
  import opened Table
  import opened Serial

  /** The rows that a worker's WHERE clause matches. */
  ghost function DueSet(rows: Rows, due: Payment -> bool): set<nat> {
    set id | id in rows && due(rows[id])
  }

  predicate Distinct(ids: seq<nat>) {
    forall i, j :: 0 <= i < j < |ids| ==> ids[i] != ids[j]
  }

  /** What `SELECT ... WHERE due ORDER BY key ASC LIMIT limit` may answer: as many due
      rows as fit, in key order, none passed over for a later one; ties in any order. */
  ghost predicate IsSelection(rows: Rows, due: Payment -> bool, key: Payment -> int, limit: nat, ids: seq<nat>) {
    && Distinct(ids)
    && (forall k :: 0 <= k < |ids| ==> ids[k] in rows && due(rows[ids[k]]))
    && (forall i, j :: 0 <= i < j < |ids| ==> key(rows[ids[i]]) <= key(rows[ids[j]]))
    && (forall id, k :: id in rows && due(rows[id]) && id !in ids && 0 <= k < |ids| ==>
          key(rows[ids[k]]) <= key(rows[id]))
    && |ids| == Min(|DueSet(rows, due)|, limit)
  }

  ghost function IdSet(ids: seq<nat>): set<nat> {
    set id | id in ids
  }

  lemma {:induction false} DistinctSize(ids: seq<nat>)
    requires Distinct(ids)
    ensures |IdSet(ids)| == |ids|
  {
    if ids != [] {
      var pre, last := ids[..|ids| - 1], ids[|ids| - 1];
      DistinctSize(pre);
      assert IdSet(ids) == IdSet(pre) + {last};
    }
  }

  function TimeOrZero(t: Option<int>): int {
    if t.Some? then t.value else 0
  }

  function ReconcileDue(before: int): Payment -> bool { (p: Payment) => DueForReconcile(p, before) }
  function DispatchDue(now: int): Payment -> bool { (p: Payment) => DueForDispatch(p, now) }
  function ExpiryDue(cutoff: int): Payment -> bool { (p: Payment) => DueForExpiry(p, cutoff) }
  function ByUpdate(): Payment -> int { (p: Payment) => p.updatedAt }
  function ByNextAt(): Payment -> int { (p: Payment) => TimeOrZero(p.nextAt) }
  function ByCreation(): Payment -> int { (p: Payment) => p.createdAt }

  /** One batch: its clock reading, and for each row the outside answer and the fault. */
  datatype Batch = Batch(now: int, cause: nat -> Cause, fault: nat -> Fault)

  function OpFor(b: Batch, id: nat): Op {
    Touch(id, b.cause(id), b.now, b.fault(id))
  }

  function OpsFor(b: Batch, ids: seq<nat>): seq<Op> {
    if ids == [] then [] else OpsFor(b, ids[..|ids| - 1]) + [OpFor(b, ids[|ids| - 1])]
  }

  function RowAfter(cfg: Config, p: Payment, b: Batch): Payment {
    var c := ChangeOf(cfg, p, b.cause(p.id), b.now);
    if c.Write? && b.fault(p.id).write.None? then c.row else p
  }

  /** All selected rows updated at once, each from its value in `rows`. */
  function AtOnce(cfg: Config, rows: Rows, ids: seq<nat>, b: Batch): Rows {
    map id | id in rows :: if id in ids then RowAfter(cfg, rows[id], b) else rows[id]
  }

  /** The event that processing a snapshot leaves in the log, if any. */
  function EventsOf(cfg: Config, p: Payment, b: Batch): seq<PaymentEvent> {
    var c := ChangeOf(cfg, p, b.cause(p.id), b.now);
    if c.Write? && b.fault(p.id).write.None? then Append([], c.event, b.fault(p.id)) else []
  }

  function EventsFor(cfg: Config, rows: Rows, ids: seq<nat>, b: Batch): seq<PaymentEvent>
    requires forall k :: 0 <= k < |ids| ==> ids[k] in rows
  {
    if ids == [] then []
    else EventsFor(cfg, rows, ids[..|ids| - 1], b) + EventsOf(cfg, rows[ids[|ids| - 1]], b)
  }

  /** The error that processing a snapshot reports. */
  function ErrorOf(cfg: Config, p: Payment, b: Batch): Option<Error> {
    match ChangeOf(cfg, p, b.cause(p.id), b.now)
    case Skip(error) => error
    case Write(_, _, error) => if b.fault(p.id).write.Some? then b.fault(p.id).write else error
  }

  function KeepFirst(current: Option<Error>, candidate: Option<Error>): Option<Error> {
    if current.Some? then current else candidate
  }

  function FirstError(cfg: Config, rows: Rows, ids: seq<nat>, b: Batch): Option<Error>
    requires forall k :: 0 <= k < |ids| ==> ids[k] in rows
  {
    if ids == [] then None
    else KeepFirst(FirstError(cfg, rows, ids[..|ids| - 1], b), ErrorOf(cfg, rows[ids[|ids| - 1]], b))
  }

  /** The batch reports exactly the first error in list order. */
  lemma {:induction false} FirstErrorIsFirst(cfg: Config, rows: Rows, ids: seq<nat>, b: Batch)
    requires forall k :: 0 <= k < |ids| ==> ids[k] in rows
    ensures var e := FirstError(cfg, rows, ids, b);
            && (e.None? <==> forall k :: 0 <= k < |ids| ==> ErrorOf(cfg, rows[ids[k]], b).None?)
            && (e.Some? ==> exists k :: (0 <= k < |ids| && ErrorOf(cfg, rows[ids[k]], b) == e
                  && forall j :: 0 <= j < k ==> ErrorOf(cfg, rows[ids[j]], b).None?))
  {
    hide ErrorOf;
    if ids != [] {
      var pre := ids[..|ids| - 1];
      FirstErrorIsFirst(cfg, rows, pre, b);
      assert forall k :: 0 <= k < |pre| ==> ids[k] == pre[k];
    }
  }

  ghost predicate AllSelected(cfg: Config, rows: Rows, ids: seq<nat>, b: Batch) {
    forall k :: 0 <= k < |ids| ==> ids[k] in rows && Selected(cfg, rows[ids[k]], b.cause(ids[k]), b.now)
  }

  lemma AtOnceExtends(cfg: Config, rows: Rows, ids: seq<nat>, b: Batch)
    requires ids != [] && Distinct(ids) && ids[|ids| - 1] in rows
    ensures var pre, id := ids[..|ids| - 1], ids[|ids| - 1];
            && id in AtOnce(cfg, rows, pre, b) && AtOnce(cfg, rows, pre, b)[id] == rows[id]
            && AtOnce(cfg, rows, ids, b) == AtOnce(cfg, rows, pre, b)[id := RowAfter(cfg, rows[id], b)]
  {
    hide RowAfter;
  }

  lemma ItemIsOneRow(cfg: Config, db: Db, op: Op, b: Batch)
    requires DbInv(cfg, db) && op.Touch? && op == OpFor(b, op.id) && op.id in db.rows
    requires Selected(cfg, db.rows[op.id], op.cause, op.now)
    ensures var after := Do(cfg, db, op);
            && DbInv(cfg, after) && after.nextID == db.nextID
            && after.rows == db.rows[op.id := RowAfter(cfg, db.rows[op.id], b)]
            && after.events == db.events + EventsOf(cfg, db.rows[op.id], b)
  {
    hide RowInv, ChangeOf, Selected;
    TouchEffect(cfg, db, op);
  }

  /** What a batch leaves behind: every selected row updated at once from the value it
      had at the start, no other row touched, and the events in list order. */
  ghost predicate BatchResult(cfg: Config, db: Db, ids: seq<nat>, b: Batch, after: Db)
    requires forall k :: 0 <= k < |ids| ==> ids[k] in db.rows
  {
    && DbInv(cfg, after)
    && after.rows == AtOnce(cfg, db.rows, ids, b)
    && after.nextID == db.nextID
    && after.events == db.events + EventsFor(cfg, db.rows, ids, b)
  }

  lemma BatchGrows(cfg: Config, db: Db, ids: seq<nat>, b: Batch, before: Db)
    requires ids != [] && Distinct(ids) && AllSelected(cfg, db.rows, ids, b)
    requires BatchResult(cfg, db, ids[..|ids| - 1], b, before)
    ensures BatchResult(cfg, db, ids, b, Do(cfg, before, OpFor(b, ids[|ids| - 1])))
    ensures DbInv(cfg, Do(cfg, before, OpFor(b, ids[|ids| - 1])))
  {
    hide DbInv, Selected, AtOnce, RowAfter, EventsOf, Do;
    AtOnceExtends(cfg, db.rows, ids, b);
    ItemIsOneRow(cfg, before, OpFor(b, ids[|ids| - 1]), b);
  }

  lemma EmptyBatch(cfg: Config, db: Db, b: Batch)
    requires DbInv(cfg, db)
    ensures BatchResult(cfg, db, [], b, db)
  {
  }

  /** Without interference, working through the snapshots read at the start equals
      updating every selected row at once: earlier items do not disturb later ones, and
      per-item errors do not stop the loop. */
  lemma {:induction false} BatchIsAtOnce(cfg: Config, db: Db, ids: seq<nat>, b: Batch)
    requires DbInv(cfg, db) && Distinct(ids) && AllSelected(cfg, db.rows, ids, b)
    ensures BatchResult(cfg, db, ids, b, Run(cfg, db, OpsFor(b, ids))) && DbInv(cfg, Run(cfg, db, OpsFor(b, ids)))
  {
    hide DbInv, Do, BatchResult, Selected;
    if ids == [] {
      EmptyBatch(cfg, db, b);
    } else {
      var pre, id := ids[..|ids| - 1], ids[|ids| - 1];
      BatchIsAtOnce(cfg, db, pre, b);
      RunAppend(cfg, db, OpsFor(b, pre), OpFor(b, id));
      BatchGrows(cfg, db, ids, b, Run(cfg, db, OpsFor(b, pre)));
    }
  }

  /** The result depends on which rows were selected, not on the order of ties. */
  lemma OrderIrrelevant(cfg: Config, rows: Rows, ids: seq<nat>, ids': seq<nat>, b: Batch)
    requires IdSet(ids) == IdSet(ids')
    ensures AtOnce(cfg, rows, ids, b) == AtOnce(cfg, rows, ids', b)
  {
    forall id | id in rows
      ensures id in ids <==> id in ids'
    {
      assert id in IdSet(ids) <==> id in IdSet(ids');
    }
  }

  /** Rows leave the due set exactly when they are processed. */
  lemma DueSetShrinks(
      cfg: Config, rows: Rows, due: Payment -> bool, key: Payment -> int, limit: nat, ids: seq<nat>, b: Batch)
    requires IsSelection(rows, due, key, limit, ids)
    requires forall id :: id in ids ==> !due(RowAfter(cfg, rows[id], b))
    ensures var after := AtOnce(cfg, rows, ids, b);
            && DueSet(after, due) == DueSet(rows, due) - IdSet(ids)
            && |DueSet(after, due)| == |DueSet(rows, due)| - Min(|DueSet(rows, due)|, limit)
  {
    hide RowAfter;
    var after := AtOnce(cfg, rows, ids, b);
    assert DueSet(after, due) == DueSet(rows, due) - IdSet(ids);
    DistinctSize(ids);
    assert IdSet(ids) <= DueSet(rows, due);
  }

  /** If its writes succeed, an expire batch takes exactly min(batch size, n) rows out of
      the n expirable ones. */
  lemma ExpireDrains(cfg: Config, rows: Rows, ids: seq<nat>, b: Batch)
    requires forall id :: id in rows ==> rows[id].id == id
    requires IsSelection(rows, ExpiryDue(b.now - cfg.pendingTimeout), ByCreation(), cfg.BatchSize(), ids)
    requires forall id :: id in ids ==> b.cause(id) == Expire && b.fault(id).write.None?
    ensures var after, due := AtOnce(cfg, rows, ids, b), ExpiryDue(b.now - cfg.pendingTimeout);
            && DueSet(after, due) == DueSet(rows, due) - IdSet(ids)
            && |DueSet(after, due)| == |DueSet(rows, due)| - Min(|DueSet(rows, due)|, cfg.BatchSize())
  {
    DueSetShrinks(cfg, rows, ExpiryDue(b.now - cfg.pendingTimeout), ByCreation(), cfg.BatchSize(), ids, b);
  }

  lemma DispatchedNotDue(cfg: Config, p: Payment, attempt: Attempt, now: int)
    requires !attempt.EncodeError?
    ensures var c := DispatchChange(cfg, p, attempt, now); c.Write? && !DueForDispatch(c.row, now)
  {
    hide AttemptError;
  }

  /** If its writes succeed, a dispatch batch takes exactly min(batch size, n) rows out of
      the n due ones, whatever the endpoints answer. */
  lemma DispatchDrains(cfg: Config, rows: Rows, ids: seq<nat>, b: Batch)
    requires forall id :: id in rows ==> rows[id].id == id
    requires IsSelection(rows, DispatchDue(b.now), ByNextAt(), cfg.BatchSize(), ids)
    requires forall id :: id in ids ==>
               b.cause(id).Dispatch? && !b.cause(id).attempt.EncodeError? && b.fault(id).write.None?
    ensures var after, due := AtOnce(cfg, rows, ids, b), DispatchDue(b.now);
            && DueSet(after, due) == DueSet(rows, due) - IdSet(ids)
            && |DueSet(after, due)| == |DueSet(rows, due)| - Min(|DueSet(rows, due)|, cfg.BatchSize())
  {
    hide DispatchChange;
    forall id | id in ids
      ensures !DueForDispatch(RowAfter(cfg, rows[id], b), b.now)
    {
      DispatchedNotDue(cfg, rows[id], b.cause(id).attempt, b.now);
    }
    DueSetShrinks(cfg, rows, DispatchDue(b.now), ByNextAt(), cfg.BatchSize(), ids, b);
  }

  /** A round is a batch of selected rows; rounds follow each other without arrivals. */
  datatype Round = Round(ids: seq<nat>, b: Batch)

  function AfterRounds(cfg: Config, rows: Rows, rounds: seq<Round>): Rows {
    if rounds == [] then rows
    else
      var last := rounds[|rounds| - 1];
      AtOnce(cfg, AfterRounds(cfg, rows, rounds[..|rounds| - 1]), last.ids, last.b)
  }

  /** An expire batch whose writes succeed. */
  ghost predicate ExpireRound(cfg: Config, rows: Rows, r: Round, now: int) {
    && r.b.now == now
    && IsSelection(rows, ExpiryDue(now - cfg.pendingTimeout), ByCreation(), cfg.BatchSize(), r.ids)
    && forall id :: id in r.ids ==> r.b.cause(id) == Expire && r.b.fault(id).write.None?
  }

  /** A dispatch batch whose writes succeed; the endpoints may answer anything. */
  ghost predicate DispatchRound(cfg: Config, rows: Rows, r: Round, now: int) {
    && r.b.now == now
    && IsSelection(rows, DispatchDue(now), ByNextAt(), cfg.BatchSize(), r.ids)
    && forall id :: id in r.ids ==>
         r.b.cause(id).Dispatch? && !r.b.cause(id).attempt.EncodeError? && r.b.fault(id).write.None?
  }

  ghost predicate ExpireRounds(cfg: Config, rows: Rows, rounds: seq<Round>, now: int) {
    rounds != [] ==>
      var pre := rounds[..|rounds| - 1];
      ExpireRounds(cfg, rows, pre, now) && ExpireRound(cfg, AfterRounds(cfg, rows, pre), rounds[|rounds| - 1], now)
  }

  ghost predicate DispatchRounds(cfg: Config, rows: Rows, rounds: seq<Round>, now: int) {
    rounds != [] ==>
      var pre := rounds[..|rounds| - 1];
      DispatchRounds(cfg, rows, pre, now) && DispatchRound(cfg, AfterRounds(cfg, rows, pre), rounds[|rounds| - 1], now)
  }

  lemma ChangeKeepsId(cfg: Config, p: Payment, cause: Cause, now: int)
    ensures var c := ChangeOf(cfg, p, cause, now); c.Write? ==> c.row.id == p.id
  {
    hide AttemptError;
  }

  lemma {:induction false} RoundsKeepIds(cfg: Config, rows: Rows, rounds: seq<Round>)
    requires forall id :: id in rows ==> rows[id].id == id
    ensures var after := AfterRounds(cfg, rows, rounds);
            after.Keys == rows.Keys && forall id :: id in after ==> after[id].id == id
  {
    if rounds != [] {
      hide ChangeOf;
      var pre, last := rounds[..|rounds| - 1], rounds[|rounds| - 1];
      RoundsKeepIds(cfg, rows, pre);
      var before := AfterRounds(cfg, rows, pre);
      forall id | id in before
        ensures RowAfter(cfg, before[id], last.b).id == id
      {
        ChangeKeepsId(cfg, before[id], last.b.cause(id), last.b.now);
      }
    }
  }

  /** What is left of n rows after some rounds that take `size` each. */
  function Remaining(n: nat, size: nat, rounds: nat): nat {
    if rounds * size >= n then 0 else n - rounds * size
  }

  lemma RemainingStep(n: nat, size: nat, rounds: nat)
    ensures var left := Remaining(n, size, rounds); Remaining(n, size, rounds + 1) == left - Min(left, size)
  {
    assert (rounds + 1) * size == rounds * size + size;
  }

  /** r expire batches at the same time leave exactly max(0, n - r * size) expirable rows,
      so ceil(n / size) of them, and no fewer, leave none. */
  lemma {:induction false} ExpireBatchesDrain(cfg: Config, rows: Rows, rounds: seq<Round>, now: int)
    requires forall id :: id in rows ==> rows[id].id == id
    requires ExpireRounds(cfg, rows, rounds, now)
    ensures var due := ExpiryDue(now - cfg.pendingTimeout);
            |DueSet(AfterRounds(cfg, rows, rounds), due)| == Remaining(|DueSet(rows, due)|, cfg.BatchSize(), |rounds|)
  {
    hide AtOnce, IsSelection, DueSet, Config.BatchSize;
    if rounds != [] {
      var pre, last := rounds[..|rounds| - 1], rounds[|rounds| - 1];
      ExpireBatchesDrain(cfg, rows, pre, now);
      RoundsKeepIds(cfg, rows, pre);
      ExpireDrains(cfg, AfterRounds(cfg, rows, pre), last.ids, last.b);
      RemainingStep(|DueSet(rows, ExpiryDue(now - cfg.pendingTimeout))|, cfg.BatchSize(), |pre|);
    }
  }

  lemma {:induction false} DispatchBatchesDrain(cfg: Config, rows: Rows, rounds: seq<Round>, now: int)
    requires forall id :: id in rows ==> rows[id].id == id
    requires DispatchRounds(cfg, rows, rounds, now)
    ensures var due := DispatchDue(now);
            |DueSet(AfterRounds(cfg, rows, rounds), due)| == Remaining(|DueSet(rows, due)|, cfg.BatchSize(), |rounds|)
  {
    hide AtOnce, IsSelection, DueSet, Config.BatchSize;
    if rounds != [] {
      var pre, last := rounds[..|rounds| - 1], rounds[|rounds| - 1];
      DispatchBatchesDrain(cfg, rows, pre, now);
      RoundsKeepIds(cfg, rows, pre);
      DispatchDrains(cfg, AfterRounds(cfg, rows, pre), last.ids, last.b);
      RemainingStep(|DueSet(rows, DispatchDue(now))|, cfg.BatchSize(), |pre|);
    }
  }

  /** The poll of this row, as the batch answers it, leads to no write. */
  predicate Inert(cfg: Config, p: Payment, b: Batch) {
    ChangeOf(cfg, p, b.cause(p.id), b.now).Skip?
  }

  /** A reconcile batch of inert rows leaves table and log as they were. */
  lemma InertBatchIsFixpoint(cfg: Config, rows: Rows, ids: seq<nat>, b: Batch)
    requires forall id :: id in rows ==> rows[id].id == id
    requires forall k :: 0 <= k < |ids| ==> ids[k] in rows && Inert(cfg, rows[ids[k]], b)
    ensures AtOnce(cfg, rows, ids, b) == rows
    ensures EventsFor(cfg, rows, ids, b) == []
  {
    hide ChangeOf;
    if ids != [] {
      InertBatchIsFixpoint(cfg, rows, ids[..|ids| - 1], b);
    }
  }

  /** Rows that are always due first, at least a batch of them, crowd out a newer row. */
  lemma CrowdedOut(
      rows: Rows, due: Payment -> bool, key: Payment -> int, limit: nat, ids: seq<nat>, older: set<nat>, x: nat)
    requires IsSelection(rows, due, key, limit, ids)
    requires x in rows && |older| >= limit
    requires forall id :: id in older ==> id in rows && due(rows[id]) && key(rows[id]) < key(rows[x])
    ensures x !in ids
  {
    if x in ids {
      forall id | id in older
        ensures id in IdSet(ids)
      {
        assert key(rows[id]) < key(rows[x]);
      }
      assert older + {x} <= IdSet(ids);
      SubsetSize(older + {x}, IdSet(ids));
      DistinctSize(ids);
    }
  }

  lemma SubsetSize<T>(a: set<T>, b: set<T>)
    requires a <= b
    ensures |a| <= |b|
  {
    assert b == a + (b - a);
  }

  /** The other due rows that a worker's order puts strictly, or possibly, before x. */
  ghost function Before(rows: Rows, due: Payment -> bool, key: Payment -> int, x: nat): set<nat>
    requires x in rows
  {
    set id | id in DueSet(rows, due) && key(rows[id]) < key(rows[x])
  }

  ghost function NotAfter(rows: Rows, due: Payment -> bool, key: Payment -> int, x: nat): set<nat>
    requires x in rows
  {
    set id | id in DueSet(rows, due) && id != x && key(rows[id]) <= key(rows[x])
  }

  /** When a due row is picked up, exactly up to ties: always if fewer than a batch of
      other rows can come first, never if at least a batch of them must. */
  lemma PickedExactly(rows: Rows, due: Payment -> bool, key: Payment -> int, limit: nat, ids: seq<nat>, x: nat)
    requires IsSelection(rows, due, key, limit, ids)
    requires x in rows && due(rows[x])
    ensures |NotAfter(rows, due, key, x)| < limit ==> x in ids
    ensures |Before(rows, due, key, x)| >= limit ==> x !in ids
  {
    DistinctSize(ids);
    if x !in ids {
      SubsetSize(IdSet(ids) + {x}, DueSet(rows, due));
      assert |IdSet(ids) + {x}| == |ids| + 1;
      SubsetSize(IdSet(ids), NotAfter(rows, due, key, x));
    }
    if |Before(rows, due, key, x)| >= limit {
      CrowdedOut(rows, due, key, limit, ids, Before(rows, due, key, x), x);
    }
  }

  /** A reconcile batch during which the older rows are due but inert. */
  ghost predicate StarvingRound(cfg: Config, rows: Rows, r: Round, older: set<nat>) {
    && IsSelection(rows, ReconcileDue(r.b.now - cfg.reconcileStaleAfter), ByUpdate(), cfg.BatchSize(), r.ids)
    && (forall id :: id in r.ids ==> r.b.cause(id).Reconcile?)
    && (forall id :: id in older ==>
          id in rows && DueForReconcile(rows[id], r.b.now - cfg.reconcileStaleAfter) && Inert(cfg, rows[id], r.b))
  }

  ghost predicate StarvingRounds(cfg: Config, rows: Rows, rounds: seq<Round>, older: set<nat>) {
    rounds != [] ==>
      var pre := rounds[..|rounds| - 1];
      && StarvingRounds(cfg, rows, pre, older)
      && StarvingRound(cfg, AfterRounds(cfg, rows, pre), rounds[|rounds| - 1], older)
  }

  lemma StarvingRoundSkips(cfg: Config, rows: Rows, r: Round, older: set<nat>, x: nat)
    requires forall id :: id in rows ==> rows[id].id == id
    requires StarvingRound(cfg, rows, r, older)
    requires x in rows && |older| >= cfg.BatchSize()
    requires forall id :: id in older ==> id in rows && rows[id].updatedAt < rows[x].updatedAt
    ensures var after := AtOnce(cfg, rows, r.ids, r.b);
            && x !in r.ids && x in after && after[x] == rows[x]
            && forall id :: id in older ==> id in after && after[id] == rows[id]
  {
    hide ChangeOf, IsSelection, DueForReconcile;
    CrowdedOut(rows, ReconcileDue(r.b.now - cfg.reconcileStaleAfter), ByUpdate(), cfg.BatchSize(), r.ids, older, x);
  }

  /** "Every stale payment is eventually reconciled" fails: while a batch of older rows
      stays inert, a newer stale row is never polled, in any number of batches. */
  lemma {:induction false} NewerRowStarves(cfg: Config, rows: Rows, rounds: seq<Round>, older: set<nat>, x: nat)
    requires forall id :: id in rows ==> rows[id].id == id
    requires StarvingRounds(cfg, rows, rounds, older)
    requires x in rows && |older| >= cfg.BatchSize()
    requires forall id :: id in older ==> id in rows && rows[id].updatedAt < rows[x].updatedAt
    ensures forall k :: 0 <= k < |rounds| ==> x !in rounds[k].ids
    ensures var after := AfterRounds(cfg, rows, rounds);
            x in after && after[x] == rows[x] && forall id :: id in older ==> id in after && after[id] == rows[id]
  {
    hide AtOnce, StarvingRound;
    if rounds != [] {
      var pre, last := rounds[..|rounds| - 1], rounds[|rounds| - 1];
      NewerRowStarves(cfg, rows, pre, older, x);
      RoundsKeepIds(cfg, rows, pre);
      StarvingRoundSkips(cfg, AfterRounds(cfg, rows, pre), last, older, x);
      forall k | 0 <= k < |rounds|
        ensures x !in rounds[k].ids
      {
        assert k < |pre| ==> rounds[k] == pre[k];
      }
    }
  }

  /** A provider that keeps answering with a session it knows nothing new about. */
  function Silent(now: int): Batch {
    Batch(now, (id: nat) => Reconcile(Session("open", "")), (id: nat) => Fault(None, false))
  }

  function Repeat(r: Round, n: nat): (rounds: seq<Round>)
    ensures |rounds| == n && forall k :: 0 <= k < n ==> rounds[k] == r
  {
    if n == 0 then [] else Repeat(r, n - 1) + [r]
  }

  /** Starvation does occur: with a batch size of one, an older payment of which the
      provider knows nothing keeps a newer stale one from being polled in n batches. */
  lemma {:induction false} SilentProviderStarves(cfg: Config, p: Payment, q: Payment, now: int, n: nat)
    requires cfg.BatchSize() == 1 && p.id == 1 && q.id == 2 && p.updatedAt < q.updatedAt
    requires p.provider == STRIPE
    requires DueForReconcile(p, now - cfg.reconcileStaleAfter) && DueForReconcile(q, now - cfg.reconcileStaleAfter)
    ensures var rows := map[1 := p, 2 := q];
            && StarvingRounds(cfg, rows, Repeat(Round([1], Silent(now)), n), {1})
            && AfterRounds(cfg, rows, Repeat(Round([1], Silent(now)), n)) == rows
  {
    hide DueForReconcile, StarvingRound, AtOnce, Silent;
    var r := Round([1], Silent(now));
    if n > 0 {
      SilentProviderStarves(cfg, p, q, now, n - 1);
      SilentRound(cfg, p, q, now);
      assert Repeat(r, n)[..n - 1] == Repeat(r, n - 1);
    }
  }

  lemma SilentRound(cfg: Config, p: Payment, q: Payment, now: int)
    requires cfg.BatchSize() == 1 && p.id == 1 && q.id == 2 && p.updatedAt < q.updatedAt
    requires p.provider == STRIPE
    requires DueForReconcile(p, now - cfg.reconcileStaleAfter) && DueForReconcile(q, now - cfg.reconcileStaleAfter)
    ensures var rows := map[1 := p, 2 := q];
            && StarvingRound(cfg, rows, Round([1], Silent(now)), {1})
            && AtOnce(cfg, rows, [1], Silent(now)) == rows
  {
    hide ChangeOf, DueForReconcile, IsSelection, Inert, Config.BatchSize;
    var rows := map[1 := p, 2 := q];
    SilentIsInert(cfg, p, now);
    OldestAlone(cfg, rows, now);
    assert RowAfter(cfg, p, Silent(now)) == p by { InertStays(cfg, p, Silent(now)); }
  }

  lemma InertStays(cfg: Config, p: Payment, b: Batch)
    requires Inert(cfg, p, b)
    ensures RowAfter(cfg, p, b) == p
  {
    hide ChangeOf;
  }

  lemma SilentIsInert(cfg: Config, p: Payment, now: int)
    requires p.provider == STRIPE
    ensures Inert(cfg, p, Silent(now))
  {
    hide IsBlank, TrimSpace;
  }

  lemma OldestAlone(cfg: Config, rows: Rows, now: int)
    requires rows.Keys == {1, 2} && rows[1].updatedAt < rows[2].updatedAt && cfg.BatchSize() == 1
    requires DueForReconcile(rows[1], now - cfg.reconcileStaleAfter)
    requires DueForReconcile(rows[2], now - cfg.reconcileStaleAfter)
    ensures IsSelection(rows, ReconcileDue(now - cfg.reconcileStaleAfter), ByUpdate(), cfg.BatchSize(), [1])
  {
    hide DueForReconcile, Config.BatchSize;
    assert DueSet(rows, ReconcileDue(now - cfg.reconcileStaleAfter)) == {1, 2};
  }
}
