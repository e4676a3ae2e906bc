/** Which due rows a worker picks up: exactly which a query may or must select, and when
    a stale payment is eventually polled. */
module Fairness {
  import opened Basics
  import opened Entity
  import opened Lifecycle
  import opened Table
  import opened Batches
  import opened Repository

  // ----- One query -----

  lemma SelectionExists(rows: Rows, due: Payment -> bool, key: Payment -> int, limit: nat) returns (ids: seq<nat>)
    ensures IsSelection(rows, due, key, limit, ids)
  {
    hide Picked, IsSelection;
    ids := [];
    var rest := DueSet(rows, due);
    NothingPicked(rows, due, key);
    while |ids| < limit && rest != {}
      invariant |ids| <= limit && Picked(rows, due, key, ids, rest)
      decreases |rest|
    {
      RestIsStored(rows, due, key, ids, rest);
      LeastExists(rows, rest, key);
      var id :| id in rest && forall other :: other in rest ==> key(rows[id]) <= key(rows[other]);
      PickLeast(rows, due, key, ids, rest, id);
      ids := ids + [id];
      rest := rest - {id};
    }
    PickedIsSelection(rows, due, key, limit, ids, rest);
  }

  lemma RestIsStored(rows: Rows, due: Payment -> bool, key: Payment -> int, ids: seq<nat>, rest: set<nat>)
    requires Picked(rows, due, key, ids, rest)
    ensures forall id :: id in rest ==> id in rows
  {
  }

  /** The order `key` with ties between row x and others broken for or against x. */
  function Favouring(key: Payment -> int, x: nat): Payment -> int {
    (p: Payment) => 2 * key(p) + if p.id == x then 0 else 1
  }

  function Disfavouring(key: Payment -> int, x: nat): Payment -> int {
    (p: Payment) => 2 * key(p) + if p.id == x then 1 else 0
  }

  /** Breaking ties gives one of the orders in which the database may answer. */
  lemma RefinedSelection(
      rows: Rows, due: Payment -> bool, key: Payment -> int, fine: Payment -> int, limit: nat, ids: seq<nat>)
    requires forall p, q :: fine(p) <= fine(q) ==> key(p) <= key(q)
    requires IsSelection(rows, due, fine, limit, ids)
    ensures IsSelection(rows, due, key, limit, ids)
  {
  }

  /** Some answer of the database contains x, exactly if fewer than `limit` due rows must
      come before it. */
  lemma MayBePicked(rows: Rows, due: Payment -> bool, key: Payment -> int, limit: nat, x: nat)
    requires x in rows && due(rows[x]) && forall id :: id in rows ==> rows[id].id == id
    ensures (exists ids :: IsSelection(rows, due, key, limit, ids) && x in ids) <==> |Before(rows, due, key, x)| < limit
  {
    hide IsSelection;
    if |Before(rows, due, key, x)| < limit {
      var fine := Favouring(key, x);
      var ids := SelectionExists(rows, due, fine, limit);
      RefinedSelection(rows, due, key, fine, limit, ids);
      assert NotAfter(rows, due, fine, x) == Before(rows, due, key, x);
      PickedExactly(rows, due, fine, limit, ids, x);
    } else {
      forall ids | IsSelection(rows, due, key, limit, ids)
        ensures x !in ids
      {
        PickedExactly(rows, due, key, limit, ids, x);
      }
    }
  }

  /** Every answer of the database contains x, exactly if fewer than `limit` other due rows
      can come before it. */
  lemma MustBePicked(rows: Rows, due: Payment -> bool, key: Payment -> int, limit: nat, x: nat)
    requires x in rows && due(rows[x]) && forall id :: id in rows ==> rows[id].id == id
    ensures (forall ids :: IsSelection(rows, due, key, limit, ids) ==> x in ids)
        <==> |NotAfter(rows, due, key, x)| < limit
  {
    hide IsSelection;
    if |NotAfter(rows, due, key, x)| < limit {
      forall ids | IsSelection(rows, due, key, limit, ids)
        ensures x in ids
      {
        PickedExactly(rows, due, key, limit, ids, x);
      }
    } else {
      var fine := Disfavouring(key, x);
      var ids := SelectionExists(rows, due, fine, limit);
      RefinedSelection(rows, due, key, fine, limit, ids);
      assert Before(rows, due, fine, x) == NotAfter(rows, due, key, x);
      PickedExactly(rows, due, fine, limit, ids, x);
    }
  }

  // ----- Reconciling over many batches -----

  /** Whether a row waits to be reconciled, now or later. */
  predicate Waiting(p: Payment) {
    (p.status == PENDING || p.status == PROCESSING) && p.providerPaymentID.Some?
  }

  /** The other waiting rows that are polled before x, or may be. */
  ghost function Ahead(rows: Rows, x: nat): set<nat>
    requires x in rows
  {
    set id | id in rows && id != x && Waiting(rows[id]) && rows[id].updatedAt <= rows[x].updatedAt
  }

  ghost function StrictlyAhead(rows: Rows, x: nat): set<nat>
    requires x in rows
  {
    set id | id in rows && Waiting(rows[id]) && rows[id].updatedAt < rows[x].updatedAt
  }

  /** A reconcile batch at a time when x is due. A polled row among the stuck ones stays as
      it was, because its poll or its write yields nothing; any other stops waiting. */
  ghost predicate PollingRound(cfg: Config, rows: Rows, r: Round, x: nat, stuck: set<nat>) {
    && x in rows && DueForReconcile(rows[x], r.b.now - cfg.reconcileStaleAfter)
    && IsSelection(rows, ReconcileDue(r.b.now - cfg.reconcileStaleAfter), ByUpdate(), cfg.BatchSize(), r.ids)
    && forall id :: id in r.ids ==>
         && r.b.cause(id).Reconcile?
         && if id in stuck then RowAfter(cfg, rows[id], r.b) == rows[id] else !Waiting(RowAfter(cfg, rows[id], r.b))
  }

  /** Such batches, one after the other without arrivals, for as long as x is passed over;
      nothing is asked of those that follow. */
  ghost predicate PollingRounds(cfg: Config, rows: Rows, rounds: seq<Round>, x: nat, stuck: set<nat>) {
    rounds != [] ==>
      var pre := rounds[..|rounds| - 1];
      && PollingRounds(cfg, rows, pre, x, stuck)
      && (Passed(pre, x) ==> PollingRound(cfg, AfterRounds(cfg, rows, pre), rounds[|rounds| - 1], x, stuck))
  }

  /** No round has polled x. */
  predicate Passed(rounds: seq<Round>, x: nat) {
    forall k :: 0 <= k < |rounds| ==> x !in rounds[k].ids
  }

  lemma AheadIsNotAfter(cfg: Config, rows: Rows, x: nat, before: int)
    requires x in rows && DueForReconcile(rows[x], before)
    ensures Ahead(rows, x) == NotAfter(rows, ReconcileDue(before), ByUpdate(), x)
    ensures StrictlyAhead(rows, x) == Before(rows, ReconcileDue(before), ByUpdate(), x)
  {
  }

  /** A round that passes x over polls a whole batch of the rows ahead of it. */
  lemma PassingPollsAhead(rows: Rows, due: Payment -> bool, key: Payment -> int, limit: nat, ids: seq<nat>, x: nat)
    requires IsSelection(rows, due, key, limit, ids)
    requires x in rows && due(rows[x]) && x !in ids
    ensures |ids| == limit && IdSet(ids) <= NotAfter(rows, due, key, x)
  {
    DistinctSize(ids);
    assert |IdSet(ids) + {x}| == |ids| + 1;
    SubsetSize(IdSet(ids) + {x}, DueSet(rows, due));
  }

  lemma StuckStay(cfg: Config, rows: Rows, r: Round, x: nat, stuck: set<nat>)
    requires PollingRound(cfg, rows, r, x, stuck) && x !in r.ids
    ensures var after := AtOnce(cfg, rows, r.ids, r.b);
            && x in after && after[x] == rows[x]
            && Ahead(after, x) == Ahead(rows, x) - (IdSet(r.ids) - stuck)
            && StrictlyAhead(after, x) * stuck == StrictlyAhead(rows, x) * stuck
  {
    hide RowAfter, IsSelection, DueForReconcile;
  }

  /** What it costs to pass x over: every round takes away at least the part of a batch
      that the stuck rows ahead of x cannot fill. */
  lemma PassingShrinks(cfg: Config, rows: Rows, r: Round, x: nat, stuck: set<nat>)
    requires PollingRound(cfg, rows, r, x, stuck) && x !in r.ids
    ensures var after := AtOnce(cfg, rows, r.ids, r.b);
            && x in after && after[x] == rows[x]
            && Ahead(after, x) * stuck == Ahead(rows, x) * stuck
            && |Ahead(after, x) - stuck| + cfg.BatchSize() <= |Ahead(rows, x) - stuck| + |Ahead(rows, x) * stuck|
  {
    hide RowAfter, IsSelection, DueForReconcile, AtOnce, Config.BatchSize;
    var before := r.b.now - cfg.reconcileStaleAfter;
    PassingPollsAhead(rows, ReconcileDue(before), ByUpdate(), cfg.BatchSize(), r.ids, x);
    AheadIsNotAfter(cfg, rows, x, before);
    StuckStay(cfg, rows, r, x, stuck);
    RoundIsDistinct(cfg, rows, r, x, stuck);
    ShrinkBy(Ahead(rows, x), IdSet(r.ids), stuck);
  }

  lemma RoundIsDistinct(cfg: Config, rows: Rows, r: Round, x: nat, stuck: set<nat>)
    requires PollingRound(cfg, rows, r, x, stuck)
    ensures |IdSet(r.ids)| == |r.ids|
  {
    DistinctSize(r.ids);
  }

  lemma ShrinkBy(all: set<nat>, polled: set<nat>, stuck: set<nat>)
    requires polled <= all
    ensures var left := all - (polled - stuck);
            && left * stuck == all * stuck
            && |left - stuck| + |polled| <= |all - stuck| + |all * stuck|
  {
    var left := all - (polled - stuck);
    assert left * stuck == all * stuck;
    assert all - stuck == (left - stuck) + (polled - stuck);
    assert polled == (polled - stuck) + (polled * stuck);
    SubsetSize(polled * stuck, all * stuck);
  }

  /** The waiting time of x, in rounds that pass it over. */
  lemma {:induction false} WaitIsBounded(cfg: Config, rows: Rows, rounds: seq<Round>, x: nat, stuck: set<nat>)
    requires x in rows && PollingRounds(cfg, rows, rounds, x, stuck) && Passed(rounds, x)
    ensures var after, free := AfterRounds(cfg, rows, rounds), cfg.BatchSize() - |Ahead(rows, x) * stuck|;
            && x in after && after[x] == rows[x]
            && Ahead(after, x) * stuck == Ahead(rows, x) * stuck
            && |Ahead(after, x) - stuck| + |rounds| * free <= |Ahead(rows, x) - stuck|
  {
    hide AtOnce, Ahead, PollingRound, Config.BatchSize;
    if rounds != [] {
      var pre, last := rounds[..|rounds| - 1], rounds[|rounds| - 1];
      assert forall k :: 0 <= k < |pre| ==> pre[k] == rounds[k];
      WaitIsBounded(cfg, rows, pre, x, stuck);
      PassingShrinks(cfg, AfterRounds(cfg, rows, pre), last, x, stuck);
      var free := cfg.BatchSize() - |Ahead(rows, x) * stuck|;
      assert |rounds| * free == |pre| * free + free;
    }
  }

  /** A stale payment is polled within n / f + 1 batches, if at most n other rows are ahead
      of it and the stuck ones among them leave f > 0 places of each batch. */
  lemma PolledInTime(cfg: Config, rows: Rows, rounds: seq<Round>, x: nat, stuck: set<nat>)
    requires x in rows && PollingRounds(cfg, rows, rounds, x, stuck)
    requires |rounds| * (cfg.BatchSize() - |Ahead(rows, x) * stuck|) > |Ahead(rows, x) - stuck|
    ensures !Passed(rounds, x)
  {
    hide Ahead, PollingRounds, Config.BatchSize, Passed;
    if Passed(rounds, x) {
      WaitIsBounded(cfg, rows, rounds, x, stuck);
      assert false;
    }
  }

  /** It is never polled, if the stuck rows strictly ahead of it fill a batch. */
  lemma {:induction false} NeverPolled(cfg: Config, rows: Rows, rounds: seq<Round>, x: nat, stuck: set<nat>)
    requires x in rows && PollingRounds(cfg, rows, rounds, x, stuck)
    requires |StrictlyAhead(rows, x) * stuck| >= cfg.BatchSize()
    ensures Passed(rounds, x)
    ensures var after := AfterRounds(cfg, rows, rounds);
            x in after && after[x] == rows[x] && StrictlyAhead(after, x) * stuck == StrictlyAhead(rows, x) * stuck
  {
    hide AtOnce, StrictlyAhead, PollingRound, Config.BatchSize;
    if rounds != [] {
      var pre, last := rounds[..|rounds| - 1], rounds[|rounds| - 1];
      NeverPolled(cfg, rows, pre, x, stuck);
      FullRoundPasses(cfg, AfterRounds(cfg, rows, pre), last, x, stuck);
      StuckStay(cfg, AfterRounds(cfg, rows, pre), last, x, stuck);
      assert forall k :: 0 <= k < |pre| ==> pre[k] == rounds[k];
    }
  }

  lemma FullRoundPasses(cfg: Config, rows: Rows, r: Round, x: nat, stuck: set<nat>)
    requires PollingRound(cfg, rows, r, x, stuck)
    requires |StrictlyAhead(rows, x) * stuck| >= cfg.BatchSize()
    ensures x !in r.ids
  {
    hide RowAfter, IsSelection, DueForReconcile, Config.BatchSize;
    var before := r.b.now - cfg.reconcileStaleAfter;
    AheadIsNotAfter(cfg, rows, x, before);
    SubsetSize(StrictlyAhead(rows, x) * stuck, StrictlyAhead(rows, x));
    PickedExactly(rows, ReconcileDue(before), ByUpdate(), cfg.BatchSize(), r.ids, x);
  }

  lemma SilentRoundPolls(cfg: Config, p: Payment, q: Payment, now: int)
    requires cfg.BatchSize() == 1 && p.id == 1 && q.id == 2 && p.updatedAt < q.updatedAt
    requires p.provider == STRIPE
    requires DueForReconcile(p, now - cfg.reconcileStaleAfter) && DueForReconcile(q, now - cfg.reconcileStaleAfter)
    ensures PollingRound(cfg, map[1 := p, 2 := q], Round([1], Silent(now)), 2, {1})
  {
    hide ChangeOf, DueForReconcile, IsSelection, RowAfter, Config.BatchSize;
    SilentRound(cfg, p, q, now);
    SilentIsInert(cfg, p, now);
    InertStays(cfg, p, Silent(now));
  }

  /** The silent provider is such a run: with the older payment stuck, NeverPolled applies. */
  lemma {:induction false} SilentProviderPolls(cfg: Config, p: Payment, q: Payment, now: int, n: nat)
    requires cfg.BatchSize() == 1 && p.id == 1 && q.id == 2 && p.updatedAt < q.updatedAt
    requires p.provider == STRIPE
    requires DueForReconcile(p, now - cfg.reconcileStaleAfter) && DueForReconcile(q, now - cfg.reconcileStaleAfter)
    ensures PollingRounds(cfg, map[1 := p, 2 := q], Repeat(Round([1], Silent(now)), n), 2, {1})
  {
    hide DueForReconcile, PollingRound, AtOnce, Silent, StarvingRounds, Passed;
    var r := Round([1], Silent(now));
    if n > 0 {
      SilentProviderPolls(cfg, p, q, now, n - 1);
      SilentProviderStarves(cfg, p, q, now, n - 1);
      SilentRoundPolls(cfg, p, q, now);
      assert Repeat(r, n)[..n - 1] == Repeat(r, n - 1);
    }
  }

  /** The rows that a reconcile batch resolves stop waiting: a poll that leads to a landed
      write makes a reachable row terminal. */
  lemma ResolvedStopsWaiting(cfg: Config, p: Payment, b: Batch)
    requires RowInv(cfg, p) && Waiting(p) && b.cause(p.id).Reconcile? && b.fault(p.id).write.None?
    requires ChangeOf(cfg, p, b.cause(p.id), b.now).Write?
    ensures !Waiting(RowAfter(cfg, p, b))
  {
    hide RowInv, ReconcileChange;
    ReconcileKeepsRowInv(cfg, p, b.cause(p.id).reply, b.now);
  }

  // ----- Draining by reconcile -----

  /** A reconcile batch whose polls all lead to a landed write. */
  ghost predicate ReconcileRound(cfg: Config, rows: Rows, r: Round, now: int) {
    && r.b.now == now
    && IsSelection(rows, ReconcileDue(now - cfg.reconcileStaleAfter), ByUpdate(), cfg.BatchSize(), r.ids)
    && forall id :: id in r.ids ==>
         r.b.cause(id).Reconcile? && r.b.fault(id).write.None? && ChangeOf(cfg, rows[id], r.b.cause(id), now).Write?
  }

  ghost predicate ReconcileRounds(cfg: Config, rows: Rows, rounds: seq<Round>, now: int) {
    rounds != [] ==>
      var pre := rounds[..|rounds| - 1];
      && ReconcileRounds(cfg, rows, pre, now)
      && ReconcileRound(cfg, AfterRounds(cfg, rows, pre), rounds[|rounds| - 1], now)
  }

  ghost predicate GoodRows(cfg: Config, rows: Rows) {
    forall id :: id in rows ==> rows[id].id == id && RowInv(cfg, rows[id])
  }

  lemma ReconcileDrains(cfg: Config, rows: Rows, r: Round, now: int)
    requires GoodRows(cfg, rows) && ReconcileRound(cfg, rows, r, now)
    ensures var after, due := AtOnce(cfg, rows, r.ids, r.b), ReconcileDue(now - cfg.reconcileStaleAfter);
            && GoodRows(cfg, after)
            && |DueSet(after, due)| == |DueSet(rows, due)| - Min(|DueSet(rows, due)|, cfg.BatchSize())
  {
    hide RowInv, ChangeOf, Config.BatchSize;
    var due := ReconcileDue(now - cfg.reconcileStaleAfter);
    forall id | id in r.ids
      ensures id in rows && !due(RowAfter(cfg, rows[id], r.b))
      ensures RowAfter(cfg, rows[id], r.b).id == id && RowInv(cfg, RowAfter(cfg, rows[id], r.b))
    {
      ResolvedStopsWaiting(cfg, rows[id], r.b);
      ChangeKeepsRowInv(cfg, rows[id], r.b.cause(id), now);
    }
    DueSetShrinks(cfg, rows, due, ByUpdate(), cfg.BatchSize(), r.ids, r.b);
  }

  /** r reconcile batches at the same time whose polls all yield a new status leave exactly
      max(0, n - r * size) stale rows. */
  lemma {:induction false} ReconcileBatchesDrain(cfg: Config, rows: Rows, rounds: seq<Round>, now: int)
    requires GoodRows(cfg, rows) && ReconcileRounds(cfg, rows, rounds, now)
    ensures var after, due := AfterRounds(cfg, rows, rounds), ReconcileDue(now - cfg.reconcileStaleAfter);
            && GoodRows(cfg, after)
            && |DueSet(after, due)| == Remaining(|DueSet(rows, due)|, cfg.BatchSize(), |rounds|)
  {
    hide AtOnce, ReconcileRound, GoodRows, DueSet, Config.BatchSize;
    if rounds != [] {
      var pre, last := rounds[..|rounds| - 1], rounds[|rounds| - 1];
      ReconcileBatchesDrain(cfg, rows, pre, now);
      ReconcileDrains(cfg, AfterRounds(cfg, rows, pre), last, now);
      RemainingStep(|DueSet(rows, ReconcileDue(now - cfg.reconcileStaleAfter))|, cfg.BatchSize(), |pre|);
    }
  }

  lemma ReconcileRoundPolls(cfg: Config, rows: Rows, r: Round, x: nat, now: int)
    requires GoodRows(cfg, rows) && ReconcileRound(cfg, rows, r, now)
    requires x in rows && DueForReconcile(rows[x], now - cfg.reconcileStaleAfter)
    ensures PollingRound(cfg, rows, r, x, {})
  {
    hide RowInv, ChangeOf, Config.BatchSize;
    forall id | id in r.ids
      ensures !Waiting(RowAfter(cfg, rows[id], r.b))
    {
      ResolvedStopsWaiting(cfg, rows[id], r.b);
    }
  }

  lemma {:induction false} ReconcileRoundsPoll(cfg: Config, rows: Rows, rounds: seq<Round>, x: nat, now: int)
    requires GoodRows(cfg, rows) && ReconcileRounds(cfg, rows, rounds, now)
    requires x in rows && DueForReconcile(rows[x], now - cfg.reconcileStaleAfter)
    ensures PollingRounds(cfg, rows, rounds, x, {})
  {
    hide AtOnce, ReconcileRound, PollingRound, GoodRows, Ahead, Passed, DueForReconcile, Config.BatchSize;
    if rounds != [] {
      var pre := rounds[..|rounds| - 1];
      ReconcileRoundsPoll(cfg, rows, pre, x, now);
      if Passed(pre, x) {
        WaitIsBounded(cfg, rows, pre, x, {});
        ReconcileBatchesDrain(cfg, rows, pre, now);
        ReconcileRoundPolls(cfg, AfterRounds(cfg, rows, pre), rounds[|rounds| - 1], x, now);
      }
    }
  }

  /** If every poll yields a new status, a due row is polled as soon as there have been
      enough batches for the due rows that can come before it. */
  lemma ReconciledInTime(cfg: Config, rows: Rows, rounds: seq<Round>, x: nat, now: int)
    requires GoodRows(cfg, rows) && ReconcileRounds(cfg, rows, rounds, now)
    requires x in rows && DueForReconcile(rows[x], now - cfg.reconcileStaleAfter)
    requires |rounds| * cfg.BatchSize() > |NotAfter(rows, ReconcileDue(now - cfg.reconcileStaleAfter), ByUpdate(), x)|
    ensures !Passed(rounds, x)
  {
    hide GoodRows, ReconcileRounds, PollingRounds, Passed, Config.BatchSize;
    ReconcileRoundsPoll(cfg, rows, rounds, x, now);
    AheadIsNotAfter(cfg, rows, x, now - cfg.reconcileStaleAfter);
    var ahead := Ahead(rows, x);
    assert ahead * {} == {} && ahead - {} == ahead;
    PolledInTime(cfg, rows, rounds, x, {});
  }
}
