/** Exactly when a stale payment is eventually polled, whatever its update time shares
    with others: in every run of enough batches, or in some. */
module Eventually {
  import opened Basics
  import opened Entity
  import opened Stripe
  import opened Lifecycle
  import opened Table
  import opened Serial
  import opened Batches
  import opened Fairness

  /** Polls that fail for the stuck rows and report expiry for all others. */
  function Sorting(now: int, stuck: set<nat>): Batch {
    Batch(
      now,
      (id: nat) => Reconcile(if id in stuck then PollError(Other("poll failed")) else Session("expired", "")),
      (id: nat) => Fault(None, false))
  }

  lemma StuckRowStays(cfg: Config, p: Payment, now: int, stuck: set<nat>)
    requires RowInv(cfg, p) && Waiting(p) && p.id in stuck
    ensures RowAfter(cfg, p, Sorting(now, stuck)) == p
  {
    hide DeliveryInv, TrimSpace;
    TrimSpaceIdempotent(p.providerPaymentID.value);
  }

  lemma OtherRowResolves(cfg: Config, p: Payment, now: int, stuck: set<nat>)
    requires RowInv(cfg, p) && Waiting(p) && p.id !in stuck
    ensures ChangeOf(cfg, p, Sorting(now, stuck).cause(p.id), now).Write?
    ensures !Waiting(RowAfter(cfg, p, Sorting(now, stuck)))
  {
    hide DeliveryInv, TrimSpace;
    TrimSpaceIdempotent(p.providerPaymentID.value);
  }

  lemma SortedRow(cfg: Config, p: Payment, now: int, stuck: set<nat>)
    requires RowInv(cfg, p) && DueForReconcile(p, now - cfg.reconcileStaleAfter)
    ensures var q := RowAfter(cfg, p, Sorting(now, stuck));
            && (if p.id in stuck then q == p else !Waiting(q))
            && q.id == p.id && RowInv(cfg, q)
  {
    hide RowInv, ChangeOf, RowAfter;
    if p.id in stuck {
      StuckRowStays(cfg, p, now, stuck);
    } else {
      OtherRowResolves(cfg, p, now, stuck);
      ResolvedIsGood(cfg, p, Sorting(now, stuck));
    }
  }

  lemma ResolvedIsGood(cfg: Config, p: Payment, b: Batch)
    requires RowInv(cfg, p) && Selected(cfg, p, b.cause(p.id), b.now)
    ensures RowAfter(cfg, p, b).id == p.id && RowInv(cfg, RowAfter(cfg, p, b))
  {
    hide RowInv, ChangeOf, Selected;
    ChangeKeepsRowInv(cfg, p, b.cause(p.id), b.now);
  }

  /** A batch of such polls in which ties are broken by `fine`. */
  lemma SortingRound(cfg: Config, rows: Rows, x: nat, stuck: set<nat>, now: int, fine: Payment -> int)
    returns (r: Round)
    requires GoodRows(cfg, rows) && x in rows && DueForReconcile(rows[x], now - cfg.reconcileStaleAfter)
    requires forall p, q :: fine(p) <= fine(q) ==> p.updatedAt <= q.updatedAt
    ensures IsSelection(rows, ReconcileDue(now - cfg.reconcileStaleAfter), fine, cfg.BatchSize(), r.ids)
    ensures r.b.now == now && PollingRound(cfg, rows, r, x, stuck) && GoodRows(cfg, AtOnce(cfg, rows, r.ids, r.b))
  {
    hide RowInv, RowAfter, DueForReconcile, Config.BatchSize;
    var due := ReconcileDue(now - cfg.reconcileStaleAfter);
    var ids := SelectionExists(rows, due, fine, cfg.BatchSize());
    RefinedSelection(rows, due, ByUpdate(), fine, cfg.BatchSize(), ids);
    r := Round(ids, Sorting(now, stuck));
    forall id | id in rows && due(rows[id])
      ensures var q := RowAfter(cfg, rows[id], r.b);
              (if id in stuck then q == rows[id] else !Waiting(q)) && q.id == id && RowInv(cfg, q)
    {
      SortedRow(cfg, rows[id], now, stuck);
    }
  }

  // ----- In every run -----

  /** Ties broken against x, a batch of stuck rows ahead of it keeps it out. */
  lemma UnluckyRound(cfg: Config, rows: Rows, x: nat, stuck: set<nat>, now: int) returns (r: Round)
    requires GoodRows(cfg, rows) && x in rows && DueForReconcile(rows[x], now - cfg.reconcileStaleAfter)
    requires |Ahead(rows, x) * stuck| >= cfg.BatchSize()
    ensures PollingRound(cfg, rows, r, x, stuck) && x !in r.ids && GoodRows(cfg, AtOnce(cfg, rows, r.ids, r.b))
  {
    hide GoodRows, PollingRound, IsSelection, DueForReconcile, AtOnce, Config.BatchSize;
    var before := now - cfg.reconcileStaleAfter;
    var fine := Disfavouring(ByUpdate(), x);
    r := SortingRound(cfg, rows, x, stuck, now, fine);
    AheadIsNotAfter(cfg, rows, x, before);
    DisfavouredBefore(cfg, rows, x, before);
    SubsetSize(Ahead(rows, x) * stuck, Ahead(rows, x));
    PickedExactly(rows, ReconcileDue(before), fine, cfg.BatchSize(), r.ids, x);
  }

  lemma DisfavouredBefore(cfg: Config, rows: Rows, x: nat, before: int)
    requires GoodRows(cfg, rows) && x in rows
    ensures var due := ReconcileDue(before);
            Before(rows, due, Disfavouring(ByUpdate(), x), x) == NotAfter(rows, due, ByUpdate(), x)
  {
    hide RowInv, DueForReconcile;
  }

  lemma {:induction false} UnluckyRun(cfg: Config, rows: Rows, x: nat, stuck: set<nat>, now: int, n: nat)
    returns (rounds: seq<Round>)
    requires GoodRows(cfg, rows) && x in rows && DueForReconcile(rows[x], now - cfg.reconcileStaleAfter)
    requires |Ahead(rows, x) * stuck| >= cfg.BatchSize()
    ensures |rounds| == n && PollingRounds(cfg, rows, rounds, x, stuck) && Passed(rounds, x)
    ensures GoodRows(cfg, AfterRounds(cfg, rows, rounds))
  {
    hide GoodRows, PollingRound, DueForReconcile, AtOnce, Ahead, Config.BatchSize;
    rounds := [];
    if n > 0 {
      var pre := UnluckyRun(cfg, rows, x, stuck, now, n - 1);
      WaitIsBounded(cfg, rows, pre, x, stuck);
      var r := UnluckyRound(cfg, AfterRounds(cfg, rows, pre), x, stuck, now);
      rounds := pre + [r];
      assert rounds[..|rounds| - 1] == pre;
    }
  }

  /** A stale payment is polled in every run of enough batches, exactly if the stuck rows
      that can come before it leave a place in a batch. */
  lemma AlwaysPolledExactly(cfg: Config, rows: Rows, x: nat, stuck: set<nat>, now: int, n: nat)
    requires GoodRows(cfg, rows) && x in rows && DueForReconcile(rows[x], now - cfg.reconcileStaleAfter)
    requires n > |Ahead(rows, x) - stuck|
    ensures (forall rounds :: |rounds| == n && PollingRounds(cfg, rows, rounds, x, stuck) ==> !Passed(rounds, x))
        <==> |Ahead(rows, x) * stuck| < cfg.BatchSize()
  {
    hide GoodRows, PollingRounds, DueForReconcile, Ahead, Config.BatchSize, Passed;
    var free := cfg.BatchSize() - |Ahead(rows, x) * stuck|;
    if free > 0 {
      forall rounds | |rounds| == n && PollingRounds(cfg, rows, rounds, x, stuck)
        ensures !Passed(rounds, x)
      {
        assert n * free >= n;
        PolledInTime(cfg, rows, rounds, x, stuck);
      }
    } else {
      var rounds := UnluckyRun(cfg, rows, x, stuck, now, n);
    }
  }

  // ----- In some run -----

  /** Ties broken for x, only rows strictly ahead of it are polled while it is passed over. */
  lemma LuckyRound(cfg: Config, rows: Rows, x: nat, stuck: set<nat>, now: int) returns (r: Round)
    requires GoodRows(cfg, rows) && x in rows && DueForReconcile(rows[x], now - cfg.reconcileStaleAfter)
    ensures PollingRound(cfg, rows, r, x, stuck)
    ensures var after := AtOnce(cfg, rows, r.ids, r.b);
            x !in r.ids ==>
              && GoodRows(cfg, after) && x in after && after[x] == rows[x]
              && StrictlyAhead(after, x) * stuck == StrictlyAhead(rows, x) * stuck
              && |StrictlyAhead(after, x) - stuck| + cfg.BatchSize()
                   <= |StrictlyAhead(rows, x) - stuck| + |StrictlyAhead(rows, x) * stuck|
  {
    hide GoodRows, PollingRound, IsSelection, DueForReconcile, AtOnce, StrictlyAhead, Config.BatchSize;
    var before := now - cfg.reconcileStaleAfter;
    var fine := Favouring(ByUpdate(), x);
    r := SortingRound(cfg, rows, x, stuck, now, fine);
    if x !in r.ids {
      PassingPollsAhead(rows, ReconcileDue(before), fine, cfg.BatchSize(), r.ids, x);
      AheadIsNotAfter(cfg, rows, x, before);
      FavouredNotAfter(cfg, rows, x, before);
      StuckStay(cfg, rows, r, x, stuck);
      StrictlyAheadShrinks(cfg, rows, r, x, stuck);
      RoundIsDistinct(cfg, rows, r, x, stuck);
      ShrinkBy(StrictlyAhead(rows, x), IdSet(r.ids), stuck);
    }
  }

  lemma FavouredNotAfter(cfg: Config, rows: Rows, x: nat, before: int)
    requires GoodRows(cfg, rows) && x in rows
    ensures var due := ReconcileDue(before);
            NotAfter(rows, due, Favouring(ByUpdate(), x), x) == Before(rows, due, ByUpdate(), x)
  {
    hide RowInv, DueForReconcile;
  }

  lemma StrictlyAheadShrinks(cfg: Config, rows: Rows, r: Round, x: nat, stuck: set<nat>)
    requires PollingRound(cfg, rows, r, x, stuck) && x !in r.ids
    ensures var after := AtOnce(cfg, rows, r.ids, r.b);
            x in after && StrictlyAhead(after, x) == StrictlyAhead(rows, x) - (IdSet(r.ids) - stuck)
  {
    hide RowAfter, IsSelection, DueForReconcile;
  }

  lemma {:induction false} LuckyRun(cfg: Config, rows: Rows, x: nat, stuck: set<nat>, now: int, n: nat)
    returns (rounds: seq<Round>)
    requires GoodRows(cfg, rows) && x in rows && DueForReconcile(rows[x], now - cfg.reconcileStaleAfter)
    ensures |rounds| == n && PollingRounds(cfg, rows, rounds, x, stuck)
    ensures var after, free := AfterRounds(cfg, rows, rounds), cfg.BatchSize() - |StrictlyAhead(rows, x) * stuck|;
            Passed(rounds, x) ==>
              && GoodRows(cfg, after) && x in after && after[x] == rows[x]
              && StrictlyAhead(after, x) * stuck == StrictlyAhead(rows, x) * stuck
              && |StrictlyAhead(after, x) - stuck| + n * free <= |StrictlyAhead(rows, x) - stuck|
  {
    hide GoodRows, PollingRound, DueForReconcile, AtOnce, StrictlyAhead, Config.BatchSize;
    rounds := [];
    if n > 0 {
      var pre := LuckyRun(cfg, rows, x, stuck, now, n - 1);
      var r := Round([], Sorting(now, stuck));
      if Passed(pre, x) {
        r := LuckyRound(cfg, AfterRounds(cfg, rows, pre), x, stuck, now);
        var free := cfg.BatchSize() - |StrictlyAhead(rows, x) * stuck|;
        assert n * free == (n - 1) * free + free;
      }
      rounds := pre + [r];
      assert rounds[..|rounds| - 1] == pre;
      assert forall k :: 0 <= k < |pre| ==> rounds[k] == pre[k];
      assert rounds[n - 1] == r;
    }
  }

  /** It is polled in some run of enough batches, exactly if the stuck rows that must come
      before it leave a place in a batch. */
  lemma SometimesPolledExactly(cfg: Config, rows: Rows, x: nat, stuck: set<nat>, now: int, n: nat)
    requires GoodRows(cfg, rows) && x in rows && DueForReconcile(rows[x], now - cfg.reconcileStaleAfter)
    requires n > |StrictlyAhead(rows, x) - stuck|
    ensures (exists rounds :: |rounds| == n && PollingRounds(cfg, rows, rounds, x, stuck) && !Passed(rounds, x))
        <==> |StrictlyAhead(rows, x) * stuck| < cfg.BatchSize()
  {
    hide GoodRows, PollingRounds, DueForReconcile, StrictlyAhead, Config.BatchSize, Passed;
    var free := cfg.BatchSize() - |StrictlyAhead(rows, x) * stuck|;
    if free > 0 {
      var rounds := LuckyRun(cfg, rows, x, stuck, now, n);
      assert n * free >= n;
    } else {
      forall rounds | |rounds| == n && PollingRounds(cfg, rows, rounds, x, stuck)
        ensures Passed(rounds, x)
      {
        NeverPolled(cfg, rows, rounds, x, stuck);
      }
    }
  }
}
