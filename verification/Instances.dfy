/** Concrete runs and inputs on which expected properties fail. */
module Instances {
  import opened Basics
  import opened Entity
  import opened Stripe
  import opened Lifecycle
  import opened Serial
  import opened Batches
  import Budget
  import Outcomes
  import opened Signature

  const FINE := Fault(None, false)

  /** A one-time payment of one cent. */
  function Sample(requestID: string): CreateRequest {
    CreateRequest(requestID, "shop", "order", "1", "", 1, "EUR", HOSTED_CARD, ONE_TIME, STRIPE, "", 0, "u", map[])
  }

  lemma SampleIsValid(requestID: string)
    requires requestID != "" && TrimSpace(requestID) == requestID
    ensures ValidRequest(Sample(requestID))
  {
    hide TrimSpace;
    TrimFixes("shop");
    TrimFixes("order");
    TrimFixes("1");
    TrimFixes("EUR");
    TrimFixes("u");
  }

  function CreateSample(requestID: string, hash: string, now: int): Op {
    Create(Sample(requestID), hash, "url", CreateReply("cs", "", ""), now, FINE)
  }

  /** The columns of a created sample that the instances look at. */
  lemma SampleRow(cfg: Config, requestID: string, hash: string, now: int)
    requires requestID != "" && TrimSpace(requestID) == requestID
    ensures var row := CreatedRow(CreateSample(requestID, hash, now));
            && row.status == PENDING && row.providerPaymentID == Some("cs") && row.updatedAt == row.createdAt == now
            && row.requestID == requestID && row.callbackHash == hash && row.provider == STRIPE && RowInv(cfg, row)
  {
    hide TrimSpace, RowInv, ValidRequest;
    SampleIsValid(requestID);
    TrimFixes("cs");
    NewRowInv(cfg, Sample(requestID), hash, "url", CreateReply("cs", "", ""), now);
  }

  // ----- A table that starves -----

  /** Two creates, one nanosecond apart. */
  function TwoCreates(): seq<Op> {
    [CreateSample("a", "h", 0), CreateSample("b", "i", 1)]
  }

  lemma TwoRows(cfg: Config)
    ensures var p, q := CreatedRow(CreateSample("a", "h", 0)), CreatedRow(CreateSample("b", "i", 1));
            Run(cfg, EMPTY, TwoCreates()).rows == map[1 := p.(id := 1), 2 := q.(id := 2)]
    ensures forall op :: op in TwoCreates() ==> ValidOp(op)
  {
    hide TrimSpace, RowInv, ValidRequest, CreatedRow;
    TrimFixes("a");
    TrimFixes("b");
    SampleIsValid("a");
    SampleIsValid("b");
    SampleRow(cfg, "a", "h", 0);
    SampleRow(cfg, "b", "i", 1);
    var first, second := CreateSample("a", "h", 0), CreateSample("b", "i", 1);
    assert TwoCreates()[..1] == [first] && [first][..0] == [];
    assert Run(cfg, EMPTY, [first]) == Do(cfg, EMPTY, first);
    assert "a" != "b" && "h" != "i";
  }

  /** Batches just late enough for both payments to be stale. */
  function SilentRounds(cfg: Config, n: nat): (rounds: seq<Round>)
    ensures |rounds| == n
  {
    Repeat(Round([1], Silent(1 + cfg.reconcileStaleAfter)), n)
  }

  /** "Every stale payment is eventually reconciled" fails: two payments created one after
      the other, a batch size of one, and a provider with nothing new to say about the older
      one. In no number of batches is the newer one polled. */
  lemma StarvationReached(cfg: Config, n: nat)
    requires cfg.BatchSize() == 1
    ensures var rows, rounds := Run(cfg, EMPTY, TwoCreates()).rows, SilentRounds(cfg, n);
            && 2 in rows && DueForReconcile(rows[2], 1)
            && StarvingRounds(cfg, rows, rounds, {1})
            && AfterRounds(cfg, rows, rounds) == rows
            && forall k :: 0 <= k < |rounds| ==> rounds[k].b.now == 1 + cfg.reconcileStaleAfter && 2 !in rounds[k].ids
  {
    hide StarvingRounds, AfterRounds, Run, CreatedRow, RowInv, Config.BatchSize, TrimSpace;
    TwoRows(cfg);
    TrimFixes("a");
    TrimFixes("b");
    SampleRow(cfg, "a", "h", 0);
    SampleRow(cfg, "b", "i", 1);
    var p, q := CreatedRow(CreateSample("a", "h", 0)).(id := 1), CreatedRow(CreateSample("b", "i", 1)).(id := 2);
    SilentProviderStarves(cfg, p, q, 1 + cfg.reconcileStaleAfter, n);
  }

  // ----- A cancel that is not a no-op -----

  /** A payment is created, canceled, and its cancellation delivered. */
  function DeliveredCancel(): seq<Op> {
    [CreateSample("a", "h", 0), Touch(1, Cancel, 0, FINE), Touch(1, Dispatch(Response(200)), 0, FINE)]
  }

  lemma CanceledRow(cfg: Config)
    ensures var ops := [CreateSample("a", "h", 0), Touch(1, Cancel, 0, FINE)];
            && (forall op :: op in ops ==> ValidOp(op))
            && DbInv(cfg, Run(cfg, EMPTY, ops))
            && var rows := Run(cfg, EMPTY, ops).rows;
               && 1 in rows && rows[1].status == CANCELED
               && rows[1].delivery == DELIVERY_PENDING && rows[1].nextAt == Some(0)
  {
    hide TrimSpace, RowInv, ValidRequest, CreatedRow;
    TrimFixes("a");
    SampleIsValid("a");
    SampleRow(cfg, "a", "h", 0);
    var create, cancel := CreateSample("a", "h", 0), Touch(1, Cancel, 0, FINE);
    var s1 := Do(cfg, EMPTY, create);
    CreateEffect(cfg, EMPTY, create);
    TouchEffect(cfg, s1, cancel);
    assert [create, cancel] == [] + [create] + [cancel];
    RunAppend(cfg, EMPTY, [], create);
    RunAppend(cfg, EMPTY, [] + [create], cancel);
  }

  lemma DeliveredRow(cfg: Config)
    ensures forall op :: op in DeliveredCancel() ==> ValidOp(op)
    ensures var rows := Run(cfg, EMPTY, DeliveredCancel()).rows;
            1 in rows && rows[1].status == CANCELED && rows[1].delivery == DELIVERY_SUCCESS && rows[1].nextAt == None
  {
    hide RowInv, ValidOp, DispatchChange, Run, CreateSample;
    var ops := [CreateSample("a", "h", 0), Touch(1, Cancel, 0, FINE)];
    var deliver := Touch(1, Dispatch(Response(200)), 0, FINE);
    CanceledRow(cfg);
    assert ValidOp(deliver) by { TouchIsValid(deliver); }
    var s := Run(cfg, EMPTY, ops);
    DeliveryClears(cfg, s.rows[1], 0);
    TouchEffect(cfg, s, deliver);
    assert DeliveredCancel() == ops + [deliver];
    RunAppend(cfg, EMPTY, ops, deliver);
  }

  lemma TouchIsValid(op: Op)
    requires op.Touch?
    ensures ValidOp(op)
  {
  }

  lemma DeliveryClears(cfg: Config, p: Payment, now: int)
    requires RowInv(cfg, p)
    ensures var c := DispatchChange(cfg, p, Response(200), now);
            c.Write? && c.row.nextAt == None && c.row.status == p.status && c.row.delivery == DELIVERY_SUCCESS
  {
    hide DeliveryInv, IsBlank;
  }

  /** "A cancel of a canceled payment changes nothing" fails: a second cancel arms delivery
      again, although the first cancellation has been delivered. */
  lemma SecondCancelRearms(cfg: Config)
    ensures var rows := Run(cfg, EMPTY, DeliveredCancel() + [Touch(1, Cancel, 1, FINE)]).rows;
            1 in rows && rows[1].status == CANCELED && rows[1].delivery == DELIVERY_PENDING && rows[1].nextAt == Some(1)
  {
    hide RowInv, DeliveredCancel, Run, ValidOp;
    DeliveredRow(cfg);
    RunKeepsDbInv(cfg, EMPTY, DeliveredCancel());
    RunAppend(cfg, EMPTY, DeliveredCancel(), Touch(1, Cancel, 1, FINE));
    TouchEffect(cfg, Run(cfg, EMPTY, DeliveredCancel()), Touch(1, Cancel, 1, FINE));
  }

  // ----- Workers at work -----

  /** One more write on the only row. */
  lemma NextRow(cfg: Config, ops: seq<Op>, p: Payment, cause: Cause, now: int)
    requires DbInv(cfg, Run(cfg, EMPTY, ops)) && Run(cfg, EMPTY, ops).rows == map[1 := p]
    requires Selected(cfg, p, cause, now) && ChangeOf(cfg, p, cause, now).Write?
    ensures var more, q := ops + [Touch(1, cause, now, FINE)], ChangeOf(cfg, p, cause, now).row;
            && DbInv(cfg, Run(cfg, EMPTY, more)) && Run(cfg, EMPTY, more).rows == map[1 := q]
            && q.id == 1 && RowInv(cfg, q)
  {
    hide RowInv, ChangeOf, Selected, Run;
    TouchEffect(cfg, Run(cfg, EMPTY, ops), Touch(1, cause, now, FINE));
    RunAppend(cfg, EMPTY, ops, Touch(1, cause, now, FINE));
  }

  /** The row of a payment created at time zero. */
  function FirstRow(): Payment {
    CreatedRow(CreateSample("a", "h", 0)).(id := 1)
  }

  lemma CreatedAlone(cfg: Config)
    ensures var ops, row := [CreateSample("a", "h", 0)], FirstRow();
            && (forall op :: op in ops ==> ValidOp(op))
            && DbInv(cfg, Run(cfg, EMPTY, ops)) && Run(cfg, EMPTY, ops).rows == map[1 := row]
            && row.id == 1 && row.status == PENDING && row.providerPaymentID == Some("cs")
            && row.updatedAt == row.createdAt == 0 && RowInv(cfg, row)
  {
    hide TrimSpace, RowInv, ValidRequest, CreatedRow;
    TrimFixes("a");
    SampleIsValid("a");
    SampleRow(cfg, "a", "h", 0);
    var create := CreateSample("a", "h", 0);
    CreateEffect(cfg, EMPTY, create);
    assert [create] == [] + [create];
    RunAppend(cfg, EMPTY, [], create);
  }

  /** A payment that is never paid expires as soon as the timeout has passed. */
  lemma PendingExpires(cfg: Config)
    ensures var ops := [CreateSample("a", "h", 0), Touch(1, Expire, cfg.pendingTimeout, FINE)];
            var rows := Run(cfg, EMPTY, ops).rows;
            1 in rows && rows[1].status == EXPIRED && rows[1].nextAt == Some(cfg.pendingTimeout)
  {
    hide RowInv, Run, FirstRow, ValidOp, CreateSample;
    CreatedAlone(cfg);
    Outcomes.DueExactly(cfg, FirstRow(), cfg.pendingTimeout);
    Outcomes.ExpireOutcome(cfg, FirstRow(), cfg.pendingTimeout);
    NextRow(cfg, [CreateSample("a", "h", 0)], FirstRow(), Expire, cfg.pendingTimeout);
    assert [CreateSample("a", "h", 0)] + [Touch(1, Expire, cfg.pendingTimeout, FINE)]
        == [CreateSample("a", "h", 0), Touch(1, Expire, cfg.pendingTimeout, FINE)];
  }

  /** A payment whose session is paid is reconciled once it is stale. */
  lemma PaidReconciles(cfg: Config)
    ensures var paid := Reconcile(Session("complete", "paid"));
            var ops := [CreateSample("a", "h", 0), Touch(1, paid, cfg.reconcileStaleAfter, FINE)];
            var rows := Run(cfg, EMPTY, ops).rows;
            1 in rows && rows[1].status == PAID && rows[1].nextAt == Some(cfg.reconcileStaleAfter)
  {
    hide RowInv, Run, FirstRow, ValidOp, CreateSample;
    CreatedAlone(cfg);
    var now, paid := cfg.reconcileStaleAfter, Reconcile(Session("complete", "paid"));
    Outcomes.DueExactly(cfg, FirstRow(), now);
    Outcomes.ReconcileOutcome(cfg, FirstRow(), Session("complete", "paid"), now);
    NextRow(cfg, [CreateSample("a", "h", 0)], FirstRow(), paid, now);
    assert [CreateSample("a", "h", 0)] + [Touch(1, paid, now, FINE)]
        == [CreateSample("a", "h", 0), Touch(1, paid, now, FINE)];
  }

  // ----- A delivery that is tried twice -----

  function Deliver(code: int, now: int): Op {
    Touch(1, Dispatch(Response(code)), now, FINE)
  }

  function CanceledFirst(): seq<Op> {
    [CreateSample("a", "h", 0)] + [Touch(1, Cancel, 0, FINE)]
  }

  function CanceledPayment(): Payment {
    Outcomes.Moved(FirstRow(), CANCELED, 0)
  }

  /** The payment after the endpoint answered with an error once. */
  function RefusedPayment(cfg: Config): Payment {
    Outcomes.FailedRow(cfg, CanceledPayment(), Outcomes.StatusText(500), 0)
  }

  lemma AfterCancel(cfg: Config)
    ensures var db := Run(cfg, EMPTY, CanceledFirst());
            && DbInv(cfg, db) && db.rows == map[1 := CanceledPayment()] && RowInv(cfg, CanceledPayment())
            && CanceledPayment().id == 1 && DueForDispatch(CanceledPayment(), 0) && CanceledPayment().attempts == 0
  {
    hide RowInv, Run, FirstRow, ValidOp, CreateSample, DbInv;
    CreatedAlone(cfg);
    Outcomes.CancelOutcome(cfg, FirstRow(), 0);
    NextRow(cfg, [CreateSample("a", "h", 0)], FirstRow(), Cancel, 0);
  }

  lemma AfterRefusal(cfg: Config)
    ensures var db := Run(cfg, EMPTY, CanceledFirst() + [Deliver(500, 0)]);
            DbInv(cfg, db) && db.rows == map[1 := RefusedPayment(cfg)] && RowInv(cfg, RefusedPayment(cfg))
  {
    hide RowInv, Run, FirstRow, CanceledFirst, DbInv, Outcomes.FailedRow, Outcomes.StatusText;
    AfterCancel(cfg);
    Outcomes.DueExactly(cfg, CanceledPayment(), 0);
    Outcomes.AttemptOutcome(cfg, CanceledPayment(), Response(500), 0);
    NextRow(cfg, CanceledFirst(), CanceledPayment(), Dispatch(Response(500)), 0);
  }

  /** A refused delivery is tried again after the interval if the configuration allows more
      than one attempt, and then succeeds; otherwise it has been given up. */
  lemma RefusedIsRetried(cfg: Config)
    ensures var ops := CanceledFirst() + [Deliver(500, 0)] + [Deliver(200, cfg.RetryInterval())];
            var rows := Run(cfg, EMPTY, ops).rows;
            && 1 in rows && rows[1].status == CANCELED && rows[1].attempts == 1
            && rows[1].delivery == if cfg.MaxAttempts() > 1 then DELIVERY_SUCCESS else DELIVERY_FAILED
  {
    hide RowInv, Run, FirstRow, CanceledFirst, DbInv, Outcomes.StatusText;
    AfterRefusal(cfg);
    var q, now, ops := RefusedPayment(cfg), cfg.RetryInterval(), CanceledFirst() + [Deliver(500, 0)];
    Outcomes.DueExactly(cfg, q, now);
    if cfg.MaxAttempts() > 1 {
      Outcomes.AttemptOutcome(cfg, q, Response(200), now);
      NextRow(cfg, ops, q, Dispatch(Response(200)), now);
    } else {
      NotDueStays(cfg, ops, q, Dispatch(Response(200)), now);
    }
  }

  lemma CountNext(cfg: Config, ops: seq<Op>, op: Op)
    ensures Budget.Count(cfg, EMPTY, ops + [op])
         == Budget.Plus(Budget.Count(cfg, EMPTY, ops), Budget.TallyOf(cfg, Run(cfg, EMPTY, ops), op))
    ensures Budget.Past(cfg, EMPTY, ops + [op])
         == Budget.Recorded(cfg, Run(cfg, EMPTY, ops), Budget.Past(cfg, EMPTY, ops), op)
  {
    hide Run, Budget.TallyOf, Budget.Recorded;
    assert (ops + [op])[..|ops|] == ops;
  }

  /** What one landed write on the only row adds. */
  lemma CountWrite(cfg: Config, ops: seq<Op>, p: Payment, cause: Cause, now: int)
    requires Run(cfg, EMPTY, ops).rows == map[1 := p] && p.id == 1
    requires Selected(cfg, p, cause, now) && ChangeOf(cfg, p, cause, now).Write?
    requires ChangeOf(cfg, p, cause, now).row.id == 1
    ensures var c, more := ChangeOf(cfg, p, cause, now), ops + [Touch(1, cause, now, FINE)];
            var t := Budget.Tally(
              Budget.Bit(Budget.Arms(p, cause, c)),
              Budget.Bit(Budget.Fails(p, cause, c)), Budget.Bit(Budget.Delivers(p, cause, c)));
            && Budget.Count(cfg, EMPTY, more) == Budget.Plus(Budget.Count(cfg, EMPTY, ops), t)
            && Budget.Past(cfg, EMPTY, more) == Budget.Noted(Budget.Past(cfg, EMPTY, ops), p, cause, c, now)
  {
    hide Run, ChangeOf, Selected, Budget.Noted, Budget.Count, Budget.Past, Budget.Arms, Budget.Fails, Budget.Delivers;
    CountNext(cfg, ops, Touch(1, cause, now, FINE));
  }

  lemma CreateContributes(cfg: Config, db: Db, h: Budget.History, op: Op)
    requires op.Create?
    ensures Budget.TallyOf(cfg, db, op) == Budget.Tally(0, 0, 0) && Budget.Recorded(cfg, db, h, op) == h
  {
  }

  lemma CreateCountsNothing(cfg: Config, db: Db, op: Op)
    requires op.Create?
    ensures Budget.Count(cfg, db, [op]) == Budget.Tally(0, 0, 0)
    ensures Budget.Past(cfg, db, [op]) == Budget.History(map[], map[])
  {
    hide Run, Budget.TallyOf, Budget.Recorded;
    assert [op][..0] == [];
    CreateContributes(cfg, Run(cfg, db, []), Budget.History(map[], map[]), op);
  }

  lemma CancelContributes(cfg: Config, p: Payment)
    requires p.id == 1 && p.status == PENDING
    ensures var c := ChangeOf(cfg, p, Cancel, 0);
            && c.Write? && c.row.id == 1
            && Budget.Arms(p, Cancel, c) && !Budget.Fails(p, Cancel, c) && !Budget.Delivers(p, Cancel, c)
            && Budget.Noted(Budget.History(map[], map[]), p, Cancel, c, 0) == Budget.History(map[1 := 0], map[])
  {
  }

  lemma SampleIsCreate()
    ensures CreateSample("a", "h", 0).Create?
  {
  }

  lemma CountCancel(cfg: Config)
    ensures Budget.Count(cfg, EMPTY, CanceledFirst()) == Budget.Tally(1, 0, 0)
    ensures Budget.Past(cfg, EMPTY, CanceledFirst()) == Budget.History(map[1 := 0], map[])
  {
    hide Run, RowInv, FirstRow, CreateSample, DbInv, ChangeOf, Budget.Count, Budget.Past, Budget.Noted, Budget.Arms,
      Budget.Fails, Budget.Delivers;
    CreatedAlone(cfg);
    SampleIsCreate();
    CreateCountsNothing(cfg, EMPTY, CreateSample("a", "h", 0));
    CancelContributes(cfg, FirstRow());
    CountWrite(cfg, [CreateSample("a", "h", 0)], FirstRow(), Cancel, 0);
  }

  lemma RefusalContributes(cfg: Config, p: Payment)
    requires RowInv(cfg, p) && DueForDispatch(p, 0) && p.id == 1 && p.attempts == 0
    ensures var refused := Dispatch(Response(500));
            var c, h := ChangeOf(cfg, p, refused, 0), Budget.History(map[1 := 0], map[]);
            && c.Write? && c.row.id == 1
            && !Budget.Arms(p, refused, c) && Budget.Fails(p, refused, c) && !Budget.Delivers(p, refused, c)
            && Budget.Noted(h, p, refused, c, 0)
                 == Budget.History(map[1 := 0], if cfg.MaxAttempts() > 1 then map[] else map[1 := 0])
  {
    hide RowInv, DispatchChange, Config.MaxAttempts, IsBlank;
    Outcomes.AttemptOutcome(cfg, p, Response(500), 0);
    Budget.RowCounts(cfg, p, Dispatch(Response(500)), 0);
    DispatchKeepsRowInv(cfg, p, Response(500), 0);
    DispatchOutcome(cfg, p, Response(500), 0);
  }

  lemma CountRefusal(cfg: Config)
    ensures var ops := CanceledFirst() + [Deliver(500, 0)];
            && Budget.Count(cfg, EMPTY, ops) == Budget.Tally(1, 1, 0)
            && Budget.Past(cfg, EMPTY, ops)
                 == Budget.History(map[1 := 0], if cfg.MaxAttempts() > 1 then map[] else map[1 := 0])
  {
    hide Run, RowInv, CanceledPayment, CanceledFirst, DbInv, ChangeOf, Budget.Count, Budget.Past, Budget.Noted,
      Budget.Arms, Budget.Fails, Budget.Delivers, DueForDispatch;
    AfterCancel(cfg);
    CountCancel(cfg);
    RefusalContributes(cfg, CanceledPayment());
    CountWrite(cfg, CanceledFirst(), CanceledPayment(), Dispatch(Response(500)), 0);
  }

  lemma NotArming(p: Payment, cause: Cause, c: Change)
    requires cause.Dispatch?
    ensures !Budget.Arms(p, cause, c)
    ensures Budget.Delivers(p, cause, c) ==> Accepted(cause.attempt)
  {
  }

  /** Both attempts of such a delivery are counted against its one arming, and the arming
      and the giving up are noted with their times. */
  lemma RetryIsCounted(cfg: Config)
    requires cfg.MaxAttempts() > 1
    ensures var ops := CanceledFirst() + [Deliver(500, 0)] + [Deliver(200, cfg.RetryInterval())];
            && Budget.Count(cfg, EMPTY, ops) == Budget.Tally(1, 1, 1)
            && Budget.Past(cfg, EMPTY, ops) == Budget.History(map[1 := 0], map[])
  {
    hide Run, RowInv, FirstRow, CanceledFirst, Budget.Count, Budget.Past, DbInv, Outcomes.StatusText;
    AfterRefusal(cfg);
    CountRefusal(cfg);
    var q, now, ops := RefusedPayment(cfg), cfg.RetryInterval(), CanceledFirst() + [Deliver(500, 0)];
    Outcomes.DueExactly(cfg, q, now);
    Outcomes.AttemptOutcome(cfg, q, Response(200), now);
    NextRow(cfg, ops, q, Dispatch(Response(200)), now);
    Budget.RowCounts(cfg, q, Dispatch(Response(200)), now);
    CountWrite(cfg, ops, q, Dispatch(Response(200)), now);
    NotArming(q, Dispatch(Response(200)), ChangeOf(cfg, q, Dispatch(Response(200)), now));
  }

  lemma NotDueStays(cfg: Config, ops: seq<Op>, p: Payment, cause: Cause, now: int)
    requires Run(cfg, EMPTY, ops).rows == map[1 := p] && !Selected(cfg, p, cause, now)
    ensures Run(cfg, EMPTY, ops + [Touch(1, cause, now, FINE)]).rows == map[1 := p]
  {
    hide ChangeOf, Selected, Run;
    RunAppend(cfg, EMPTY, ops, Touch(1, cause, now, FINE));
  }

  // ----- A stamp that the window misjudges -----

  /** The header that a sender builds: a stamp and one signature. */
  function Header(mac: Mac, payload: string, secret: string, ts: int64): string {
    "t=" + Decimal(ts) + ",v1=" + EncodeHex(mac(secret, Decimal(ts) + "." + payload))
  }

  predicate Plain(s: string) {
    forall k :: 0 <= k < |s| ==> '0' <= s[k] <= '9' || 'a' <= s[k] <= 'f' || s[k] == '-'
  }

  lemma PlainText(s: string)
    requires Plain(s)
    ensures TrimSpace(s) == s && ',' !in s
  {
    TrimFixes(s);
  }

  lemma {:induction false} HexIsPlain(b: seq<byte>)
    ensures Plain(EncodeHex(b)) && ToLower(EncodeHex(b)) == EncodeHex(b)
  {
    if b != [] {
      HexIsPlain(b[1..]);
      var s := EncodeHex(b);
      assert s[2..] == EncodeHex(b[1..]);
      LowerPair(s);
      assert ToLower([s[0]]) == [s[0]] && ToLower([s[1]]) == [s[1]] by {
        assert [s[0]][1..] == "" && [s[1]][1..] == "";
      }
      assert s == [s[0]] + ([s[1]] + s[2..]);
    }
  }

  /** A header built by a holder of the secret passes exactly when its stamp is in the
      window. */
  lemma GenuineHeaderPasses(mac: Mac, payload: string, secret: string, ts: int64, tolerance: int64, now: int64)
    requires !IsBlank(secret)
    ensures Accepts(mac, payload, Header(mac, payload, secret, ts), secret, tolerance, now)
        <==> InWindow(now, ts, tolerance)
  {
    hide TrimSpace, Accepts, InWindow, ParseInt64, EncodeHex, Decimal, ToLower;
    var digest := mac(secret, Decimal(ts) + "." + payload);
    var stamp, signature := Stamp("", "", Decimal(ts), ""), V1("", "", EncodeHex(digest), "");
    var parts := [stamp, signature];
    DecimalIsPlain(ts);
    HexIsPlain(digest);
    PlainText(Decimal(ts));
    PlainText(EncodeHex(digest));
    HeaderRoundTrip(mac, payload, parts, secret, tolerance, now);
    ParseOfDecimal(ts);
    HeaderOfParts(Decimal(ts), EncodeHex(digest));
    assert LastStamp(parts) == Decimal(ts) by {
      assert parts[..1] == [stamp];
    }
    assert parts[1].V1?;
  }

  lemma DecimalIsPlain(ts: int64)
    ensures Plain(Decimal(ts))
  {
  }

  lemma HeaderOfParts(ts: string, hex: string)
    ensures JoinParts(Rendered([Stamp("", "", ts, ""), V1("", "", hex, "")])) == "t=" + ts + ",v1=" + hex
  {
    var parts := [Stamp("", "", ts, ""), V1("", "", hex, "")];
    assert parts[..1] == [Stamp("", "", ts, "")] && parts[..1][..0] == [];
    assert Render(parts[0]) == "t=" + ts && Render(parts[1]) == "v1=" + hex;
    assert Rendered(parts) == ["t=" + ts, "v1=" + hex];
    assert Rendered(parts)[1..] == ["v1=" + hex];
    assert ("t=" + ts) + "," + ("v1=" + hex) == "t=" + ts + ",v1=" + hex;
  }

  /** "Only stamps within the tolerance pass" fails: at any time a signed header that is
      2^63 seconds old passes, whatever the tolerance. */
  lemma AncientHeaderPasses(mac: Mac, payload: string, secret: string, tolerance: int64, now: int64)
    requires !IsBlank(secret) && now >= 0 && tolerance > 0
    ensures var ts := now - INT64_LIMIT;
            && -INT64_LIMIT <= ts && Distance(now, ts) > tolerance
            && Accepts(mac, payload, Header(mac, payload, secret, ts), secret, tolerance, now)
  {
    hide TrimSpace, Accepts, Header;
    var ts := now - INT64_LIMIT;
    GenuineHeaderPasses(mac, payload, secret, ts, tolerance, now);
    WindowExact(now, ts, tolerance);
  }
}
