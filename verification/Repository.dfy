/** The repositories over the three tables, and the mutable in-memory payment that the
    service reads from and writes back to them. */
module Repository {
  import opened Basics
  import opened Entity
  import opened Table
  import opened Batches
  import opened Columns
  import opened Query

  /** A payment in memory: the struct that finders fill and the service updates in place.
      `loaded` holds the fields as they were filled in; those that some code assigns
      afterwards are fields of their own. */
  class PaymentRecord {
    const loaded: Payment
    var id: nat
    var status: int
    var providerPaymentID: Option<string>
    var providerSubscriptionID: Option<string>
    var delivery: int
    var attempts: int32
    var nextAt: Option<int>
    var lastErr: Option<string>
    var updatedAt: int

    constructor (p: Payment)
      ensures Row() == p
    {
      loaded, id, status := p, p.id, p.status;
      providerPaymentID, providerSubscriptionID := p.providerPaymentID, p.providerSubscriptionID;
      delivery, attempts, nextAt, lastErr, updatedAt := p.delivery, p.attempts, p.nextAt, p.lastErr, p.updatedAt;
    }

    /** The column values that the record stands for. */
    function Row(): (p: Payment)
      reads this
      ensures p.id == id && p.provider == loaded.provider
    {
      loaded.(
        id := id, status := status,
        providerPaymentID := providerPaymentID, providerSubscriptionID := providerSubscriptionID,
        delivery := delivery, attempts := attempts, nextAt := nextAt, lastErr := lastErr, updatedAt := updatedAt)
    }
  }

  lemma LeastExists(rows: Rows, rest: set<nat>, key: Payment -> int)
    requires rest != {} && forall id :: id in rest ==> id in rows
    ensures exists id :: id in rest && forall other :: other in rest ==> key(rows[id]) <= key(rows[other])
  {
    var id :| id in rest;
    if rest != {id} {
      LeastExists(rows, rest - {id}, key);
      var others := rest - {id};
      var least :| least in others && forall other :: other in others ==> key(rows[least]) <= key(rows[other]);
      if key(rows[id]) < key(rows[least]) {
        assert forall other :: other in rest ==> key(rows[id]) <= key(rows[other]);
      } else {
        assert forall other :: other in rest ==> key(rows[least]) <= key(rows[other]);
      }
    }
  }

  /** Of the due rows, `ids` have been picked in key order and `rest` remain. */
  ghost predicate Picked(rows: Rows, due: Payment -> bool, key: Payment -> int, ids: seq<nat>, rest: set<nat>) {
    && Distinct(ids) && rest <= DueSet(rows, due) && |ids| + |rest| == |DueSet(rows, due)|
    && (forall k :: 0 <= k < |ids| ==> ids[k] in DueSet(rows, due) && ids[k] !in rest)
    && (forall id :: id in DueSet(rows, due) && id !in rest ==> id in ids)
    && (forall i, j :: 0 <= i < j < |ids| ==> key(rows[ids[i]]) <= key(rows[ids[j]]))
    && (forall k, id :: 0 <= k < |ids| && id in rest ==> key(rows[ids[k]]) <= key(rows[id]))
  }

  lemma NothingPicked(rows: Rows, due: Payment -> bool, key: Payment -> int)
    ensures Picked(rows, due, key, [], DueSet(rows, due))
  {
  }

  lemma PickLeast(rows: Rows, due: Payment -> bool, key: Payment -> int, ids: seq<nat>, rest: set<nat>, id: nat)
    requires Picked(rows, due, key, ids, rest)
    requires id in rest && forall other :: other in rest ==> key(rows[id]) <= key(rows[other])
    ensures Picked(rows, due, key, ids + [id], rest - {id})
  {
    hide DueSet;
    var all := DueSet(rows, due);
    assert forall other :: other in ids ==> other in ids + [id];
    assert id in ids + [id] by { assert (ids + [id])[|ids|] == id; }
  }

  lemma PickedIsSelection(
      rows: Rows, due: Payment -> bool, key: Payment -> int, limit: nat, ids: seq<nat>, rest: set<nat>)
    requires Picked(rows, due, key, ids, rest) && |ids| <= limit && (|ids| == limit || rest == {})
    ensures IsSelection(rows, due, key, limit, ids)
  {
    assert forall id :: id in rows && due(rows[id]) ==> id in DueSet(rows, due);
  }

  class PaymentRepository {
    var rows: Rows
    var nextID: nat

    constructor ()
      ensures Valid() && rows == map[] && nextID == 1
    {
      rows, nextID := map[], 1;
    }

    ghost predicate Valid()
      reads this
    {
      TableInv(rows, nextID)
    }

    /** INSERT: rejected by either unique index, otherwise stored under the next id, which
        the record receives. */
    method Create(payment: PaymentRecord, fault: Option<Error>) returns (error: Option<Error>)
      requires Valid()
      modifies this, payment`id
      ensures Valid()
      ensures error == if fault.Some? then fault
                       else if Rejects(old(rows), old(payment.Row())) then Some(PaymentAlreadyExists)
                       else None
      ensures error.Some? ==> rows == old(rows) && nextID == old(nextID) && payment.Row() == old(payment.Row())
      ensures error.None? ==>
                && old(nextID) !in old(rows) && nextID == old(nextID) + 1
                && payment.Row() == old(payment.Row()).(id := old(nextID))
                && rows == old(rows)[old(nextID) := payment.Row()]
    {
      if fault.Some? {
        return fault;
      }
      if Rejects(rows, payment.Row()) {
        return Some(PaymentAlreadyExists);
      }
      InsertKeepsTableInv(rows, nextID, payment.Row());
      payment.id := nextID;
      rows := rows[nextID := payment.Row()];
      nextID := nextID + 1;
      error := None;
    }

    /** UPDATE by id: writes every column but the frozen ones, whatever is stored there,
        unless the row would collide with another in the hash index. */
    method Update(payment: PaymentRecord, fault: Option<Error>) returns (error: Option<Error>)
      requires Valid()
      modifies this`rows
      ensures Valid()
      ensures error == if fault.Some? then fault else if payment.id !in old(rows) then Some(PaymentNotFound)
                       else if Collides(old(rows), payment.Row()) then Some(Other("duplicate entry"))
                       else None
      ensures rows == if error.Some? then old(rows)
                      else old(rows)[payment.id := Overwrite(old(rows)[payment.id], payment.Row())]
    {
      if fault.Some? {
        return fault;
      }
      if payment.id !in rows {
        return Some(PaymentNotFound);
      }
      if Collides(rows, payment.Row()) {
        return Some(Other("duplicate entry"));
      }
      OverwriteKeepsTableInv(rows, nextID, payment.Row());
      rows := rows[payment.id := Overwrite(rows[payment.id], payment.Row())];
      error := None;
    }

    method FindByID(id: nat) returns (payment: PaymentRecord?)
      ensures payment == null <==> id !in rows
      ensures payment != null ==> fresh(payment) && payment.Row() == rows[id]
    {
      if id in rows {
        payment := new PaymentRecord(rows[id]);
      } else {
        payment := null;
      }
    }

    method FindByCallerRequestID(callerService: string, requestID: string) returns (payment: PaymentRecord?)
      requires Valid()
      ensures payment == null <==> forall id: nat :: !HasKey(rows, id, callerService, requestID)
      ensures payment != null ==>
                && fresh(payment) && HasKey(rows, payment.id, callerService, requestID)
                && payment.Row() == rows[payment.id]
    {
      if id :| id in rows && rows[id].callerService == callerService && rows[id].requestID == requestID {
        assert HasKey(rows, id, callerService, requestID);
        payment := new PaymentRecord(rows[id]);
      } else {
        payment := null;
      }
    }

    method FindByCallbackHash(provider: int, hash: string) returns (payment: PaymentRecord?)
      requires Valid()
      ensures payment == null <==> forall id: nat :: !HasHash(rows, id, provider, hash)
      ensures payment != null ==>
                && fresh(payment) && HasHash(rows, payment.id, provider, hash)
                && payment.Row() == rows[payment.id]
    {
      if id :| id in rows && rows[id].provider == provider && rows[id].callbackHash == hash {
        assert HasHash(rows, id, provider, hash);
        payment := new PaymentRecord(rows[id]);
      } else {
        payment := null;
      }
    }

    /** The engine's part of a worker query: due rows by ascending key, up to the limit,
        breaking ties in any way. */
    method Select(due: Payment -> bool, key: Payment -> int, limit: nat) returns (ids: seq<nat>)
      ensures IsSelection(rows, due, key, limit, ids)
    {
      hide Distinct, IsSelection;
      ids := [];
      var rest := set id | id in rows && due(rows[id]);
      assert rest == DueSet(rows, due);
      NothingPicked(rows, due, key);
      while |ids| < limit && rest != {}
        invariant |ids| <= limit && Picked(rows, due, key, ids, rest)
        decreases |rest|
      {
        LeastExists(rows, rest, key);
        var id :| id in rest && forall other :: other in rest ==> key(rows[id]) <= key(rows[other]);
        PickLeast(rows, due, key, ids, rest, id);
        ids := ids + [id];
        rest := rest - {id};
      }
      PickedIsSelection(rows, due, key, limit, ids, rest);
    }

    /** Reading the selected rows one by one into fresh records. */
    method Scan(ids: seq<nat>) returns (items: seq<PaymentRecord>)
      requires forall k :: 0 <= k < |ids| ==> ids[k] in rows
      ensures |items| == |ids| && fresh(items)
      ensures forall i, j :: 0 <= i < j < |items| ==> items[i] != items[j]
      ensures forall k :: 0 <= k < |items| ==> items[k].Row() == rows[ids[k]]
    {
      items := [];
      for i := 0 to |ids|
        invariant |items| == i && fresh(items)
        invariant forall k, j :: 0 <= k < j < i ==> items[k] != items[j]
        invariant forall k :: 0 <= k < i ==> items[k].Row() == rows[ids[k]]
      {
        var item := new PaymentRecord(rows[ids[i]]);
        items := items + [item];
      }
    }

    /** The filtered, paged query; the database refuses a negative limit or offset. */
    method List(f: Filter) returns (r: Result<seq<PaymentRecord>, Error>)
      requires Valid()
      ensures r.Ok? <==> f.limit >= 0 && f.offset >= 0
      ensures r.Ok? ==>
                var ids := Page(Newest(rows, nextID, f), f.limit, f.offset);
                && |r.value| == |ids| && fresh(r.value)
                && forall k :: 0 <= k < |ids| ==> ids[k] in rows && r.value[k].Row() == rows[ids[k]]
    {
      hide TableInv, Matches, Satisfies, KeptColumns, KeptArgs, Clauses, Newest, NewestWhere, ListText;
      var query, columns, args := BuildListQuery(f);
      var found := Query(query, columns, args);
      QueryFindsMatches(rows, nextID, f);
      assert args[..|columns|] == KeptArgs(Clauses(f));
      if found.Err? {
        return Err(found.error);
      }
      NewestIsExact(rows, nextID, f);
      var ids := Newest(rows, nextID, f);
      assert forall k :: 0 <= k < |ids| ==> ids[k] in ids;
      var items := Scan(found.value);
      r := Ok(items);
    }

    /** The engine's part of the listing: it binds the arguments to the markers of the query
        in order, the last two to LIMIT and OFFSET, and answers with the page asked for. */
    method Query(query: string, columns: seq<Column>, args: seq<SqlValue>) returns (r: Result<seq<nat>, Error>)
      requires query == ListText(columns) && |args| == |columns| + 2 == Markers(query)
      ensures var limit, offset := NumberOf(args[|columns|]), NumberOf(args[|columns| + 1]);
              r == if limit < 0 || offset < 0 then Err(Other("invalid limit or offset"))
                   else Ok(Page(NewestWhere(rows, nextID, columns, args[..|columns|]), limit, offset))
    {
      hide Satisfies, NewestWhere, ListText, Markers;
      var limit, offset := NumberOf(args[|columns|]), NumberOf(args[|columns| + 1]);
      if limit < 0 || offset < 0 {
        return Err(Other("invalid limit or offset"));
      }
      var values := args[..|columns|];
      var ids: seq<nat> := [];
      var n := nextID;
      while n > 0
        invariant ids + NewestWhere(rows, n, columns, values) == NewestWhere(rows, nextID, columns, values)
      {
        n := n - 1;
        NewestWhereStep(rows, n, columns, values, ids);
        if n in rows && Satisfies(rows[n], columns, values) {
          ids := ids + [n];
        }
      }
      NewestWhereStep(rows, 0, columns, values, ids);
      r := Ok(Page(ids, limit, offset));
    }

    method ListDueCallbackDispatch(now: int, limit: nat) returns (items: seq<PaymentRecord>, ghost ids: seq<nat>)
      ensures IsSelection(rows, DispatchDue(now), ByNextAt(), limit, ids)
      ensures |items| == |ids| && fresh(items)
      ensures forall i, j :: 0 <= i < j < |items| ==> items[i] != items[j]
      ensures forall k :: 0 <= k < |items| ==> items[k].Row() == rows[ids[k]]
    {
      var chosen := Select(DispatchDue(now), ByNextAt(), limit);
      items := Scan(chosen);
      ids := chosen;
    }

    method ListExpiredPending(cutoff: int, limit: nat) returns (items: seq<PaymentRecord>, ghost ids: seq<nat>)
      ensures IsSelection(rows, ExpiryDue(cutoff), ByCreation(), limit, ids)
      ensures |items| == |ids| && fresh(items)
      ensures forall i, j :: 0 <= i < j < |items| ==> items[i] != items[j]
      ensures forall k :: 0 <= k < |items| ==> items[k].Row() == rows[ids[k]]
    {
      var chosen := Select(ExpiryDue(cutoff), ByCreation(), limit);
      items := Scan(chosen);
      ids := chosen;
    }

    method ListForReconcile(before: int, limit: nat) returns (items: seq<PaymentRecord>, ghost ids: seq<nat>)
      ensures IsSelection(rows, ReconcileDue(before), ByUpdate(), limit, ids)
      ensures |items| == |ids| && fresh(items)
      ensures forall i, j :: 0 <= i < j < |items| ==> items[i] != items[j]
      ensures forall k :: 0 <= k < |items| ==> items[k].Row() == rows[ids[k]]
    {
      var chosen := Select(ReconcileDue(before), ByUpdate(), limit);
      items := Scan(chosen);
      ids := chosen;
    }
  }

  class EventRepository {
    var events: seq<PaymentEvent>

    constructor ()
      ensures events == []
    {
      events := [];
    }

    /** Appends the event, or loses it; callers ignore the difference. */
    method Create(event: PaymentEvent, lost: bool)
      modifies this
      ensures events == if lost then old(events) else old(events) + [event]
    {
      if !lost {
        events := events + [event];
      }
    }
  }

  class CallbackRepository {
    var callbacks: seq<PaymentCallback>

    constructor ()
      ensures callbacks == []
    {
      callbacks := [];
    }

    method Create(callback: PaymentCallback, fault: Option<Error>) returns (error: Option<Error>)
      modifies this
      ensures error == fault
      ensures callbacks == if fault.Some? then old(callbacks) else old(callbacks) + [callback]
    {
      if fault.None? {
        callbacks := callbacks + [callback];
      }
      error := fault;
    }
  }
}
