/** The payments table: which columns an UPDATE writes, which inserts the two
    unique indexes reject, and the invariant that they give the table. */
module Table {
  import opened Entity

  type Rows = map<nat, Payment>

  /** The row stored after an UPDATE with `p`: id, idempotency key, callback hash
      and creation time keep their stored values. */
  function Overwrite(stored: Payment, p: Payment): Payment {
    p.(id := stored.id, requestID := stored.requestID, callerService := stored.callerService,
       callbackHash := stored.callbackHash, createdAt := stored.createdAt)
  }

  predicate SameKey(p: Payment, q: Payment) {
    p.callerService == q.callerService && p.requestID == q.requestID
  }

  predicate SameHash(p: Payment, q: Payment) {
    p.provider == q.provider && p.callbackHash == q.callbackHash
  }

  /** An insert is rejected when either unique index already has its entry. */
  predicate Rejects(rows: Rows, p: Payment) {
    exists id :: id in rows && (SameKey(rows[id], p) || SameHash(rows[id], p))
  }

  /** The id of the row with an idempotency key, as the unique index finds it. */
  ghost predicate HasKey(rows: Rows, id: nat, callerService: string, requestID: string) {
    id in rows && rows[id].callerService == callerService && rows[id].requestID == requestID
  }

  ghost predicate HasHash(rows: Rows, id: nat, provider: int, hash: string) {
    id in rows && rows[id].provider == provider && rows[id].callbackHash == hash
  }

  ghost predicate TableInv(rows: Rows, nextID: nat) {
    && nextID > 0
    && (forall id :: id in rows ==> rows[id].id == id && 0 < id < nextID)
    && (forall i, j :: i in rows && j in rows && SameKey(rows[i], rows[j]) ==> i == j)
    && (forall i, j :: i in rows && j in rows && SameHash(rows[i], rows[j]) ==> i == j)
  }

  lemma InsertKeepsTableInv(rows: Rows, nextID: nat, p: Payment)
    requires TableInv(rows, nextID) && !Rejects(rows, p)
    ensures nextID !in rows
    ensures TableInv(rows[nextID := p.(id := nextID)], nextID + 1)
  {
    var rows' := rows[nextID := p.(id := nextID)];
    forall i, j | i in rows' && j in rows' && i != j
      ensures !SameKey(rows'[i], rows'[j]) && !SameHash(rows'[i], rows'[j])
    {
      assert i in rows || j in rows;
    }
  }

  /** An UPDATE that moves a row to another provider can meet the hash index there; the
      key index cannot be met, as its columns are frozen. */
  predicate Collides(rows: Rows, p: Payment)
    requires p.id in rows
  {
    exists id :: id in rows && id != p.id && SameHash(rows[id], Overwrite(rows[p.id], p))
  }

  lemma CollidesExactly(rows: Rows, p: Payment)
    requires p.id in rows
    ensures Collides(rows, p)
        <==> exists id :: id in rows && id != p.id
               && rows[id].provider == p.provider && rows[id].callbackHash == rows[p.id].callbackHash
  {
  }

  lemma OverwriteKeepsTableInv(rows: Rows, nextID: nat, p: Payment)
    requires TableInv(rows, nextID) && p.id in rows && !Collides(rows, p)
    ensures TableInv(rows[p.id := Overwrite(rows[p.id], p)], nextID)
  {
    var rows' := rows[p.id := Overwrite(rows[p.id], p)];
    assert rows'.Keys == rows.Keys;
    forall i, j | i in rows' && j in rows' && i != j
      ensures !SameKey(rows'[i], rows'[j]) && !SameHash(rows'[i], rows'[j])
    {
      assert !SameKey(rows[i], rows[j]) && !SameHash(rows[i], rows[j]);
    }
  }

  lemma SameProviderNeverCollides(rows: Rows, nextID: nat, p: Payment)
    requires TableInv(rows, nextID) && p.id in rows && rows[p.id].provider == p.provider
    ensures !Collides(rows, p)
    ensures TableInv(rows[p.id := Overwrite(rows[p.id], p)], nextID)
  {
    forall id | id in rows && id != p.id
      ensures !SameHash(rows[id], Overwrite(rows[p.id], p))
    {
      assert !SameHash(rows[id], rows[p.id]);
    }
    OverwriteKeepsTableInv(rows, nextID, p);
  }
}
