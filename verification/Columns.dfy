/** The SQL statements of the payment repository: values are bound to columns by
    position, and every statement lists the columns in its own order. */
module Columns {
  import opened Basics
  import opened Entity
  import opened Table

  datatype Column =
    | Id | RequestId | CallerService | ResourceType | ResourceId | CustomerRef
    | AmountCents | Currency | Status | PaymentMethod | PaymentType | Provider
    | RecurringInterval | RecurringIntervalCount
    | ProviderPaymentId | ProviderSubscriptionId | CheckoutUrl
    | ProviderCallbackHash | ProviderCallbackUrl | StatusCallbackUrl
    | RefundedCents | RefundableCents | MetadataJson
    | DeliveryStatus | DeliveryAttempts | DeliveryNextAt | DeliveryLastError
    | CreatedAt | UpdatedAt

  datatype SqlValue =
    | Null
    | Text(text: string)
    | Number(number: int)
    | Time(time: int)
    | Json(entries: map<string, string>)

  type SqlRow = map<Column, SqlValue>

  const INSERT_COLUMNS: seq<Column> := [
    RequestId, CallerService, ResourceType, ResourceId, CustomerRef,
    AmountCents, Currency, Status, PaymentMethod, PaymentType, Provider,
    RecurringInterval, RecurringIntervalCount,
    ProviderPaymentId, ProviderSubscriptionId, CheckoutUrl,
    ProviderCallbackHash, ProviderCallbackUrl, StatusCallbackUrl,
    RefundedCents, RefundableCents, MetadataJson,
    DeliveryStatus, DeliveryAttempts, DeliveryNextAt, DeliveryLastError,
    CreatedAt, UpdatedAt]

  const UPDATE_COLUMNS: seq<Column> := [
    ResourceType, ResourceId, CustomerRef, AmountCents, Currency, Status,
    PaymentMethod, PaymentType, Provider,
    RecurringInterval, RecurringIntervalCount,
    ProviderPaymentId, ProviderSubscriptionId, CheckoutUrl,
    ProviderCallbackUrl, StatusCallbackUrl,
    RefundedCents, RefundableCents, MetadataJson,
    DeliveryStatus, DeliveryAttempts, DeliveryNextAt, DeliveryLastError, UpdatedAt]

  const SELECT_COLUMNS: seq<Column> := [
    Id, RequestId, CallerService, ResourceType, ResourceId, CustomerRef,
    AmountCents, Currency, Status, PaymentMethod, PaymentType, Provider,
    RecurringInterval, RecurringIntervalCount,
    ProviderPaymentId, ProviderSubscriptionId, CheckoutUrl,
    ProviderCallbackHash, ProviderCallbackUrl, StatusCallbackUrl,
    RefundedCents, RefundableCents, MetadataJson,
    DeliveryStatus, DeliveryAttempts, DeliveryNextAt, DeliveryLastError,
    CreatedAt, UpdatedAt]

  function NullableText(o: Option<string>): SqlValue {
    if o.None? then Null else Text(o.value)
  }

  function NullableNumber(o: Option<int>): SqlValue {
    if o.None? then Null else Number(o.value)
  }

  function NullableTime(o: Option<int>): SqlValue {
    if o.None? then Null else Time(o.value)
  }

  /** The arguments of the INSERT, in the order in which they are passed. */
  function InsertArgs(p: Payment): seq<SqlValue> {
    [ Text(p.requestID), Text(p.callerService), Text(p.resourceType), Text(p.resourceID), NullableText(p.customerRef),
      Number(p.amountCents), Text(p.currency), Number(p.status), Number(p.paymentMethod), Number(p.paymentType),
      Number(p.provider),
      NullableText(p.recurringInterval), NullableNumber(p.recurringIntervalCount),
      NullableText(p.providerPaymentID), NullableText(p.providerSubscriptionID), NullableText(p.checkoutURL),
      Text(p.callbackHash), Text(p.callbackURL), Text(p.statusCallbackURL),
      Number(p.refundedCents), Number(p.refundableCents), Json(p.metadata),
      Number(p.delivery), Number(p.attempts), NullableTime(p.nextAt), NullableText(p.lastErr),
      Time(p.createdAt), Time(p.updatedAt) ]
  }

  /** The arguments of the UPDATE's SET list, in the order in which they are passed. */
  function UpdateArgs(p: Payment): seq<SqlValue> {
    [ Text(p.resourceType), Text(p.resourceID), NullableText(p.customerRef), Number(p.amountCents), Text(p.currency),
      Number(p.status), Number(p.paymentMethod), Number(p.paymentType), Number(p.provider),
      NullableText(p.recurringInterval), NullableNumber(p.recurringIntervalCount),
      NullableText(p.providerPaymentID), NullableText(p.providerSubscriptionID), NullableText(p.checkoutURL),
      Text(p.callbackURL), Text(p.statusCallbackURL),
      Number(p.refundedCents), Number(p.refundableCents), Json(p.metadata),
      Number(p.delivery), Number(p.attempts), NullableTime(p.nextAt), NullableText(p.lastErr), Time(p.updatedAt) ]
  }

  function TextOf(v: SqlValue): string {
    if v.Text? then v.text else ""
  }

  function NumberOf(v: SqlValue): int {
    if v.Number? then v.number else 0
  }

  function Int32Of(v: SqlValue): int32 {
    if v.Number? && -0x8000_0000 <= v.number < 0x8000_0000 then v.number else 0
  }

  function TimeOf(v: SqlValue): int {
    if v.Time? then v.time else 0
  }

  function OptionalText(v: SqlValue): Option<string> {
    if v.Text? then Some(v.text) else None
  }

  function OptionalNumber(v: SqlValue): Option<int> {
    if v.Number? then Some(v.number) else None
  }

  function OptionalTime(v: SqlValue): Option<int> {
    if v.Time? then Some(v.time) else None
  }

  /** Filling a payment from a result row, by position. */
  function ScanPayment(values: seq<SqlValue>): Payment
    requires |values| == 29
  {
    Payment(
      if values[0].Number? && values[0].number >= 0 then values[0].number else 0,
      TextOf(values[1]), TextOf(values[2]), TextOf(values[3]), TextOf(values[4]), OptionalText(values[5]),
      NumberOf(values[6]), TextOf(values[7]), NumberOf(values[8]), NumberOf(values[9]), NumberOf(values[10]),
      NumberOf(values[11]),
      OptionalText(values[12]), OptionalNumber(values[13]),
      OptionalText(values[14]), OptionalText(values[15]), OptionalText(values[16]),
      TextOf(values[17]), TextOf(values[18]), TextOf(values[19]),
      NumberOf(values[20]), NumberOf(values[21]), if values[22].Json? then values[22].entries else map[],
      NumberOf(values[23]), Int32Of(values[24]), OptionalTime(values[25]), OptionalText(values[26]),
      TimeOf(values[27]), TimeOf(values[28]))
  }

  /** What a column of the row of a payment holds, by name. */
  function CellOf(p: Payment, c: Column): SqlValue {
    match c
    case Id => Number(p.id)
    case RequestId => Text(p.requestID)
    case CallerService => Text(p.callerService)
    case ResourceType => Text(p.resourceType)
    case ResourceId => Text(p.resourceID)
    case CustomerRef => NullableText(p.customerRef)
    case AmountCents => Number(p.amountCents)
    case Currency => Text(p.currency)
    case Status => Number(p.status)
    case PaymentMethod => Number(p.paymentMethod)
    case PaymentType => Number(p.paymentType)
    case Provider => Number(p.provider)
    case RecurringInterval => NullableText(p.recurringInterval)
    case RecurringIntervalCount => NullableNumber(p.recurringIntervalCount)
    case ProviderPaymentId => NullableText(p.providerPaymentID)
    case ProviderSubscriptionId => NullableText(p.providerSubscriptionID)
    case CheckoutUrl => NullableText(p.checkoutURL)
    case ProviderCallbackHash => Text(p.callbackHash)
    case ProviderCallbackUrl => Text(p.callbackURL)
    case StatusCallbackUrl => Text(p.statusCallbackURL)
    case RefundedCents => Number(p.refundedCents)
    case RefundableCents => Number(p.refundableCents)
    case MetadataJson => Json(p.metadata)
    case DeliveryStatus => Number(p.delivery)
    case DeliveryAttempts => Number(p.attempts)
    case DeliveryNextAt => NullableTime(p.nextAt)
    case DeliveryLastError => NullableText(p.lastErr)
    case CreatedAt => Time(p.createdAt)
    case UpdatedAt => Time(p.updatedAt)
  }

  ghost predicate Represents(row: SqlRow, p: Payment) {
    forall c: Column :: c in row && row[c] == CellOf(p, c)
  }

  /** Positional binding: the k-th listed column receives the k-th argument. */
  ghost predicate Binds(row: SqlRow, columns: seq<Column>, args: seq<SqlValue>) {
    |columns| == |args| && forall k :: 0 <= k < |columns| ==> columns[k] in row && row[columns[k]] == args[k]
  }

  /** INSERT into a table that assigns the id. */
  ghost predicate Inserted(row: SqlRow, id: nat, columns: seq<Column>, args: seq<SqlValue>) {
    Binds(row, columns, args) && Id in row && row[Id] == Number(id)
  }

  /** UPDATE: the listed columns receive the arguments, the others keep their values. */
  ghost predicate Updated(row: SqlRow, row': SqlRow, columns: seq<Column>, args: seq<SqlValue>) {
    && Binds(row', columns, args)
    && forall c :: c in row && c !in columns ==> c in row' && row'[c] == row[c]
  }

  function SelectFrom(row: SqlRow, columns: seq<Column>): seq<SqlValue>
    requires forall c :: c in columns ==> c in row
  {
    seq(|columns|, k requires 0 <= k < |columns| => row[columns[k]])
  }

  predicate Frozen(c: Column) {
    c == Id || c == RequestId || c == CallerService || c == ProviderCallbackHash || c == CreatedAt
  }

  /** Where the INSERT and UPDATE statements list a column. */
  function InsertPosition(c: Column): nat {
    match c
    case Id => 28
    case RequestId => 0 case CallerService => 1 case ResourceType => 2 case ResourceId => 3 case CustomerRef => 4
    case AmountCents => 5 case Currency => 6 case Status => 7 case PaymentMethod => 8 case PaymentType => 9
    case Provider => 10 case RecurringInterval => 11 case RecurringIntervalCount => 12
    case ProviderPaymentId => 13 case ProviderSubscriptionId => 14 case CheckoutUrl => 15
    case ProviderCallbackHash => 16 case ProviderCallbackUrl => 17 case StatusCallbackUrl => 18
    case RefundedCents => 19 case RefundableCents => 20 case MetadataJson => 21
    case DeliveryStatus => 22 case DeliveryAttempts => 23 case DeliveryNextAt => 24 case DeliveryLastError => 25
    case CreatedAt => 26 case UpdatedAt => 27
  }

  function UpdatePosition(c: Column): nat {
    match c
    case Id => 24 case RequestId => 24 case CallerService => 24 case ProviderCallbackHash => 24 case CreatedAt => 24
    case ResourceType => 0 case ResourceId => 1 case CustomerRef => 2 case AmountCents => 3 case Currency => 4
    case Status => 5 case PaymentMethod => 6 case PaymentType => 7 case Provider => 8
    case RecurringInterval => 9 case RecurringIntervalCount => 10
    case ProviderPaymentId => 11 case ProviderSubscriptionId => 12 case CheckoutUrl => 13
    case ProviderCallbackUrl => 14 case StatusCallbackUrl => 15
    case RefundedCents => 16 case RefundableCents => 17 case MetadataJson => 18
    case DeliveryStatus => 19 case DeliveryAttempts => 20 case DeliveryNextAt => 21 case DeliveryLastError => 22
    case UpdatedAt => 23
  }

  lemma InsertLists(c: Column)
    requires c != Id
    ensures |INSERT_COLUMNS| == 28 && InsertPosition(c) < 28 && INSERT_COLUMNS[InsertPosition(c)] == c
  {
  }

  lemma InsertPasses1(p: Payment, c: Column)
    requires c != Id && InsertPosition(c) < 7
    ensures |InsertArgs(p)| == 28 && InsertArgs(p)[InsertPosition(c)] == CellOf(p, c)
  {
  }

  lemma InsertPasses2(p: Payment, c: Column)
    requires c != Id && 7 <= InsertPosition(c) < 14
    ensures |InsertArgs(p)| == 28 && InsertArgs(p)[InsertPosition(c)] == CellOf(p, c)
  {
  }

  lemma InsertPasses3(p: Payment, c: Column)
    requires c != Id && 14 <= InsertPosition(c) < 21
    ensures |InsertArgs(p)| == 28 && InsertArgs(p)[InsertPosition(c)] == CellOf(p, c)
  {
  }

  lemma InsertPasses4(p: Payment, c: Column)
    requires c != Id && 21 <= InsertPosition(c) < 28
    ensures |InsertArgs(p)| == 28 && InsertArgs(p)[InsertPosition(c)] == CellOf(p, c)
  {
  }

  /** Columns and arguments of the INSERT agree position by position, and together with
      the id they cover the row. */
  lemma InsertAligned(p: Payment, c: Column)
    requires c != Id
    ensures |INSERT_COLUMNS| == |InsertArgs(p)| && InsertPosition(c) < |INSERT_COLUMNS|
    ensures INSERT_COLUMNS[InsertPosition(c)] == c && InsertArgs(p)[InsertPosition(c)] == CellOf(p, c)
  {
    hide INSERT_COLUMNS, InsertArgs, InsertPosition, CellOf;
    InsertLists(c);
    if InsertPosition(c) < 7 { InsertPasses1(p, c); }
    else if InsertPosition(c) < 14 { InsertPasses2(p, c); }
    else if InsertPosition(c) < 21 { InsertPasses3(p, c); }
    else { InsertPasses4(p, c); }
  }

  lemma UpdateLists(c: Column)
    requires !Frozen(c)
    ensures |UPDATE_COLUMNS| == 24 && UpdatePosition(c) < 24 && UPDATE_COLUMNS[UpdatePosition(c)] == c
  {
  }

  lemma UpdatePasses1(p: Payment, c: Column)
    requires !Frozen(c) && UpdatePosition(c) < 8
    ensures |UpdateArgs(p)| == 24 && UpdateArgs(p)[UpdatePosition(c)] == CellOf(p, c)
  {
  }

  lemma UpdatePasses2(p: Payment, c: Column)
    requires !Frozen(c) && 8 <= UpdatePosition(c) < 16
    ensures |UpdateArgs(p)| == 24 && UpdateArgs(p)[UpdatePosition(c)] == CellOf(p, c)
  {
  }

  lemma UpdatePasses3(p: Payment, c: Column)
    requires !Frozen(c) && 16 <= UpdatePosition(c) < 24
    ensures |UpdateArgs(p)| == 24 && UpdateArgs(p)[UpdatePosition(c)] == CellOf(p, c)
  {
  }

  /** Columns and arguments of the UPDATE agree, and cover all but the frozen columns. */
  lemma UpdateAligned(p: Payment, c: Column)
    requires !Frozen(c)
    ensures |UPDATE_COLUMNS| == |UpdateArgs(p)| && UpdatePosition(c) < |UPDATE_COLUMNS|
    ensures UPDATE_COLUMNS[UpdatePosition(c)] == c && UpdateArgs(p)[UpdatePosition(c)] == CellOf(p, c)
  {
    hide UPDATE_COLUMNS, UpdateArgs, UpdatePosition, CellOf, Frozen;
    UpdateLists(c);
    if UpdatePosition(c) < 8 { UpdatePasses1(p, c); }
    else if UpdatePosition(c) < 16 { UpdatePasses2(p, c); }
    else { UpdatePasses3(p, c); }
  }

  lemma UpdateSkipsFrozen(c: Column)
    requires Frozen(c)
    ensures c !in UPDATE_COLUMNS
  {
  }

  lemma InsertStores(row: SqlRow, id: nat, p: Payment)
    requires Inserted(row, id, INSERT_COLUMNS, InsertArgs(p))
    ensures Represents(row, p.(id := id))
  {
    hide InsertPosition, InsertArgs, CellOf;
    forall c: Column
      ensures c in row && row[c] == CellOf(p.(id := id), c)
    {
      CellIgnoresId(p, id, c);
      if c != Id {
        InsertAligned(p, c);
      }
    }
  }

  lemma CellIgnoresId(p: Payment, id: nat, c: Column)
    ensures CellOf(p.(id := id), c) == if c == Id then Number(id) else CellOf(p, c)
  {
  }

  /** The UPDATE statement has the effect of Table.Overwrite: it never writes the frozen
      columns. */
  lemma UpdateStores(row: SqlRow, row': SqlRow, stored: Payment, p: Payment)
    requires Represents(row, stored) && Updated(row, row', UPDATE_COLUMNS, UpdateArgs(p))
    ensures Represents(row', Overwrite(stored, p))
  {
    hide UpdatePosition, UpdateArgs, CellOf, Overwrite, Frozen;
    forall c: Column
      ensures c in row' && row'[c] == CellOf(Overwrite(stored, p), c)
    {
      OverwrittenCell(stored, p, c);
      if Frozen(c) {
        UpdateSkipsFrozen(c);
      } else {
        UpdateAligned(p, c);
      }
    }
  }

  lemma OverwrittenCell(stored: Payment, p: Payment, c: Column)
    ensures CellOf(Overwrite(stored, p), c) == CellOf(if Frozen(c) then stored else p, c)
  {
    hide CellOf;
    if Frozen(c) { FrozenCell(stored, p, c); } else { WrittenCell(stored, p, c); }
  }

  lemma FrozenCell(stored: Payment, p: Payment, c: Column)
    requires Frozen(c)
    ensures CellOf(Overwrite(stored, p), c) == CellOf(stored, c)
  {
  }

  lemma WrittenCell(stored: Payment, p: Payment, c: Column)
    requires !Frozen(c)
    ensures CellOf(Overwrite(stored, p), c) == CellOf(p, c)
  {
  }

  /** The values of a payment in the order of the SELECT list: the id, then as inserted. */
  function SelectCells(p: Payment): seq<SqlValue> {
    [Number(p.id)] + InsertArgs(p)
  }

  lemma SelectIsIdThenInsert()
    ensures SELECT_COLUMNS == [Id] + INSERT_COLUMNS && |INSERT_COLUMNS| == 28 && Id !in INSERT_COLUMNS
  {
  }

  lemma InsertPositions1(k: nat)
    requires 0 <= k < 7
    ensures k < |INSERT_COLUMNS| && INSERT_COLUMNS[k] != Id && InsertPosition(INSERT_COLUMNS[k]) == k
  {
  }

  lemma InsertPositions2(k: nat)
    requires 7 <= k < 14
    ensures k < |INSERT_COLUMNS| && INSERT_COLUMNS[k] != Id && InsertPosition(INSERT_COLUMNS[k]) == k
  {
  }

  lemma InsertPositions3(k: nat)
    requires 14 <= k < 21
    ensures k < |INSERT_COLUMNS| && INSERT_COLUMNS[k] != Id && InsertPosition(INSERT_COLUMNS[k]) == k
  {
  }

  lemma InsertPositions4(k: nat)
    requires 21 <= k < 28
    ensures k < |INSERT_COLUMNS| && INSERT_COLUMNS[k] != Id && InsertPosition(INSERT_COLUMNS[k]) == k
  {
  }

  lemma InsertPositions(k: nat)
    requires k < 28
    ensures k < |INSERT_COLUMNS| && INSERT_COLUMNS[k] != Id && InsertPosition(INSERT_COLUMNS[k]) == k
  {
    hide INSERT_COLUMNS, InsertPosition;
    if k < 7 { InsertPositions1(k); }
    else if k < 14 { InsertPositions2(k); }
    else if k < 21 { InsertPositions3(k); }
    else { InsertPositions4(k); }
  }

  lemma SelectedCells(row: SqlRow, p: Payment)
    requires Represents(row, p)
    ensures SelectFrom(row, SELECT_COLUMNS) == SelectCells(p) && |SelectCells(p)| == 29
  {
    hide InsertPosition, InsertArgs, CellOf, INSERT_COLUMNS, SELECT_COLUMNS;
    SelectIsIdThenInsert();
    InsertAligned(p, RequestId);
    CellIgnoresId(p, p.id, Id);
    forall k | 0 <= k < 28
      ensures row[INSERT_COLUMNS[k]] == InsertArgs(p)[k]
    {
      InsertPositions(k);
      InsertAligned(p, INSERT_COLUMNS[k]);
    }
  }

  lemma ScanInvertsCells(p: Payment)
    ensures |SelectCells(p)| == 29 && ScanPayment(SelectCells(p)) == p
  {
  }

  /** Reading a row back, by position, gives the payment that it represents. */
  lemma SelectReads(row: SqlRow, p: Payment)
    requires Represents(row, p)
    ensures |SelectFrom(row, SELECT_COLUMNS)| == 29 && ScanPayment(SelectFrom(row, SELECT_COLUMNS)) == p
  {
    hide ScanPayment, SelectFrom, SelectCells;
    SelectedCells(row, p);
    ScanInvertsCells(p);
  }

  /** Create then find returns every field of the created payment. */
  lemma CreateThenFind(row: SqlRow, id: nat, p: Payment)
    requires Inserted(row, id, INSERT_COLUMNS, InsertArgs(p))
    ensures forall c :: c in SELECT_COLUMNS ==> c in row
    ensures ScanPayment(SelectFrom(row, SELECT_COLUMNS)) == p.(id := id)
  {
    hide ScanPayment, InsertArgs, SelectFrom, Inserted;
    InsertStores(row, id, p);
    SelectReads(row, p.(id := id));
  }

  /** Update then find returns the written payment with its stored frozen fields. */
  lemma UpdateThenFind(row: SqlRow, row': SqlRow, stored: Payment, p: Payment)
    requires Represents(row, stored) && Updated(row, row', UPDATE_COLUMNS, UpdateArgs(p))
    ensures forall c :: c in SELECT_COLUMNS ==> c in row'
    ensures |SelectFrom(row', SELECT_COLUMNS)| == 29
    ensures ScanPayment(SelectFrom(row', SELECT_COLUMNS)) == Overwrite(stored, p)
  {
    hide ScanPayment, UpdateArgs, SelectFrom, Updated, Overwrite;
    UpdateStores(row, row', stored, p);
    SelectReads(row', Overwrite(stored, p));
  }
}
