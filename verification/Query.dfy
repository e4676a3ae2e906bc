/** Listing payments: the query that the repository builds from a filter, and the pages
    that the database returns for it. */
module Query {
  import opened Basics
  import opened Entity
  import opened Table
  import opened Columns

  datatype Filter = Filter(
    requestID: string,
    callerService: string,
    resourceType: string,
    resourceID: string,
    hasStatus: bool,
    status: int,
    provider: int,
    limit: int,
    offset: int)

  /** The rows that a filter asks for. */
  predicate Matches(f: Filter, p: Payment) {
    && (!IsBlank(f.requestID) ==> p.requestID == f.requestID)
    && (!IsBlank(f.callerService) ==> p.callerService == f.callerService)
    && (!IsBlank(f.resourceType) ==> p.resourceType == f.resourceType)
    && (!IsBlank(f.resourceID) ==> p.resourceID == f.resourceID)
    && (f.hasStatus ==> p.status == f.status)
    && (f.provider > 0 ==> p.provider == f.provider)
  }

  function ColumnName(c: Column): string {
    match c
    case Id => "id"
    case RequestId => "request_id" case CallerService => "caller_service"
    case ResourceType => "resource_type" case ResourceId => "resource_id" case CustomerRef => "customer_ref"
    case AmountCents => "amount_cents" case Currency => "currency" case Status => "status"
    case PaymentMethod => "payment_method" case PaymentType => "payment_type" case Provider => "provider"
    case RecurringInterval => "recurring_interval" case RecurringIntervalCount => "recurring_interval_count"
    case ProviderPaymentId => "provider_payment_id" case ProviderSubscriptionId => "provider_subscription_id"
    case CheckoutUrl => "checkout_url"
    case ProviderCallbackHash => "provider_callback_hash" case ProviderCallbackUrl => "provider_callback_url"
    case StatusCallbackUrl => "status_callback_url"
    case RefundedCents => "refunded_cents" case RefundableCents => "refundable_cents"
    case MetadataJson => "metadata_json"
    case DeliveryStatus => "callback_delivery_status" case DeliveryAttempts => "callback_delivery_attempts"
    case DeliveryNextAt => "callback_delivery_next_at" case DeliveryLastError => "callback_delivery_last_error"
    case CreatedAt => "created_at" case UpdatedAt => "updated_at"
  }

  function ConditionText(c: Column): string {
    ColumnName(c) + " = " + "?"
  }

  const ORDER_AND_PAGE: string := " ORDER BY id DESC LIMIT " + "?" + " OFFSET " + "?"

  function Join(parts: seq<string>, separator: string): string {
    if parts == [] then ""
    else if |parts| == 1 then parts[0]
    else Join(parts[..|parts| - 1], separator) + separator + parts[|parts| - 1]
  }

  function Names(columns: seq<Column>): seq<string> {
    seq(|columns|, k requires 0 <= k < |columns| => ColumnName(columns[k]))
  }

  function SelectText(): string {
    "SELECT " + Join(Names(SELECT_COLUMNS), ", ") + " FROM payments"
  }

  /** The text of the query with these conditions. */
  function ListText(columns: seq<Column>): string {
    SelectText() + (if columns == [] then "" else " WHERE " + Join(Texts(columns), " AND ")) + ORDER_AND_PAGE
  }

  function Texts(columns: seq<Column>): seq<string> {
    seq(|columns|, k requires 0 <= k < |columns| => ConditionText(columns[k]))
  }

  /** The number of parameter markers in a query text. */
  function Markers(s: string): nat {
    if s == "" then 0 else Markers(s[..|s| - 1]) + if s[|s| - 1] == '?' then 1 else 0
  }

  /** A row satisfies `column_0 = arg_0 AND column_1 = arg_1 AND ...`. */
  predicate Satisfies(p: Payment, columns: seq<Column>, args: seq<SqlValue>)
    requires |columns| == |args|
  {
    forall k :: 0 <= k < |columns| ==> CellOf(p, columns[k]) == args[k]
  }

  /** A condition of the query builder, and the test that switches it on. */
  datatype Clause = Clause(on: bool, column: Column, arg: SqlValue)

  function Clauses(f: Filter): seq<Clause> {
    [ Clause(!IsBlank(f.requestID), RequestId, Text(f.requestID)),
      Clause(!IsBlank(f.callerService), CallerService, Text(f.callerService)),
      Clause(!IsBlank(f.resourceType), ResourceType, Text(f.resourceType)),
      Clause(!IsBlank(f.resourceID), ResourceId, Text(f.resourceID)),
      Clause(f.hasStatus, Status, Number(f.status)),
      Clause(f.provider > 0, Provider, Number(f.provider)) ]
  }

  function KeptColumns(clauses: seq<Clause>): seq<Column> {
    if clauses == [] then []
    else
      var last := clauses[|clauses| - 1];
      KeptColumns(clauses[..|clauses| - 1]) + if last.on then [last.column] else []
  }

  function KeptArgs(clauses: seq<Clause>): (args: seq<SqlValue>)
    ensures |args| == |KeptColumns(clauses)|
  {
    if clauses == [] then []
    else
      var last := clauses[|clauses| - 1];
      KeptArgs(clauses[..|clauses| - 1]) + if last.on then [last.arg] else []
  }

  /** The row meets every clause that is switched on. */
  predicate Demanded(p: Payment, clauses: seq<Clause>) {
    forall k :: 0 <= k < |clauses| && clauses[k].on ==> CellOf(p, clauses[k].column) == clauses[k].arg
  }

  lemma {:induction false} KeptSelects(p: Payment, clauses: seq<Clause>)
    ensures Satisfies(p, KeptColumns(clauses), KeptArgs(clauses)) <==> Demanded(p, clauses)
  {
    hide CellOf, Satisfies, Demanded;
    if clauses == [] {
      NothingToSatisfy(p);
    } else {
      var pre, last := clauses[..|clauses| - 1], clauses[|clauses| - 1];
      KeptSelects(p, pre);
      SatisfiesSnoc(p, KeptColumns(pre), KeptArgs(pre), last.column, last.arg);
      DemandedSnoc(p, clauses);
      assert KeptColumns(pre) + [] == KeptColumns(pre) && KeptArgs(pre) + [] == KeptArgs(pre);
    }
  }

  lemma NothingToSatisfy(p: Payment)
    ensures Satisfies(p, [], []) && Demanded(p, [])
  {
  }

  lemma DemandedSnoc(p: Payment, clauses: seq<Clause>)
    requires clauses != []
    ensures var last := clauses[|clauses| - 1];
            Demanded(p, clauses) <==>
              Demanded(p, clauses[..|clauses| - 1]) && (last.on ==> CellOf(p, last.column) == last.arg)
  {
    hide CellOf;
    var pre := clauses[..|clauses| - 1];
    assert forall k :: 0 <= k < |pre| ==> clauses[k] == pre[k];
  }

  lemma SatisfiesSnoc(p: Payment, columns: seq<Column>, args: seq<SqlValue>, column: Column, arg: SqlValue)
    requires |columns| == |args|
    ensures Satisfies(p, columns + [column], args + [arg]) <==> Satisfies(p, columns, args) && CellOf(p, column) == arg
  {
    hide CellOf;
    var n := |columns|;
    assert (columns + [column])[n] == column && (args + [arg])[n] == arg;
    assert forall k :: 0 <= k < n ==> (columns + [column])[k] == columns[k] && (args + [arg])[k] == args[k];
  }

  /** Conditions and arguments stay in step, and their conjunction selects exactly the rows
      that the filter asks for. */
  lemma ConditionsSelectMatches(f: Filter, p: Payment)
    ensures Satisfies(p, KeptColumns(Clauses(f)), KeptArgs(Clauses(f))) <==> Matches(f, p)
  {
    hide KeptColumns, KeptArgs, IsBlank, Satisfies, Clauses;
    KeptSelects(p, Clauses(f));
    ClausesAre(f);
  }

  lemma KeptNext(clauses: seq<Clause>, k: nat)
    requires k < |clauses|
    ensures KeptColumns(clauses[..0]) == [] && KeptArgs(clauses[..0]) == []
    ensures KeptColumns(clauses[..k + 1])
         == if clauses[k].on then KeptColumns(clauses[..k]) + [clauses[k].column] else KeptColumns(clauses[..k])
    ensures KeptArgs(clauses[..k + 1])
         == if clauses[k].on then KeptArgs(clauses[..k]) + [clauses[k].arg] else KeptArgs(clauses[..k])
    ensures clauses[..|clauses|] == clauses
  {
    assert clauses[..k + 1][..k] == clauses[..k];
  }

  lemma ClausesAre(f: Filter)
    ensures var clauses := Clauses(f);
            && |clauses| == 6
            && clauses[0] == Clause(!IsBlank(f.requestID), RequestId, Text(f.requestID))
            && clauses[1] == Clause(!IsBlank(f.callerService), CallerService, Text(f.callerService))
            && clauses[2] == Clause(!IsBlank(f.resourceType), ResourceType, Text(f.resourceType))
            && clauses[3] == Clause(!IsBlank(f.resourceID), ResourceId, Text(f.resourceID))
            && clauses[4] == Clause(f.hasStatus, Status, Number(f.status))
            && clauses[5] == Clause(f.provider > 0, Provider, Number(f.provider))
  {
    hide IsBlank;
  }

  method BuildConditions(f: Filter) returns (columns: seq<Column>, args: seq<SqlValue>)
    ensures columns == KeptColumns(Clauses(f)) && args == KeptArgs(Clauses(f))
  {
    hide IsBlank, KeptColumns, KeptArgs, Clauses;
    ghost var clauses := Clauses(f);
    ClausesAre(f);
    columns, args := [], [];
    if !IsBlank(f.requestID) {
      columns, args := columns + [RequestId], args + [Text(f.requestID)];
    }
    KeptNext(clauses, 0);
    if !IsBlank(f.callerService) {
      columns, args := columns + [CallerService], args + [Text(f.callerService)];
    }
    KeptNext(clauses, 1);
    if !IsBlank(f.resourceType) {
      columns, args := columns + [ResourceType], args + [Text(f.resourceType)];
    }
    KeptNext(clauses, 2);
    if !IsBlank(f.resourceID) {
      columns, args := columns + [ResourceId], args + [Text(f.resourceID)];
    }
    KeptNext(clauses, 3);
    if f.hasStatus {
      columns, args := columns + [Status], args + [Number(f.status)];
    }
    KeptNext(clauses, 4);
    if f.provider > 0 {
      columns, args := columns + [Provider], args + [Number(f.provider)];
    }
    KeptNext(clauses, 5);
  }

  /** The whole query: as many parameter markers as arguments. */
  method BuildListQuery(f: Filter) returns (query: string, columns: seq<Column>, args: seq<SqlValue>)
    ensures columns == KeptColumns(Clauses(f)) && query == ListText(columns)
    ensures args == KeptArgs(Clauses(f)) + [Number(f.limit), Number(f.offset)]
    ensures Markers(query) == |args|
  {
    hide Clauses, KeptColumns, KeptArgs, Markers, ORDER_AND_PAGE, Join, SelectText;
    query := SelectText();
    columns, args := BuildConditions(f);
    SelectHasNoMarkers();
    if |columns| > 0 {
      NoMarkers(" WHERE ");
      MarkersConcat(SelectText(), " WHERE ");
      MarkersConcat(SelectText() + " WHERE ", Join(Texts(columns), " AND "));
      ConditionMarkers(columns);
      query := query + " WHERE " + Join(Texts(columns), " AND ");
    }
    assert query == SelectText() + if columns == [] then "" else " WHERE " + Join(Texts(columns), " AND ");
    OrderMarkers();
    MarkersConcat(query, ORDER_AND_PAGE);
    query := query + ORDER_AND_PAGE;
    args := args + [Number(f.limit), Number(f.offset)];
  }

  lemma EarlyNames(c: Column)
    requires InsertPosition(c) < 10
    ensures '?' !in ColumnName(c)
  {
  }

  lemma MiddleNames(c: Column)
    requires 10 <= InsertPosition(c) < 19
    ensures '?' !in ColumnName(c)
  {
  }

  lemma LateNames(c: Column)
    requires 19 <= InsertPosition(c)
    ensures '?' !in ColumnName(c)
  {
  }

  lemma NameHasNoMarkers(c: Column)
    ensures Markers(ColumnName(c)) == 0
  {
    hide Markers, ColumnName, InsertPosition;
    if InsertPosition(c) < 10 { EarlyNames(c); }
    else if InsertPosition(c) < 19 { MiddleNames(c); }
    else { LateNames(c); }
    NoMarkers(ColumnName(c));
  }

  lemma {:induction false} NamesHaveNoMarkers(columns: seq<Column>)
    ensures Markers(Join(Names(columns), ", ")) == 0
  {
    hide ColumnName, Markers;
    if columns == [] {
      NoMarkers("");
    } else {
      var pre, last := columns[..|columns| - 1], columns[|columns| - 1];
      NameHasNoMarkers(last);
      if pre != [] {
        NamesHaveNoMarkers(pre);
        NoMarkers(", ");
        assert Names(columns)[..|columns| - 1] == Names(pre);
        MarkersConcat(Join(Names(pre), ", "), ", ");
        MarkersConcat(Join(Names(pre), ", ") + ", ", ColumnName(last));
      }
    }
  }

  lemma SelectHasNoMarkers()
    ensures Markers(SelectText()) == 0
  {
    hide Markers, Join, Names, SELECT_COLUMNS;
    NoMarkers("SELECT ");
    NoMarkers(" FROM payments");
    NamesHaveNoMarkers(SELECT_COLUMNS);
    MarkersConcat("SELECT ", Join(Names(SELECT_COLUMNS), ", "));
    MarkersConcat("SELECT " + Join(Names(SELECT_COLUMNS), ", "), " FROM payments");
  }

  // ----- The text -----

  lemma OrderText()
    ensures ORDER_AND_PAGE == " ORDER BY id DESC LIMIT ? OFFSET ?"
  {
  }

  lemma FirstNames()
    ensures |Names(SELECT_COLUMNS)| == 29 && Names(SELECT_COLUMNS)[..14] == [
              "id", "request_id", "caller_service", "resource_type", "resource_id", "customer_ref",
              "amount_cents", "currency", "status", "payment_method", "payment_type", "provider",
              "recurring_interval", "recurring_interval_count"]
  {
  }

  lemma MoreNames()
    ensures |Names(SELECT_COLUMNS)| == 29 && Names(SELECT_COLUMNS)[14..22] == [
              "provider_payment_id", "provider_subscription_id", "checkout_url",
              "provider_callback_hash", "provider_callback_url", "status_callback_url",
              "refunded_cents", "refundable_cents"]
  {
  }

  lemma LastNames()
    ensures |Names(SELECT_COLUMNS)| == 29 && Names(SELECT_COLUMNS)[22..] == [
              "metadata_json", "callback_delivery_status", "callback_delivery_attempts", "callback_delivery_next_at",
              "callback_delivery_last_error", "created_at", "updated_at"]
  {
  }

  /** The names behind SELECT. */
  lemma SelectNames()
    ensures Names(SELECT_COLUMNS) == [
              "id", "request_id", "caller_service", "resource_type", "resource_id", "customer_ref",
              "amount_cents", "currency", "status", "payment_method", "payment_type", "provider",
              "recurring_interval", "recurring_interval_count"] + [
              "provider_payment_id", "provider_subscription_id", "checkout_url",
              "provider_callback_hash", "provider_callback_url", "status_callback_url",
              "refunded_cents", "refundable_cents"] + [
              "metadata_json", "callback_delivery_status", "callback_delivery_attempts", "callback_delivery_next_at",
              "callback_delivery_last_error", "created_at", "updated_at"]
  {
    hide Names, SELECT_COLUMNS;
    FirstNames();
    MoreNames();
    LastNames();
    var names := Names(SELECT_COLUMNS);
    assert names == names[..14] + names[14..22] + names[22..];
  }

  lemma ConditionTexts()
    ensures ConditionText(RequestId) == "request_id = ?" && ConditionText(CallerService) == "caller_service = ?"
    ensures ConditionText(ResourceType) == "resource_type = ?" && ConditionText(ResourceId) == "resource_id = ?"
    ensures ConditionText(Status) == "status = ?" && ConditionText(Provider) == "provider = ?"
  {
  }

  lemma JoinSnoc(parts: seq<string>, part: string, separator: string)
    requires parts != []
    ensures Join(parts + [part], separator) == Join(parts, separator) + separator + part
  {
    assert (parts + [part])[..|parts|] == parts;
  }

  /** The conditions of a filter with every test switched on. */
  lemma FullConditions()
    ensures Join(Texts([RequestId, CallerService, ResourceType, ResourceId, Status, Provider]), " AND ")
         == "request_id = ?" + " AND " + "caller_service = ?" + " AND " + "resource_type = ?"
              + " AND " + "resource_id = ?" + " AND " + "status = ?" + " AND " + "provider = ?"
  {
    hide Join, ConditionText;
    ConditionTexts();
    var t := Texts([RequestId, CallerService, ResourceType, ResourceId, Status, Provider]);
    assert t[..1] == [t[0]];
    OneText(t[0], " AND ");
    JoinNext(t, 1, " AND ");
    JoinNext(t, 2, " AND ");
    JoinNext(t, 3, " AND ");
    JoinNext(t, 4, " AND ");
    JoinNext(t, 5, " AND ");
    assert t[..6] == t;
  }

  /** The text of the query for some conditions, and for none. */
  lemma QueryText(columns: seq<Column>)
    ensures columns != [] ==>
              ListText(columns)
                == SelectText() + (" WHERE " + Join(Texts(columns), " AND ")) + " ORDER BY id DESC LIMIT ? OFFSET ?"
    ensures ListText([]) == SelectText() + " ORDER BY id DESC LIMIT ? OFFSET ?"
  {
    hide Join, Texts, SelectText, ORDER_AND_PAGE;
    OrderText();
    assert SelectText() + "" == SelectText();
  }

  lemma OneText(part: string, separator: string)
    ensures Join([part], separator) == part
  {
  }

  lemma JoinNext(parts: seq<string>, n: nat, separator: string)
    requires 0 < n < |parts|
    ensures Join(parts[..n + 1], separator) == Join(parts[..n], separator) + separator + parts[n]
  {
    assert parts[..n + 1] == parts[..n] + [parts[n]];
    JoinSnoc(parts[..n], parts[n], separator);
  }

  lemma {:induction false} NoMarkers(s: string)
    requires '?' !in s
    ensures Markers(s) == 0
  {
    if s != "" {
      NoMarkers(s[..|s| - 1]);
    }
  }

  lemma OneMarker()
    ensures Markers("?") == 1
  {
    assert "?"[..0] == "";
  }

  lemma {:induction false} MarkersConcat(a: string, b: string)
    ensures Markers(a + b) == Markers(a) + Markers(b)
  {
    if b == "" {
      assert a + b == a;
    } else {
      MarkersConcat(a, b[..|b| - 1]);
      assert (a + b)[..|a + b| - 1] == a + b[..|b| - 1];
    }
  }

  lemma OrderMarkers()
    ensures Markers(ORDER_AND_PAGE) == 2
  {
    hide Markers;
    OneMarker();
    NoMarkers(" ORDER BY id DESC LIMIT ");
    NoMarkers(" OFFSET ");
    MarkersConcat(" ORDER BY id DESC LIMIT ", "?");
    MarkersConcat(" ORDER BY id DESC LIMIT " + "?", " OFFSET ");
    MarkersConcat(" ORDER BY id DESC LIMIT " + "?" + " OFFSET ", "?");
  }

  lemma ConditionMarker(c: Column)
    ensures Markers(ConditionText(c)) == 1
  {
    hide Markers;
    OneMarker();
    NameHasNoMarkers(c);
    NoMarkers(" = ");
    MarkersConcat(ColumnName(c), " = ");
    MarkersConcat(ColumnName(c) + " = ", "?");
  }

  lemma {:induction false} ConditionMarkers(columns: seq<Column>)
    requires columns != []
    ensures Markers(Join(Texts(columns), " AND ")) == |columns|
  {
    hide ConditionText, Markers;
    var pre, last := columns[..|columns| - 1], columns[|columns| - 1];
    ConditionMarker(last);
    if pre != [] {
      ConditionMarkers(pre);
      NoMarkers(" AND ");
      assert Texts(columns)[..|columns| - 1] == Texts(pre);
      MarkersConcat(Join(Texts(pre), " AND "), " AND ");
      MarkersConcat(Join(Texts(pre), " AND ") + " AND ", ConditionText(last));
    }
  }

  // ----- Pages -----

  /** The ids below n of the matching rows, newest first. */
  function Newest(rows: Rows, n: nat, f: Filter): seq<nat> {
    if n == 0 then []
    else (if n - 1 in rows && Matches(f, rows[n - 1]) then [n - 1] else []) + Newest(rows, n - 1, f)
  }

  /** The ids below n of the rows that satisfy the conditions of a query, newest first. */
  function NewestWhere(rows: Rows, n: nat, columns: seq<Column>, args: seq<SqlValue>): seq<nat>
    requires |columns| == |args|
  {
    if n == 0 then []
    else
      (if n - 1 in rows && Satisfies(rows[n - 1], columns, args) then [n - 1] else [])
        + NewestWhere(rows, n - 1, columns, args)
  }

  lemma NewestWhereStep(rows: Rows, n: nat, columns: seq<Column>, args: seq<SqlValue>, ids: seq<nat>)
    requires |columns| == |args|
    ensures ids + NewestWhere(rows, 0, columns, args) == ids
    ensures ids + NewestWhere(rows, n + 1, columns, args)
         == (if n in rows && Satisfies(rows[n], columns, args) then ids + [n] else ids)
              + NewestWhere(rows, n, columns, args)
  {
    hide Satisfies;
  }

  /** The query built for a filter finds what the filter asks for. */
  lemma {:induction false} QueryFindsMatches(rows: Rows, n: nat, f: Filter)
    ensures NewestWhere(rows, n, KeptColumns(Clauses(f)), KeptArgs(Clauses(f))) == Newest(rows, n, f)
  {
    hide Satisfies, Matches, KeptColumns, KeptArgs, Clauses;
    if n > 0 {
      QueryFindsMatches(rows, n - 1, f);
      if n - 1 in rows {
        ConditionsSelectMatches(f, rows[n - 1]);
      }
    }
  }

  /** LIMIT and OFFSET. */
  function Page(ids: seq<nat>, limit: nat, offset: nat): seq<nat> {
    if offset >= |ids| then [] else ids[offset..Min(offset + limit, |ids|)]
  }

  /** The full list is strictly descending and holds exactly the matching ids. */
  lemma {:induction false} NewestIsExact(rows: Rows, n: nat, f: Filter)
    ensures var ids := Newest(rows, n, f);
            && (forall i, j :: 0 <= i < j < |ids| ==> ids[i] > ids[j])
            && (forall id: nat :: id in ids <==> id < n && id in rows && Matches(f, rows[id]))
  {
    hide Matches;
    if n > 0 {
      NewestIsExact(rows, n - 1, f);
      var older := Newest(rows, n - 1, f);
      assert forall k :: 0 <= k < |older| ==> older[k] in older;
    }
  }

  function Pages(ids: seq<nat>, size: nat, count: nat): seq<nat> {
    if count == 0 then [] else Pages(ids, size, count - 1) + Page(ids, size, (count - 1) * size)
  }

  lemma {:induction false} PagesArePrefix(ids: seq<nat>, size: nat, count: nat)
    ensures Pages(ids, size, count) == ids[..Min(count * size, |ids|)]
  {
    if count > 0 {
      PagesArePrefix(ids, size, count - 1);
      assert count * size == (count - 1) * size + size;
      assert (count - 1) * size >= 0;
    }
  }

  /** On an unchanged table the pages at offsets 0, k, 2k, ... give every matching row
      once, newest first, with no gap: enough pages concatenate to the full list. */
  lemma PagesCoverMatches(rows: Rows, nextID: nat, f: Filter, size: nat, count: nat)
    requires TableInv(rows, nextID)
    requires count * size >= |Newest(rows, nextID, f)|
    ensures var ids := Pages(Newest(rows, nextID, f), size, count);
            && (forall i, j :: 0 <= i < j < |ids| ==> ids[i] > ids[j])
            && (forall id: nat :: id in ids <==> id in rows && Matches(f, rows[id]))
  {
    hide Matches;
    NewestIsExact(rows, nextID, f);
    PagesArePrefix(Newest(rows, nextID, f), size, count);
    assert forall id: nat :: id in rows ==> rows[id].id == id < nextID;
  }

  /** The direct filter of the repository's test double, which tests for the empty string
      where the query builder tests for blank text. */
  predicate MatchesDirectly(f: Filter, p: Payment) {
    && (f.requestID != "" ==> p.requestID == f.requestID)
    && (f.callerService != "" ==> p.callerService == f.callerService)
    && (f.resourceType != "" ==> p.resourceType == f.resourceType)
    && (f.resourceID != "" ==> p.resourceID == f.resourceID)
    && (f.hasStatus ==> p.status == f.status)
    && (f.provider > 0 ==> p.provider == f.provider)
  }

  /** A filter as the service builds it from a request: texts trimmed, limit defaulted. */
  function ServiceFilter(raw: Filter): Filter {
    raw.(requestID := TrimSpace(raw.requestID), callerService := TrimSpace(raw.callerService),
         resourceType := TrimSpace(raw.resourceType), resourceID := TrimSpace(raw.resourceID),
         limit := if raw.limit <= 0 then 100 else raw.limit)
  }

  /** What the caller of the service asks for: each text that is not blank names a column's
      value, up to surrounding white space. */
  predicate Wanted(raw: Filter, p: Payment) {
    && (IsBlank(raw.requestID) || p.requestID == TrimSpace(raw.requestID))
    && (IsBlank(raw.callerService) || p.callerService == TrimSpace(raw.callerService))
    && (IsBlank(raw.resourceType) || p.resourceType == TrimSpace(raw.resourceType))
    && (IsBlank(raw.resourceID) || p.resourceID == TrimSpace(raw.resourceID))
    && (!raw.hasStatus || p.status == raw.status)
    && (raw.provider <= 0 || p.provider == raw.provider)
  }

  /** All ids of wanted rows, strictly descending. */
  predicate NewestWanted(rows: Rows, raw: Filter, ids: seq<nat>) {
    && (forall i, j :: 0 <= i < j < |ids| ==> ids[i] > ids[j])
    && (forall k :: 0 <= k < |ids| ==> ids[k] in rows && Wanted(raw, rows[ids[k]]))
    && (forall id :: id in rows && Wanted(raw, rows[id]) ==> id in ids)
  }

  lemma ServiceFilterWanted(raw: Filter, p: Payment)
    ensures Matches(ServiceFilter(raw), p) <==> Wanted(raw, p)
  {
    hide TrimSpace;
    TrimSpaceIdempotent(raw.requestID);
    TrimSpaceIdempotent(raw.callerService);
    TrimSpaceIdempotent(raw.resourceType);
    TrimSpaceIdempotent(raw.resourceID);
  }

  /** The filter that the service passes finds what its caller wants. */
  lemma ServiceListsWanted(rows: Rows, nextID: nat, raw: Filter)
    requires TableInv(rows, nextID)
    ensures NewestWanted(rows, raw, Newest(rows, nextID, ServiceFilter(raw)))
    ensures ServiceFilter(raw).limit == if raw.limit > 0 then raw.limit else 100
    ensures ServiceFilter(raw).offset == raw.offset
  {
    hide Matches, Wanted, TrimSpace;
    NewestIsExact(rows, nextID, ServiceFilter(raw));
    forall id | id in rows
      ensures Matches(ServiceFilter(raw), rows[id]) <==> Wanted(raw, rows[id])
    {
      ServiceFilterWanted(raw, rows[id]);
    }
    var ids := Newest(rows, nextID, ServiceFilter(raw));
    assert forall k :: 0 <= k < |ids| ==> ids[k] in ids;
    assert forall id :: id in rows ==> rows[id].id == id < nextID;
  }

  /** For the filters that the service passes, both filters select the same rows. */
  lemma ServiceFilterAgrees(raw: Filter, p: Payment)
    ensures Matches(ServiceFilter(raw), p) <==> MatchesDirectly(ServiceFilter(raw), p)
  {
    TrimSpaceIdempotent(raw.requestID);
    TrimSpaceIdempotent(raw.callerService);
    TrimSpaceIdempotent(raw.resourceType);
    TrimSpaceIdempotent(raw.resourceID);
  }

  predicate EmptyIfBlank(s: string) {
    IsBlank(s) ==> s == ""
  }

  /** The row p with the texts that a filter asks for, and none where the text is blank. */
  function Fitted(f: Filter, p: Payment): Payment {
    p.(requestID := if IsBlank(f.requestID) then "" else f.requestID,
       callerService := if IsBlank(f.callerService) then "" else f.callerService,
       resourceType := if IsBlank(f.resourceType) then "" else f.resourceType,
       resourceID := if IsBlank(f.resourceID) then "" else f.resourceID,
       status := f.status, provider := f.provider)
  }

  /** In general they agree exactly on filters without a blank but non-empty text, which
      only the query builder ignores; otherwise they part on a row fitted to the filter. */
  lemma FiltersAgreeExactly(f: Filter, p: Payment)
    ensures (forall q :: Matches(f, q) <==> MatchesDirectly(f, q))
        <==> && EmptyIfBlank(f.requestID) && EmptyIfBlank(f.callerService)
             && EmptyIfBlank(f.resourceType) && EmptyIfBlank(f.resourceID)
    ensures Matches(f, Fitted(f, p))
  {
    assert IsBlank("");
    hide IsBlank;
    assert Matches(f, Fitted(f, p));
    assert MatchesDirectly(f, Fitted(f, p)) <==>
      && EmptyIfBlank(f.requestID) && EmptyIfBlank(f.callerService)
      && EmptyIfBlank(f.resourceType) && EmptyIfBlank(f.resourceID);
  }

  /** One such filter and row. */
  lemma BlankTextDiffers(p: Payment)
    requires p.requestID == "r"
    ensures var f := Filter(" ", "", "", "", false, 0, 0, 10, 0); Matches(f, p) && !MatchesDirectly(f, p)
  {
    assert TrimLeft(" ") == TrimLeft("");
    assert IsBlank(" ");
  }
}
