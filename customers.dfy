/**
 * The customer list of the admin panel: the store's order rows, each with
 * its embedded customer, grouped by `customer_id` into one entry per
 * customer with an order count, the amount spent and a last order date;
 * and the order statistics of one customer's detail page.
 *
 * Timestamps are whole numbers that grow with time: the ISO strings of the
 * backend compare the same way.
 */
module Customers {
  import opened Wrappers
  import opened Grouping
  import Analytics

  /** The embedded `customer:customers(...)` record. */
  datatype CustomerInfo = CustomerInfo(id: string, fullName: string, phoneNumber: string,
                                       email: Option<string>, createdAt: string)

  /** An order row of the store with its first embedded customer, if any. */
  datatype CustomerOrderRow = CustomerOrderRow(customerId: string, totalAmount: int, createdAt: int,
                                               customer: Option<CustomerInfo>)

  /** One entry of the customer list. */
  datatype Customer = Customer(id: string, fullName: string, phoneNumber: string, email: Option<string>,
                               createdAt: string, totalOrders: int, totalSpent: int, lastOrderDate: int)

  predicate HasCustomer(r: CustomerOrderRow) { r.customer.Some? }
  function CustomerIdOf(r: CustomerOrderRow): string { r.customerId }
  function AmountOf(r: CustomerOrderRow): int { r.totalAmount }
  function CreatedAt(r: CustomerOrderRow): int { r.createdAt }
  function OrderCountOf(c: Customer): int { c.totalOrders }
  function SpentOf(c: Customer): int { c.totalSpent }
  function LastOrderOf(c: Customer): int { c.lastOrderDate }

  /** The rows the aggregation loop does not skip: those with a customer. */
  function Kept(rows: seq<CustomerOrderRow>): (kept: seq<CustomerOrderRow>)
    ensures forall i :: 0 <= i < |kept| ==> HasCustomer(kept[i])
  {
    FilterRows(rows, HasCustomer)
  }

  /**
   * The embedded customer of a row. Only rows with one are grouped (`Kept`),
   * so the placeholder for a row without one is never part of an entry.
   */
  function InfoOf(r: CustomerOrderRow): CustomerInfo
  {
    match r.customer
    case Some(info) => info
    case None => CustomerInfo(r.customerId, "", "", None, "")
  }

  /**
   * The entry of customer `id`: the details of the first row's customer, the
   * number of rows, their total amount, and as last order date the latest
   * `created_at` (`trackLatest`, as `getCustomers` does) or the first row's
   * (as `searchCustomers` does, which never updates it).
   */
  function CustomerEntry(kept: seq<CustomerOrderRow>, id: string, trackLatest: bool): Customer
    requires id in GroupKeys(kept, CustomerIdOf)
  {
    var first := FirstWhere(kept, CustomerIdOf, id);
    var info := InfoOf(first);
    Customer(info.id, info.fullName, info.phoneNumber, info.email, info.createdAt,
             SumWhere(kept, CustomerIdOf, id, One),
             SumWhere(kept, CustomerIdOf, id, AmountOf),
             if trackLatest then LatestWhere(kept, CustomerIdOf, id, CreatedAt) else first.createdAt)
  }

  /** `Array.from(customerMap.values())`: one entry per customer, in first-seen order. */
  function CustomerEntries(rows: seq<CustomerOrderRow>, trackLatest: bool): (cs: seq<Customer>)
    ensures |cs| == |GroupKeys(Kept(rows), CustomerIdOf)|
  {
    var kept := Kept(rows);
    var keys := GroupKeys(kept, CustomerIdOf);
    seq(|keys|, j requires 0 <= j < |keys| => CustomerEntry(kept, keys[j], trackLatest))
  }

  /** The entry of customer `k` after a kept `row` is processed. */
  function AddToCustomer(kept: seq<CustomerOrderRow>, row: CustomerOrderRow, k: string, trackLatest: bool): Customer
    requires k in GroupKeys(kept + [row], CustomerIdOf)
  {
    var info := InfoOf(row);
    var before := if k in GroupKeys(kept, CustomerIdOf) then CustomerEntry(kept, k, trackLatest)
                  else Customer(info.id, info.fullName, info.phoneNumber, info.email, info.createdAt, 0, 0, row.createdAt);
    if k == row.customerId then
      before.(totalOrders := before.totalOrders + 1,
              totalSpent := before.totalSpent + row.totalAmount,
              lastOrderDate := if trackLatest && row.createdAt > before.lastOrderDate then row.createdAt
                               else before.lastOrderDate)
    else before
  }

  lemma {:induction false} CustomerEntryAddRow(kept: seq<CustomerOrderRow>, row: CustomerOrderRow, k: string, trackLatest: bool)
    requires k in GroupKeys(kept + [row], CustomerIdOf)
    ensures CustomerEntry(kept + [row], k, trackLatest) == AddToCustomer(kept, row, k, trackLatest)
  {
    var rs := kept + [row];
    var known := k in GroupKeys(kept, CustomerIdOf);
    FirstWhereAddRow(kept, row, CustomerIdOf, k);
    var first := FirstWhere(rs, CustomerIdOf, k);
    var info := InfoOf(first);
    var count := SumWhere(rs, CustomerIdOf, k, One);
    var spent := SumWhere(rs, CustomerIdOf, k, AmountOf);
    SumWhereAddRow(kept, row, CustomerIdOf, k, One);
    SumWhereAddRow(kept, row, CustomerIdOf, k, AmountOf);
    LatestWhereAddRow(kept, row, CustomerIdOf, k, CreatedAt);
    if !known {
      SumWhereNewKey(kept, CustomerIdOf, k, One);
      SumWhereNewKey(kept, CustomerIdOf, k, AmountOf);
    }
    var last := if trackLatest then LatestWhere(rs, CustomerIdOf, k, CreatedAt) else first.createdAt;
    assert CustomerEntry(rs, k, trackLatest)
        == Customer(info.id, info.fullName, info.phoneNumber, info.email, info.createdAt, count, spent, last);
  }

  /** The row's own customer's entry, `c` before the row, gains the row's order, amount and date. */
  lemma AddToOwnCustomer(seen: seq<CustomerOrderRow>, row: CustomerOrderRow, trackLatest: bool, c: Customer)
    requires c == if row.customerId in GroupKeys(seen, CustomerIdOf) then CustomerEntry(seen, row.customerId, trackLatest)
                  else var info := InfoOf(row);
                       Customer(info.id, info.fullName, info.phoneNumber, info.email, info.createdAt, 0, 0, row.createdAt)
    ensures row.customerId in GroupKeys(seen + [row], CustomerIdOf)
    ensures AddToCustomer(seen, row, row.customerId, trackLatest)
         == c.(totalOrders := c.totalOrders + 1, totalSpent := c.totalSpent + row.totalAmount,
               lastOrderDate := if trackLatest && row.createdAt > c.lastOrderDate then row.createdAt else c.lastOrderDate)
  {
    GroupKeysAddRow(seen, row, CustomerIdOf);
  }

  /**
   * The body of the `forEach` loop for a row with a customer: a new
   * customer's entry starts from the row's customer with zero totals and the
   * row's date; then the row adds one order and its amount, and, when
   * `trackLatest`, a later `created_at` replaces the last order date.
   */
  method AddRow(ghost seen: seq<CustomerOrderRow>, keys: seq<string>, entries: map<string, Customer>,
                row: CustomerOrderRow, trackLatest: bool)
    returns (keys': seq<string>, entries': map<string, Customer>)
    requires HasCustomer(row)
    requires keys == GroupKeys(seen, CustomerIdOf)
    requires forall id :: id in entries <==> id in keys
    requires forall id :: id in entries ==> entries[id] == CustomerEntry(seen, id, trackLatest)
    ensures keys' == GroupKeys(seen + [row], CustomerIdOf)
    ensures forall id :: id in entries' <==> id in keys'
    ensures forall id :: id in entries' ==> entries'[id] == CustomerEntry(seen + [row], id, trackLatest)
  {
    var info := row.customer.value;
    var id := row.customerId;
    keys', entries' := keys, entries;
    if id !in entries' {
      entries' := entries'[id := Customer(info.id, info.fullName, info.phoneNumber, info.email,
                                          info.createdAt, 0, 0, row.createdAt)];
      keys' := keys' + [id];
    }
    var c := entries'[id];
    var last := if trackLatest && row.createdAt > c.lastOrderDate then row.createdAt else c.lastOrderDate;
    var updated := c.(totalOrders := c.totalOrders + 1, totalSpent := c.totalSpent + row.totalAmount,
                      lastOrderDate := last);
    GroupKeysAddRow(seen, row, CustomerIdOf);
    assert c == if id in GroupKeys(seen, CustomerIdOf) then CustomerEntry(seen, id, trackLatest)
                else Customer(info.id, info.fullName, info.phoneNumber, info.email, info.createdAt, 0, 0, row.createdAt);
    AddToOwnCustomer(seen, row, trackLatest, c);
    CustomerEntryAddRow(seen, row, id, trackLatest);
    forall k | k in entries' && k != id ensures entries'[k] == CustomerEntry(seen + [row], k, trackLatest) {
      CustomerEntryAddRow(seen, row, k, trackLatest);
    }
    entries' := entries'[id := updated];
  }

  /** One turn of the `forEach` loop: a row without a customer is skipped (`return`). */
  method Step(ghost done: seq<CustomerOrderRow>, keys: seq<string>, entries: map<string, Customer>,
              row: CustomerOrderRow, trackLatest: bool)
    returns (keys': seq<string>, entries': map<string, Customer>)
    requires keys == GroupKeys(Kept(done), CustomerIdOf)
    requires forall id :: id in entries <==> id in keys
    requires forall id :: id in entries ==> entries[id] == CustomerEntry(Kept(done), id, trackLatest)
    ensures keys' == GroupKeys(Kept(done + [row]), CustomerIdOf)
    ensures forall id :: id in entries' <==> id in keys'
    ensures forall id :: id in entries' ==> entries'[id] == CustomerEntry(Kept(done + [row]), id, trackLatest)
  {
    FilterRowsAddRow(done, row, HasCustomer);
    if row.customer.Some? {
      keys', entries' := AddRow(Kept(done), keys, entries, row, trackLatest);
    } else {
      keys', entries' := keys, entries;
    }
  }

  /** The `forEach` loop that fills `customerMap`. */
  method AggregateCustomers(rows: seq<CustomerOrderRow>, trackLatest: bool)
    returns (keys: seq<string>, entries: map<string, Customer>)
    ensures keys == GroupKeys(Kept(rows), CustomerIdOf)
    ensures forall id :: id in entries <==> id in keys
    ensures forall id :: id in entries ==> entries[id] == CustomerEntry(Kept(rows), id, trackLatest)
  {
    keys := [];
    entries := map[];
    var i := 0;
    while i < |rows|
      invariant 0 <= i <= |rows|
      invariant keys == GroupKeys(Kept(rows[..i]), CustomerIdOf)
      invariant forall id :: id in entries <==> id in keys
      invariant forall id :: id in entries ==> entries[id] == CustomerEntry(Kept(rows[..i]), id, trackLatest)
    {
      PrefixStep(rows, i);
      keys, entries := Step(rows[..i], keys, entries, rows[i], trackLatest);
      i := i + 1;
    }
    assert rows[..|rows|] == rows;
  }

  /**
   * `getCustomers`: the store's customers, most recent order first; `None`
   * (no store, failed query) gives `[]`.
   */
  method GetCustomers(rows: Option<seq<CustomerOrderRow>>) returns (cs: seq<Customer>)
    ensures rows.None? ==> cs == []
    ensures rows.Some? ==> cs == SortDesc(CustomerEntries(rows.value, true), LastOrderOf)
  {
    if rows.None? {
      return [];
    }
    var keys, entries := AggregateCustomers(rows.value, true);
    var values := seq(|keys|, j requires 0 <= j < |keys| => entries[keys[j]]);
    assert values == CustomerEntries(rows.value, true);
    cs := SortDesc(values, LastOrderOf);
  }

  /**
   * `searchCustomers` on the rows the backend matched: the same entries, but
   * the last order date is never updated and the list keeps first-seen order.
   */
  method SearchCustomers(rows: Option<seq<CustomerOrderRow>>) returns (cs: seq<Customer>)
    ensures rows.None? ==> cs == []
    ensures rows.Some? ==> cs == CustomerEntries(rows.value, false)
  {
    if rows.None? {
      return [];
    }
    var keys, entries := AggregateCustomers(rows.value, false);
    cs := seq(|keys|, j requires 0 <= j < |keys| => entries[keys[j]]);
  }

  /** A `customer_id` has an entry exactly when some row of it has a customer. */
  lemma CustomerKeys(rows: seq<CustomerOrderRow>, k: string)
    ensures k in GroupKeys(Kept(rows), CustomerIdOf)
        <==> exists i :: 0 <= i < |rows| && rows[i].customerId == k && HasCustomer(rows[i])
  {
    var kept := Kept(rows);
    GroupKeysMembers(kept, CustomerIdOf, k);
    if k in GroupKeys(kept, CustomerIdOf) {
      var i :| 0 <= i < |kept| && CustomerIdOf(kept[i]) == k;
      FilterRowsMembers(rows, HasCustomer, kept[i]);
    }
    if exists i :: 0 <= i < |rows| && rows[i].customerId == k && HasCustomer(rows[i]) {
      var i :| 0 <= i < |rows| && rows[i].customerId == k && HasCustomer(rows[i]);
      FilterRowsMembers(rows, HasCustomer, rows[i]);
      var j :| 0 <= j < |kept| && kept[j] == rows[i];
      assert CustomerIdOf(kept[j]) == k;
    }
  }

  /** The order counts of all entries add up to the number of rows with a customer. */
  lemma CustomerCountsCoverRows(rows: seq<CustomerOrderRow>, trackLatest: bool)
    ensures SumOf(CustomerEntries(rows, trackLatest), OrderCountOf) == |Kept(rows)|
  {
    var kept := Kept(rows);
    var keys := GroupKeys(kept, CustomerIdOf);
    SumOfPerKey(CustomerEntries(rows, trackLatest), OrderCountOf, keys, kept, CustomerIdOf, One);
    GroupPartition(kept, CustomerIdOf, One);
    SumOfOnes(kept);
  }

  /** The amounts spent by all entries add up to the amounts of the rows with a customer. */
  lemma CustomerSpendingCoversRows(rows: seq<CustomerOrderRow>, trackLatest: bool)
    ensures SumOf(CustomerEntries(rows, trackLatest), SpentOf) == SumOf(Kept(rows), AmountOf)
  {
    var kept := Kept(rows);
    var keys := GroupKeys(kept, CustomerIdOf);
    SumOfPerKey(CustomerEntries(rows, trackLatest), SpentOf, keys, kept, CustomerIdOf, AmountOf);
    GroupPartition(kept, CustomerIdOf, AmountOf);
  }

  /**
   * `getCustomers`: newest last order first, the same entries, and each
   * entry's last order date is the latest among that customer's rows: no
   * row of that customer is later, and one of them has exactly that date.
   */
  lemma GetCustomersNewestFirst(rows: seq<CustomerOrderRow>)
    ensures SortedDesc(SortDesc(CustomerEntries(rows, true), LastOrderOf), LastOrderOf)
    ensures multiset(SortDesc(CustomerEntries(rows, true), LastOrderOf)) == multiset(CustomerEntries(rows, true))
    ensures forall j, i :: 0 <= j < |CustomerEntries(rows, true)| && 0 <= i < |Kept(rows)|
              && Kept(rows)[i].customerId == GroupKeys(Kept(rows), CustomerIdOf)[j]
              ==> Kept(rows)[i].createdAt <= CustomerEntries(rows, true)[j].lastOrderDate
    ensures forall j :: 0 <= j < |CustomerEntries(rows, true)| ==>
              exists i :: 0 <= i < |Kept(rows)| && Kept(rows)[i].customerId == GroupKeys(Kept(rows), CustomerIdOf)[j]
                          && Kept(rows)[i].createdAt == CustomerEntries(rows, true)[j].lastOrderDate
  {
    var kept := Kept(rows);
    var keys := GroupKeys(kept, CustomerIdOf);
    var cs := CustomerEntries(rows, true);
    forall j, i | 0 <= j < |cs| && 0 <= i < |kept| && kept[i].customerId == keys[j]
      ensures kept[i].createdAt <= cs[j].lastOrderDate
    {
      LatestWhereIsMax(kept, CustomerIdOf, keys[j], CreatedAt);
      assert CustomerIdOf(kept[i]) == keys[j];
    }
    forall j | 0 <= j < |cs|
      ensures exists i :: 0 <= i < |kept| && kept[i].customerId == keys[j] && kept[i].createdAt == cs[j].lastOrderDate
    {
      LatestWhereIsMax(kept, CustomerIdOf, keys[j], CreatedAt);
      var i :| 0 <= i < |kept| && CustomerIdOf(kept[i]) == keys[j]
               && CreatedAt(kept[i]) == LatestWhere(kept, CustomerIdOf, keys[j], CreatedAt);
      assert kept[i].customerId == keys[j] && kept[i].createdAt == cs[j].lastOrderDate;
    }
  }

  /**
   * When the rows arrive newest first (the order `getCustomers` asks the
   * backend for), keeping the first row's date, as `searchCustomers` does,
   * gives the same entries as tracking the latest one.
   */
  lemma SearchAgreesOnNewestFirst(rows: seq<CustomerOrderRow>)
    requires SortedDesc(rows, CreatedAt)
    ensures CustomerEntries(rows, false) == CustomerEntries(rows, true)
  {
    var kept := Kept(rows);
    var keys := GroupKeys(kept, CustomerIdOf);
    FilterRowsSorted(rows, HasCustomer, CreatedAt);
    forall j | 0 <= j < |keys|
      ensures CustomerEntry(kept, keys[j], false) == CustomerEntry(kept, keys[j], true)
    {
      LatestIsFirstWhenSorted(kept, CustomerIdOf, keys[j], CreatedAt);
    }
  }

  // ---------------------------------------------------------------------
  // The detail page (getCustomerDetails)
  // ---------------------------------------------------------------------

  /** One of the customer's orders at the store, newest first as fetched. */
  datatype DetailOrder = DetailOrder(totalAmount: int, createdAt: int)

  datatype OrderStats = OrderStats(totalOrders: nat, totalSpent: int, averageOrderValue: real,
                                   lastOrderDate: Option<int>)

  function DetailAmount(o: DetailOrder): int { o.totalAmount }
  function DetailCreated(o: DetailOrder): int { o.createdAt }

  /**
   * The statistics block: the order count, the amount spent, the average
   * (0 with no orders) and the first order's date, absent with no orders.
   */
  function OrderStatsOf(orders: seq<DetailOrder>): (s: OrderStats)
    ensures s.totalOrders == |orders|
    ensures s.totalSpent == SumOf(orders, DetailAmount)
    ensures s.totalOrders == 0 ==> s.averageOrderValue == 0.0
    ensures s.totalOrders > 0 ==> s.averageOrderValue * s.totalOrders as real == s.totalSpent as real
    ensures s.lastOrderDate.None? <==> orders == []
    ensures orders != [] ==> s.lastOrderDate == Some(orders[0].createdAt)
  {
    var spent := SumOf(orders, DetailAmount);
    OrderStats(|orders|, spent, Analytics.AverageOrderValue(spent, |orders|),
               if orders == [] then None else Some(orders[0].createdAt))
  }

  /** Orders fetched newest first make the reported last order date the latest one. */
  lemma LastOrderIsLatest(orders: seq<DetailOrder>)
    requires SortedDesc(orders, DetailCreated) && orders != []
    ensures OrderStatsOf(orders).lastOrderDate.Some?
    ensures forall i :: 0 <= i < |orders| ==> orders[i].createdAt <= OrderStatsOf(orders).lastOrderDate.value
    ensures exists i :: 0 <= i < |orders| && orders[i].createdAt == OrderStatsOf(orders).lastOrderDate.value
  {
    forall i | 0 < i < |orders| ensures orders[i].createdAt <= orders[0].createdAt {
      assert DetailCreated(orders[0]) >= DetailCreated(orders[i]);
    }
  }

  datatype CustomerDetails = CustomerDetails(customer: CustomerInfo, orders: seq<DetailOrder>, stats: OrderStats)

  /**
   * `getCustomerDetails`: `None` when the customer could not be fetched (no
   * store, failed query, no such row) or the orders query failed, both of which
   * end in the `catch` that returns null; null order data counts as no orders.
   */
  function GetCustomerDetails(customer: Option<CustomerInfo>, orders: Fetch<seq<DetailOrder>>): (d: Option<CustomerDetails>)
    ensures d.None? <==> customer.None? || orders.Failed?
    ensures d.Some? ==> d.value.customer == customer.value
    ensures d.Some? ==> d.value.orders == orders.data.GetOr([]) && d.value.stats == OrderStatsOf(orders.data.GetOr([]))
    ensures d.Some? && orders.data.None? ==> d.value.stats.totalOrders == 0 && d.value.stats.lastOrderDate.None?
  {
    match (customer, orders)
    case (None, _) => None
    case (_, Failed) => None
    case (Some(c), Fetched(data)) => Some(CustomerDetails(c, data.GetOr([]), OrderStatsOf(data.GetOr([]))))
  }
}
