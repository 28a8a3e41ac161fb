/**
 * The dashboard's analytics, computed in the browser from the rows the
 * backend returns for a date range: the headline figures, the per-day trend
 * series, the best-selling products and the revenue split by category.
 *
 * Amounts are whole numbers of the smallest currency unit and days are day
 * numbers. A query that fails (or a store that cannot be found) is `None`;
 * the functions then return what their `catch` block returns.
 */
module Analytics {
  import opened Wrappers
  import opened Grouping

  // ---------------------------------------------------------------------
  // Rows
  // ---------------------------------------------------------------------

  /** An order in the range: `id, total_amount, customer_id, created_at`. */
  datatype OrderRow = OrderRow(id: string, totalAmount: int, customerId: Option<string>, createdDay: int)

  /** The first product embedded in an order item (`product?.[0]`). */
  datatype ProductInfo = ProductInfo(name: string, category: string)

  /** An order item in the range with its embedded product, if any. */
  datatype ItemRow = ItemRow(productId: string, quantity: int, price: int, product: Option<ProductInfo>)

  datatype AnalyticsData = AnalyticsData(totalOrders: nat, totalRevenue: int, totalCustomers: nat,
                                         averageOrderValue: real, growthPercentage: real, topCategory: string)

  /** One point of a trend chart. */
  datatype TrendPoint = TrendPoint(day: int, value: int)

  datatype TopProduct = TopProduct(id: string, name: string, category: string,
                                   totalSales: int, totalRevenue: int, orderCount: int)

  datatype CategoryBreakdown = CategoryBreakdown(category: string, totalSales: int, totalRevenue: int,
                                                 orderCount: int, percentage: real)

  function Amount(o: OrderRow): int { o.totalAmount }
  function CustomerOf(o: OrderRow): Option<string> { o.customerId }
  function DayOf(o: OrderRow): int { o.createdDay }
  function ProductIdOf(item: ItemRow): string { item.productId }
  function Quantity(item: ItemRow): int { item.quantity }
  function LineRevenue(item: ItemRow): int { item.quantity * item.price }
  function Value(p: TrendPoint): int { p.value }
  function ProductRevenue(p: TopProduct): int { p.totalRevenue }
  function CategoryRevenue(c: CategoryBreakdown): int { c.totalRevenue }
  function CategoryCount(c: CategoryBreakdown): int { c.orderCount }

  /** `item.product?.[0]?.category || "Unknown"`. */
  function CategoryOf(item: ItemRow): (c: string)
    ensures c != ""
    ensures c != "Unknown" ==> item.product.Some? && c == item.product.value.category
  {
    if item.product.Some? && item.product.value.category != "" then item.product.value.category else "Unknown"
  }

  /** `item.product?.[0]?.name || "Unknown"`. */
  function NameOf(item: ItemRow): (n: string)
    ensures n != ""
    ensures n != "Unknown" ==> item.product.Some? && n == item.product.value.name
  {
    if item.product.Some? && item.product.value.name != "" then item.product.value.name else "Unknown"
  }

  // ---------------------------------------------------------------------
  // Headline figures (getAnalyticsData)
  // ---------------------------------------------------------------------

  /** What the `catch` block returns. */
  const NoAnalytics := AnalyticsData(0, 0, 0, 0.0, 0.0, "N/A")

  /** `totalOrders > 0 ? totalRevenue / totalOrders : 0`. */
  function AverageOrderValue(totalRevenue: int, totalOrders: nat): (avg: real)
    ensures totalOrders == 0 ==> avg == 0.0
    ensures totalOrders > 0 ==> avg * totalOrders as real == totalRevenue as real
  {
    if totalOrders > 0 then totalRevenue as real / totalOrders as real else 0.0
  }

  /** `prevRevenue > 0 ? ((totalRevenue - prevRevenue) / prevRevenue) * 100 : 0`. */
  function GrowthPercentage(totalRevenue: int, prevRevenue: int): (g: real)
    ensures prevRevenue <= 0 ==> g == 0.0
    ensures prevRevenue > 0 ==> (g > 0.0 <==> totalRevenue > prevRevenue)
    ensures prevRevenue > 0 ==> (g == 0.0 <==> totalRevenue == prevRevenue)
  {
    if prevRevenue > 0 then ((totalRevenue - prevRevenue) as real / prevRevenue as real) * 100.0 else 0.0
  }

  /** The quantity sold in category `c`. */
  function CategoryQuantity(items: seq<ItemRow>, c: string): int
  {
    SumWhere(items, CategoryOf, c, Quantity)
  }

  /** Category `keys[j]` has a positive total, no category sells more, and every earlier one sells less. */
  predicate FirstMaximum(items: seq<ItemRow>, keys: seq<string>, j: int)
    requires 0 <= j < |keys|
  {
    && CategoryQuantity(items, keys[j]) > 0
    && (forall i :: 0 <= i < |keys| ==> CategoryQuantity(items, keys[i]) <= CategoryQuantity(items, keys[j]))
    && (forall i :: 0 <= i < j ==> CategoryQuantity(items, keys[i]) < CategoryQuantity(items, keys[j]))
  }

  /**
   * `top` is what the strict-`>` scan over the category `Map` picks: "N/A"
   * when no category sold a positive quantity, otherwise the first category,
   * in insertion order, with the greatest quantity.
   */
  predicate IsTopCategory(items: seq<ItemRow>, top: string)
  {
    var keys := GroupKeys(items, CategoryOf);
    if forall i :: 0 <= i < |keys| ==> CategoryQuantity(items, keys[i]) <= 0 then top == "N/A"
    else exists j :: 0 <= j < |keys| && top == keys[j] && FirstMaximum(items, keys, j)
  }

  /** One step of the loop that fills `categoryMap`: the item's quantity goes to its category. */
  method AddQuantity(ghost seen: seq<ItemRow>, keys: seq<string>, totals: map<string, int>, item: ItemRow)
    returns (keys': seq<string>, totals': map<string, int>)
    requires keys == GroupKeys(seen, CategoryOf)
    requires forall c :: c in totals <==> c in keys
    requires forall c :: c in totals ==> totals[c] == SumWhere(seen, CategoryOf, c, Quantity)
    ensures keys' == GroupKeys(seen + [item], CategoryOf)
    ensures forall c :: c in totals' <==> c in keys'
    ensures forall c :: c in totals' ==> totals'[c] == SumWhere(seen + [item], CategoryOf, c, Quantity)
  {
    var category := CategoryOf(item);
    GroupKeysAddRow(seen, item, CategoryOf);
    keys' := keys;
    var current := 0;
    if category in totals {
      current := totals[category];
    } else {
      SumWhereNewKey(seen, CategoryOf, category, Quantity);
      keys' := keys + [category];
    }
    SumWhereAddRow(seen, item, CategoryOf, category, Quantity);
    forall c | c in totals && c != category
      ensures totals[c] == SumWhere(seen + [item], CategoryOf, c, Quantity)
    {
      SumWhereAddRow(seen, item, CategoryOf, c, Quantity);
    }
    totals' := totals[category := current + item.quantity];
  }

  /** The loop that fills `categoryMap`: each category's total quantity, categories in first-seen order. */
  method CategoryQuantities(items: seq<ItemRow>) returns (keys: seq<string>, totals: map<string, int>)
    ensures keys == GroupKeys(items, CategoryOf)
    ensures forall c :: c in totals <==> c in keys
    ensures forall c :: c in totals ==> totals[c] == CategoryQuantity(items, c)
  {
    keys := [];
    totals := map[];
    var i := 0;
    while i < |items|
      invariant 0 <= i <= |items|
      invariant keys == GroupKeys(items[..i], CategoryOf)
      invariant forall c :: c in totals <==> c in keys
      invariant forall c :: c in totals ==> totals[c] == SumWhere(items[..i], CategoryOf, c, Quantity)
    {
      PrefixStep(items, i);
      keys, totals := AddQuantity(items[..i], keys, totals, items[i]);
      i := i + 1;
    }
    assert items[..|items|] == items;
  }

  /** `top` is what the strict-`>` scan picks from the quantities `totals` gives the categories `keys`. */
  predicate ScanPicks(keys: seq<string>, totals: map<string, int>, top: string)
    requires forall j :: 0 <= j < |keys| ==> keys[j] in totals
  {
    if forall i :: 0 <= i < |keys| ==> totals[keys[i]] <= 0 then top == "N/A"
    else exists j :: 0 <= j < |keys| && top == keys[j] && FirstMaxIn(keys, totals, j)
  }

  /** `FirstMaximum`, read from the quantities in `totals`. */
  predicate FirstMaxIn(keys: seq<string>, totals: map<string, int>, j: int)
    requires forall j :: 0 <= j < |keys| ==> keys[j] in totals
    requires 0 <= j < |keys|
  {
    && totals[keys[j]] > 0
    && (forall i :: 0 <= i < |keys| ==> totals[keys[i]] <= totals[keys[j]])
    && (forall i :: 0 <= i < j ==> totals[keys[i]] < totals[keys[j]])
  }

  /** The `forEach` over `categoryMap` that keeps the category with the largest quantity. */
  method ScanTop(keys: seq<string>, totals: map<string, int>) returns (top: string)
    requires forall j :: 0 <= j < |keys| ==> keys[j] in totals
    ensures ScanPicks(keys, totals, top)
  {
    top := "N/A";
    var maxQuantity := 0;
    ghost var at := -1;
    var i := 0;
    while i < |keys|
      invariant 0 <= i <= |keys|
      invariant -1 <= at < i
      invariant at == -1 ==> top == "N/A" && maxQuantity == 0
      invariant at == -1 ==> forall j :: 0 <= j < i ==> totals[keys[j]] <= 0
      invariant at >= 0 ==> top == keys[at] && maxQuantity == totals[keys[at]] > 0
      invariant at >= 0 ==> forall j :: 0 <= j < i ==> totals[keys[j]] <= maxQuantity
      invariant at >= 0 ==> forall j :: 0 <= j < at ==> totals[keys[j]] < maxQuantity
    {
      var quantity := totals[keys[i]];
      if quantity > maxQuantity {
        maxQuantity := quantity;
        top := keys[i];
        at := i;
      }
      i := i + 1;
    }
  }

  /** With each category's own total in `totals`, the scan's pick is the top category of the items. */
  lemma ScanPicksTopCategory(items: seq<ItemRow>, keys: seq<string>, totals: map<string, int>, top: string)
    requires keys == GroupKeys(items, CategoryOf)
    requires forall c :: c in totals <==> c in keys
    requires forall c :: c in totals ==> totals[c] == CategoryQuantity(items, c)
    requires forall j :: 0 <= j < |keys| ==> keys[j] in totals
    requires ScanPicks(keys, totals, top)
    ensures IsTopCategory(items, top)
  {
    assert forall j :: 0 <= j < |keys| ==> totals[keys[j]] == CategoryQuantity(items, keys[j]);
    if !(forall i :: 0 <= i < |keys| ==> totals[keys[i]] <= 0) {
      var j :| 0 <= j < |keys| && top == keys[j] && FirstMaxIn(keys, totals, j);
      assert FirstMaximum(items, keys, j);
    }
  }

  /** The top category of `getAnalyticsData`: the map is filled, then scanned. */
  method TopCategory(items: seq<ItemRow>) returns (top: string)
    ensures IsTopCategory(items, top)
  {
    var keys, totals := CategoryQuantities(items);
    top := ScanTop(keys, totals);
    ScanPicksTopCategory(items, keys, totals, top);
  }

  /** The scan's choice is determined by the items: at most one category satisfies `IsTopCategory`. */
  lemma TopCategoryUnique(items: seq<ItemRow>, a: string, b: string)
    requires IsTopCategory(items, a) && IsTopCategory(items, b)
    ensures a == b
  {
    var keys := GroupKeys(items, CategoryOf);
    if !(forall i :: 0 <= i < |keys| ==> CategoryQuantity(items, keys[i]) <= 0) {
      var ja :| 0 <= ja < |keys| && a == keys[ja] && FirstMaximum(items, keys, ja);
      var jb :| 0 <= jb < |keys| && b == keys[jb] && FirstMaximum(items, keys, jb);
    }
  }

  /** A chosen category (other than the "N/A" default) sold at least as much as every category. */
  lemma TopCategoryIsMaximal(items: seq<ItemRow>, top: string, c: string)
    requires IsTopCategory(items, top)
    requires CategoryQuantity(items, c) > 0
    ensures top in GroupKeys(items, CategoryOf)
    ensures CategoryQuantity(items, c) <= CategoryQuantity(items, top)
  {
    var keys := GroupKeys(items, CategoryOf);
    if c !in keys {
      SumWhereNewKey(items, CategoryOf, c, Quantity);
    }
    var i :| 0 <= i < |keys| && keys[i] == c;
    var j :| 0 <= j < |keys| && top == keys[j] && FirstMaximum(items, keys, j);
  }

  /** The per-category quantities add up to the quantity over all items. */
  lemma CategoryQuantitiesCoverItems(items: seq<ItemRow>)
    ensures SumOverKeys(GroupKeys(items, CategoryOf), items, CategoryOf, Quantity) == SumOf(items, Quantity)
  {
    GroupPartition(items, CategoryOf, Quantity);
  }

  /**
   * `getAnalyticsData`. `orders` are the orders in the range, `prevAmounts`
   * the amounts of the previous period's orders and `categoryItems` the
   * items in the range; `None` is a missing store or a failed query. The
   * previous-period and category queries are not checked for errors, so a
   * failure there counts as no rows.
   */
  method GetAnalyticsData(orders: Option<seq<OrderRow>>, prevAmounts: Option<seq<int>>,
                          categoryItems: Option<seq<ItemRow>>)
    returns (data: AnalyticsData)
    ensures orders.None? ==> data == NoAnalytics
    ensures orders.Some? ==>
      && data.totalOrders == |orders.value|
      && data.totalRevenue == SumOf(orders.value, Amount)
      && data.totalCustomers == |GroupKeys(orders.value, CustomerOf)|
      && data.totalCustomers <= data.totalOrders
      && data.averageOrderValue == AverageOrderValue(data.totalRevenue, data.totalOrders)
      && data.growthPercentage == GrowthPercentage(data.totalRevenue, SumOf(prevAmounts.GetOr([]), Identity))
      && IsTopCategory(categoryItems.GetOr([]), data.topCategory)
  {
    if orders.None? {
      return NoAnalytics;
    }
    var rows := orders.value;
    var totalOrders := |rows|;
    var totalRevenue := SumOf(rows, Amount);
    var uniqueCustomers := |GroupKeys(rows, CustomerOf)|;
    var averageOrderValue := AverageOrderValue(totalRevenue, totalOrders);
    var prevRevenue := SumOf(prevAmounts.GetOr([]), Identity);
    var growthPercentage := GrowthPercentage(totalRevenue, prevRevenue);
    var topCategory := TopCategory(categoryItems.GetOr([]));
    data := AnalyticsData(totalOrders, totalRevenue, uniqueCustomers, averageOrderValue, growthPercentage, topCategory);
  }

  function Identity(x: int): int { x }

  // ---------------------------------------------------------------------
  // Trends (getOrderTrends, getRevenueTrends)
  // ---------------------------------------------------------------------

  /** The day numbers `firstDay`, `firstDay + 1`, ..., `firstDay + n - 1`. */
  function Days(firstDay: int, n: nat): (ds: seq<int>)
    ensures |ds| == n && forall j :: 0 <= j < n ==> ds[j] == firstDay + j
  {
    seq(n, j => firstDay + j)
  }

  /** The number of days from `firstDay` to `lastDay` inclusive. */
  function DayCount(firstDay: int, lastDay: int): nat
  {
    if firstDay <= lastDay then lastDay - firstDay + 1 else 0
  }

  /** One step of the `forEach` that fills `dateMap`: the row's value goes to its day. */
  method AddToDay<T>(ghost seen: seq<T>, dateMap: map<int, int>, row: T, day: T -> int, value: T -> int)
    returns (dateMap': map<int, int>)
    requires forall d :: d in dateMap <==> d in GroupKeys(seen, day)
    requires forall d :: d in dateMap ==> dateMap[d] == SumWhere(seen, day, d, value)
    ensures forall d :: d in dateMap' <==> d in GroupKeys(seen + [row], day)
    ensures forall d :: d in dateMap' ==> dateMap'[d] == SumWhere(seen + [row], day, d, value)
  {
    var d := day(row);
    GroupKeysAddRow(seen, row, day);
    var current := 0;
    if d in dateMap {
      current := dateMap[d];
    } else {
      SumWhereNewKey(seen, day, d, value);
    }
    SumWhereAddRow(seen, row, day, d, value);
    forall e | e in dateMap && e != d
      ensures dateMap[e] == SumWhere(seen + [row], day, e, value)
    {
      SumWhereAddRow(seen, row, day, e, value);
    }
    dateMap' := dateMap[d := current + value(row)];
  }

  /** The `forEach` that fills `dateMap`: each day that has rows, with the sum of their values. */
  method DayTotals<T>(rows: seq<T>, day: T -> int, value: T -> int) returns (dateMap: map<int, int>)
    ensures forall d :: d in dateMap <==> d in GroupKeys(rows, day)
    ensures forall d :: d in dateMap ==> dateMap[d] == SumWhere(rows, day, d, value)
  {
    dateMap := map[];
    var i := 0;
    while i < |rows|
      invariant 0 <= i <= |rows|
      invariant forall d :: d in dateMap <==> d in GroupKeys(rows[..i], day)
      invariant forall d :: d in dateMap ==> dateMap[d] == SumWhere(rows[..i], day, d, value)
    {
      PrefixStep(rows, i);
      dateMap := AddToDay(rows[..i], dateMap, rows[i], day, value);
      i := i + 1;
    }
    assert rows[..|rows|] == rows;
  }

  /**
   * The two loops shared by the trend queries: `dateMap` sums `value` per
   * day, then a `while` loop walks every day from `firstDay` to `lastDay` and records
   * the day's sum, or 0 for a day with no rows.
   */
  method DailySeries<T>(rows: seq<T>, day: T -> int, value: T -> int, firstDay: int, lastDay: int)
    returns (trend: seq<TrendPoint>)
    ensures |trend| == DayCount(firstDay, lastDay)
    ensures forall j :: 0 <= j < |trend| ==>
      trend[j].day == firstDay + j && trend[j].value == SumWhere(rows, day, firstDay + j, value)
  {
    var dateMap := DayTotals(rows, day, value);

    trend := [];
    var currentDay := firstDay;
    while currentDay <= lastDay
      invariant firstDay <= currentDay && (firstDay <= lastDay ==> currentDay <= lastDay + 1)
      invariant firstDay > lastDay ==> currentDay == firstDay
      invariant |trend| == currentDay - firstDay
      invariant forall j :: 0 <= j < |trend| ==> trend[j].day == firstDay + j
      invariant forall j :: 0 <= j < |trend| ==> trend[j].value == SumWhere(rows, day, firstDay + j, value)
      decreases lastDay - currentDay
    {
      var v := 0;
      if currentDay in dateMap {
        v := dateMap[currentDay];
      } else {
        SumWhereNewKey(rows, day, currentDay, value);
      }
      trend := trend + [TrendPoint(currentDay, v)];
      currentDay := currentDay + 1;
    }
  }

  /** `getOrderTrends`: the number of orders placed on each day of the range. */
  method GetOrderTrends(orders: Option<seq<OrderRow>>, firstDay: int, lastDay: int) returns (trend: seq<TrendPoint>)
    ensures orders.None? ==> trend == []
    ensures orders.Some? ==> |trend| == DayCount(firstDay, lastDay)
    ensures orders.Some? ==> forall j :: 0 <= j < |trend| ==>
      trend[j].day == firstDay + j && trend[j].value == SumWhere(orders.value, DayOf, firstDay + j, One)
  {
    if orders.None? {
      return [];
    }
    trend := DailySeries(orders.value, DayOf, One, firstDay, lastDay);
  }

  /** `getRevenueTrends`: the amount ordered on each day of the range. */
  method GetRevenueTrends(orders: Option<seq<OrderRow>>, firstDay: int, lastDay: int) returns (trend: seq<TrendPoint>)
    ensures orders.None? ==> trend == []
    ensures orders.Some? ==> |trend| == DayCount(firstDay, lastDay)
    ensures orders.Some? ==> forall j :: 0 <= j < |trend| ==>
      trend[j].day == firstDay + j && trend[j].value == SumWhere(orders.value, DayOf, firstDay + j, Amount)
  {
    if orders.None? {
      return [];
    }
    trend := DailySeries(orders.value, DayOf, Amount, firstDay, lastDay);
  }

  /**
   * When every row falls inside the range, the series loses nothing: its
   * values add up to the total over all rows.
   */
  lemma SeriesAccountsForEveryRow<T>(trend: seq<TrendPoint>, rows: seq<T>, day: T -> int, value: T -> int,
                                     firstDay: int, lastDay: int)
    requires |trend| == DayCount(firstDay, lastDay)
    requires forall j :: 0 <= j < |trend| ==> trend[j].value == SumWhere(rows, day, firstDay + j, value)
    requires forall i :: 0 <= i < |rows| ==> firstDay <= day(rows[i]) <= lastDay
    ensures SumOf(trend, Value) == SumOf(rows, value)
  {
    var ds := Days(firstDay, |trend|);
    SumOfPerKey(trend, Value, ds, rows, day, value);
    forall i | 0 <= i < |rows| ensures day(rows[i]) in ds {
      assert ds[day(rows[i]) - firstDay] == day(rows[i]);
    }
    PartitionSum(ds, rows, day, value);
  }

  /** The order trend of a range holding every order counts each order once. */
  lemma OrderTrendCountsOrders(trend: seq<TrendPoint>, orders: seq<OrderRow>, firstDay: int, lastDay: int)
    requires |trend| == DayCount(firstDay, lastDay)
    requires forall j :: 0 <= j < |trend| ==> trend[j].value == SumWhere(orders, DayOf, firstDay + j, One)
    requires forall i :: 0 <= i < |orders| ==> firstDay <= orders[i].createdDay <= lastDay
    ensures SumOf(trend, Value) == |orders|
  {
    SeriesAccountsForEveryRow(trend, orders, DayOf, One, firstDay, lastDay);
    SumOfOnes(orders);
  }

  // ---------------------------------------------------------------------
  // Top products (getTopProducts)
  // ---------------------------------------------------------------------

  /** The `productMap` entry of product `id` once every item has been seen. */
  function ProductEntry(items: seq<ItemRow>, id: string): (p: TopProduct)
    requires id in GroupKeys(items, ProductIdOf)
  {
    var first := FirstWhere(items, ProductIdOf, id);
    TopProduct(id, NameOf(first), CategoryOf(first),
               SumWhere(items, ProductIdOf, id, Quantity),
               SumWhere(items, ProductIdOf, id, LineRevenue),
               SumWhere(items, ProductIdOf, id, One))
  }

  /** `Array.from(productMap.values())`: one entry per product, in first-seen order. */
  function ProductEntries(items: seq<ItemRow>): (ps: seq<TopProduct>)
    ensures |ps| == |GroupKeys(items, ProductIdOf)|
    ensures forall j :: 0 <= j < |ps| ==> ps[j] == ProductEntry(items, GroupKeys(items, ProductIdOf)[j])
  {
    var keys := GroupKeys(items, ProductIdOf);
    seq(|keys|, j requires 0 <= j < |keys| => ProductEntry(items, keys[j]))
  }

  /** The entry of product `k` after `item` is processed: created from `item` if new, then `item` added if it is `k`'s. */
  function AddToProduct(rows: seq<ItemRow>, item: ItemRow, k: string): TopProduct
    requires k in GroupKeys(rows + [item], ProductIdOf)
  {
    var before := if k in GroupKeys(rows, ProductIdOf) then ProductEntry(rows, k)
                  else TopProduct(k, NameOf(item), CategoryOf(item), 0, 0, 0);
    if k == item.productId then before.(totalSales := before.totalSales + item.quantity,
                                        totalRevenue := before.totalRevenue + item.quantity * item.price,
                                        orderCount := before.orderCount + 1)
    else before
  }

  lemma {:induction false} ProductEntryAddRow(rows: seq<ItemRow>, item: ItemRow, k: string)
    requires k in GroupKeys(rows + [item], ProductIdOf)
    ensures ProductEntry(rows + [item], k) == AddToProduct(rows, item, k)
  {
    var rs := rows + [item];
    var known := k in GroupKeys(rows, ProductIdOf);
    var mine := k == item.productId;
    FirstWhereAddRow(rows, item, ProductIdOf, k);
    var first := FirstWhere(rs, ProductIdOf, k);
    var sales := SumWhere(rs, ProductIdOf, k, Quantity);
    var revenue := SumWhere(rs, ProductIdOf, k, LineRevenue);
    var count := SumWhere(rs, ProductIdOf, k, One);
    SumWhereAddRow(rows, item, ProductIdOf, k, Quantity);
    SumWhereAddRow(rows, item, ProductIdOf, k, LineRevenue);
    SumWhereAddRow(rows, item, ProductIdOf, k, One);
    if !known {
      SumWhereNewKey(rows, ProductIdOf, k, Quantity);
      SumWhereNewKey(rows, ProductIdOf, k, LineRevenue);
      SumWhereNewKey(rows, ProductIdOf, k, One);
    }
    assert ProductEntry(rs, k) == TopProduct(k, NameOf(first), CategoryOf(first), sales, revenue, count);
  }

  /** The item's own product's entry, `p` before the item, gains the item's quantity, revenue and order. */
  lemma AddToOwnProduct(seen: seq<ItemRow>, item: ItemRow, p: TopProduct)
    requires p == if item.productId in GroupKeys(seen, ProductIdOf) then ProductEntry(seen, item.productId)
                  else TopProduct(item.productId, NameOf(item), CategoryOf(item), 0, 0, 0)
    ensures item.productId in GroupKeys(seen + [item], ProductIdOf)
    ensures AddToProduct(seen, item, item.productId)
         == p.(totalSales := p.totalSales + item.quantity,
               totalRevenue := p.totalRevenue + item.quantity * item.price,
               orderCount := p.orderCount + 1)
  {
    GroupKeysAddRow(seen, item, ProductIdOf);
  }

  /**
   * The body of the `forEach` loop: a new product's entry starts from the
   * item's product with zero totals; then the item adds its quantity, its
   * revenue and one order.
   */
  method AddProduct(ghost seen: seq<ItemRow>, keys: seq<string>, entries: map<string, TopProduct>, item: ItemRow)
    returns (keys': seq<string>, entries': map<string, TopProduct>)
    requires keys == GroupKeys(seen, ProductIdOf)
    requires forall id :: id in entries <==> id in keys
    requires forall id :: id in entries ==> entries[id] == ProductEntry(seen, id)
    ensures keys' == GroupKeys(seen + [item], ProductIdOf)
    ensures forall id :: id in entries' <==> id in keys'
    ensures forall id :: id in entries' ==> entries'[id] == ProductEntry(seen + [item], id)
  {
    var id := item.productId;
    keys', entries' := keys, entries;
    if id !in entries' {
      entries' := entries'[id := TopProduct(id, NameOf(item), CategoryOf(item), 0, 0, 0)];
      keys' := keys' + [id];
    }
    var product := entries'[id];
    var updated := product.(totalSales := product.totalSales + item.quantity,
                            totalRevenue := product.totalRevenue + item.quantity * item.price,
                            orderCount := product.orderCount + 1);
    GroupKeysAddRow(seen, item, ProductIdOf);
    assert product == if id in keys then ProductEntry(seen, id) else TopProduct(id, NameOf(item), CategoryOf(item), 0, 0, 0);
    AddToOwnProduct(seen, item, product);
    ProductEntryAddRow(seen, item, id);
    forall k | k in entries' && k != id ensures entries'[k] == ProductEntry(seen + [item], k) {
      ProductEntryAddRow(seen, item, k);
    }
    entries' := entries'[id := updated];
  }

  /** The loop that fills `productMap`. */
  method AggregateProducts(items: seq<ItemRow>) returns (keys: seq<string>, entries: map<string, TopProduct>)
    ensures keys == GroupKeys(items, ProductIdOf)
    ensures forall id :: id in entries <==> id in keys
    ensures forall id :: id in entries ==> entries[id] == ProductEntry(items, id)
  {
    keys := [];
    entries := map[];
    var i := 0;
    while i < |items|
      invariant 0 <= i <= |items|
      invariant keys == GroupKeys(items[..i], ProductIdOf)
      invariant forall id :: id in entries <==> id in keys
      invariant forall id :: id in entries ==> entries[id] == ProductEntry(items[..i], id)
    {
      PrefixStep(items, i);
      keys, entries := AddProduct(items[..i], keys, entries, items[i]);
      i := i + 1;
    }
    assert items[..|items|] == items;
  }

  /**
   * `getTopProducts`: the products of the range, best revenue first, at most
   * `limit` of them; `None` (missing store, failed query) gives `[]`.
   */
  method GetTopProducts(items: Option<seq<ItemRow>>, limit: nat) returns (top: seq<TopProduct>)
    ensures items.None? ==> top == []
    ensures items.Some? ==> top == Take(SortDesc(ProductEntries(items.value), ProductRevenue), limit)
  {
    if items.None? {
      return [];
    }
    var keys, entries := AggregateProducts(items.value);
    var values := seq(|keys|, j requires 0 <= j < |keys| => entries[keys[j]]);
    assert values == ProductEntries(items.value);
    top := Take(SortDesc(values, ProductRevenue), limit);
  }

  /** Distinct products give distinct entries. */
  lemma ProductEntriesDistinct(items: seq<ItemRow>)
    ensures NoDuplicates(ProductEntries(items))
  {
    var ps := ProductEntries(items);
    var keys := GroupKeys(items, ProductIdOf);
    forall i, j | 0 <= i < j < |ps| ensures ps[i] != ps[j] {
      assert ps[i].id == keys[i] && ps[j].id == keys[j];
    }
  }

  /** Each entry of the top-products list holds the totals of its own product. */
  lemma TopProductsAreEntries(items: seq<ItemRow>, limit: nat)
    ensures forall p :: p in Take(SortDesc(ProductEntries(items), ProductRevenue), limit) ==>
      p.id in GroupKeys(items, ProductIdOf) && p == ProductEntry(items, p.id)
  {
    var ps := ProductEntries(items);
    var sorted := SortDesc(ps, ProductRevenue);
    forall p | p in Take(sorted, limit) ensures p.id in GroupKeys(items, ProductIdOf) && p == ProductEntry(items, p.id) {
      assert p in sorted;
      assert p in multiset(ps);
    }
  }

  /** No product appears twice in the top-products list. */
  lemma TopProductsDistinct(items: seq<ItemRow>, limit: nat)
    ensures NoDuplicates(Take(SortDesc(ProductEntries(items), ProductRevenue), limit))
  {
    var sorted := SortDesc(ProductEntries(items), ProductRevenue);
    ProductEntriesDistinct(items);
    NoDuplicatesPermutation(ProductEntries(items), sorted);
  }

  /**
   * The list is best revenue first and keeps `limit` products, or all of
   * them if there are fewer; no product left out earned more than one kept.
   */
  lemma TopProductsAreTheBest(items: seq<ItemRow>, limit: nat)
    ensures var top := Take(SortDesc(ProductEntries(items), ProductRevenue), limit);
      var n := |GroupKeys(items, ProductIdOf)|;
      && SortedDesc(top, ProductRevenue)
      && |top| == (if limit < n then limit else n)
      && (forall p, q :: p in ProductEntries(items) && p !in top && q in top ==> p.totalRevenue <= q.totalRevenue)
  {
    var ps := ProductEntries(items);
    var sorted := SortDesc(ps, ProductRevenue);
    var top := Take(sorted, limit);
    forall p, q | p in ps && p !in top && q in top ensures p.totalRevenue <= q.totalRevenue {
      assert p in multiset(sorted);
      TakeDominates(sorted, ProductRevenue, limit, p, q);
    }
  }

  /** Every item is counted in exactly one product's `orderCount`. */
  lemma ProductOrderCountsCoverItems(items: seq<ItemRow>)
    ensures SumOf(ProductEntries(items), TopProductCount) == |items|
  {
    var keys := GroupKeys(items, ProductIdOf);
    SumOfPerKey(ProductEntries(items), TopProductCount, keys, items, ProductIdOf, One);
    GroupPartition(items, ProductIdOf, One);
    SumOfOnes(items);
  }

  function TopProductCount(p: TopProduct): int { p.orderCount }

  // ---------------------------------------------------------------------
  // Category breakdown (getCategoryBreakdown)
  // ---------------------------------------------------------------------

  /** The `categoryMap` totals of category `c` with its share of `totalRevenue`. */
  function CategoryEntry(items: seq<ItemRow>, c: string, totalRevenue: int): (b: CategoryBreakdown)
  {
    var t := CategoryTotals(items, c);
    t.(percentage := if totalRevenue > 0 then (t.totalRevenue as real / totalRevenue as real) * 100.0 else 0.0)
  }

  /** The `categoryMap` entry of category `c` once every item has been seen, before any share is computed. */
  function CategoryTotals(items: seq<ItemRow>, c: string): (b: CategoryBreakdown)
  {
    CategoryBreakdown(c, SumWhere(items, CategoryOf, c, Quantity), SumWhere(items, CategoryOf, c, LineRevenue),
                      SumWhere(items, CategoryOf, c, One), 0.0)
  }

  /** `Array.from(categoryMap.entries()).map(...)`: one entry per category, in first-seen order. */
  function CategoryEntries(items: seq<ItemRow>): (bs: seq<CategoryBreakdown>)
    ensures |bs| == |GroupKeys(items, CategoryOf)|
    ensures forall j :: 0 <= j < |bs| ==>
      bs[j] == CategoryEntry(items, GroupKeys(items, CategoryOf)[j], SumOf(items, LineRevenue))
  {
    var keys := GroupKeys(items, CategoryOf);
    seq(|keys|, j requires 0 <= j < |keys| => CategoryEntry(items, keys[j], SumOf(items, LineRevenue)))
  }

  /** The totals of category `c` after `item` is processed. */
  function AddToCategory(rows: seq<ItemRow>, item: ItemRow, c: string): CategoryBreakdown
  {
    var before := if c in GroupKeys(rows, CategoryOf) then CategoryTotals(rows, c) else CategoryBreakdown(c, 0, 0, 0, 0.0);
    if c == CategoryOf(item) then before.(totalSales := before.totalSales + item.quantity,
                                          totalRevenue := before.totalRevenue + item.quantity * item.price,
                                          orderCount := before.orderCount + 1)
    else before
  }

  lemma {:induction false} CategoryEntryAddRow(rows: seq<ItemRow>, item: ItemRow, c: string)
    ensures CategoryTotals(rows + [item], c) == AddToCategory(rows, item, c)
  {
    var rs := rows + [item];
    var sales := SumWhere(rs, CategoryOf, c, Quantity);
    var revenue := SumWhere(rs, CategoryOf, c, LineRevenue);
    var count := SumWhere(rs, CategoryOf, c, One);
    SumWhereAddRow(rows, item, CategoryOf, c, Quantity);
    SumWhereAddRow(rows, item, CategoryOf, c, LineRevenue);
    SumWhereAddRow(rows, item, CategoryOf, c, One);
    if c !in GroupKeys(rows, CategoryOf) {
      SumWhereNewKey(rows, CategoryOf, c, Quantity);
      SumWhereNewKey(rows, CategoryOf, c, LineRevenue);
      SumWhereNewKey(rows, CategoryOf, c, One);
    }
    assert CategoryTotals(rs, c) == CategoryBreakdown(c, sales, revenue, count, 0.0);
  }

  /** The item's own category's entry, `cat` before the item, gains the item's quantity, revenue and order. */
  lemma AddToOwnCategory(seen: seq<ItemRow>, item: ItemRow, cat: CategoryBreakdown)
    requires cat == if CategoryOf(item) in GroupKeys(seen, CategoryOf) then CategoryTotals(seen, CategoryOf(item))
                    else CategoryBreakdown(CategoryOf(item), 0, 0, 0, 0.0)
    ensures AddToCategory(seen, item, CategoryOf(item))
         == cat.(totalSales := cat.totalSales + item.quantity,
                 totalRevenue := cat.totalRevenue + item.quantity * item.price,
                 orderCount := cat.orderCount + 1)
  {
  }

  /**
   * The body of the `forEach` loop: a new category starts with zero totals;
   * then the item adds its quantity, its revenue and one order.
   */
  method AddCategory(ghost seen: seq<ItemRow>, keys: seq<string>, totals: map<string, CategoryBreakdown>, item: ItemRow)
    returns (keys': seq<string>, totals': map<string, CategoryBreakdown>)
    requires keys == GroupKeys(seen, CategoryOf)
    requires forall c :: c in totals <==> c in keys
    requires forall c :: c in totals ==> totals[c] == CategoryTotals(seen, c)
    ensures keys' == GroupKeys(seen + [item], CategoryOf)
    ensures forall c :: c in totals' <==> c in keys'
    ensures forall c :: c in totals' ==> totals'[c] == CategoryTotals(seen + [item], c)
  {
    var category := CategoryOf(item);
    keys', totals' := keys, totals;
    if category !in totals' {
      totals' := totals'[category := CategoryBreakdown(category, 0, 0, 0, 0.0)];
      keys' := keys' + [category];
    }
    var cat := totals'[category];
    var updated := cat.(totalSales := cat.totalSales + item.quantity,
                        totalRevenue := cat.totalRevenue + item.quantity * item.price,
                        orderCount := cat.orderCount + 1);
    assert cat == if category in keys then CategoryTotals(seen, category) else CategoryBreakdown(category, 0, 0, 0, 0.0);
    AddToOwnCategory(seen, item, cat);
    GroupKeysAddRow(seen, item, CategoryOf);
    CategoryEntryAddRow(seen, item, category);
    forall c | c in totals' && c != category ensures totals'[c] == CategoryTotals(seen + [item], c) {
      CategoryEntryAddRow(seen, item, c);
    }
    totals' := totals'[category := updated];
  }

  /** The loop that fills `categoryMap` with quantity, revenue and row count per category. */
  method AggregateCategories(items: seq<ItemRow>) returns (keys: seq<string>, totals: map<string, CategoryBreakdown>)
    ensures keys == GroupKeys(items, CategoryOf)
    ensures forall c :: c in totals <==> c in keys
    ensures forall c :: c in totals ==> totals[c] == CategoryTotals(items, c)
  {
    keys := [];
    totals := map[];
    var i := 0;
    while i < |items|
      invariant 0 <= i <= |items|
      invariant keys == GroupKeys(items[..i], CategoryOf)
      invariant forall c :: c in totals <==> c in keys
      invariant forall c :: c in totals ==> totals[c] == CategoryTotals(items[..i], c)
    {
      PrefixStep(items, i);
      keys, totals := AddCategory(items[..i], keys, totals, items[i]);
      i := i + 1;
    }
    assert items[..|items|] == items;
  }

  /**
   * `getCategoryBreakdown`: per category the quantity, revenue, item count
   * and share of the range's revenue, best revenue first; `None` gives `[]`.
   */
  method GetCategoryBreakdown(items: Option<seq<ItemRow>>) returns (breakdown: seq<CategoryBreakdown>)
    ensures items.None? ==> breakdown == []
    ensures items.Some? ==> breakdown == SortDesc(CategoryEntries(items.value), CategoryRevenue)
  {
    if items.None? {
      return [];
    }
    var rows := items.value;
    var keys, totals := AggregateCategories(rows);
    var values := seq(|keys|, j requires 0 <= j < |keys| => totals[keys[j]]);
    CategoryValuesRevenue(rows, keys, values);
    var totalRevenue := SumOf(values, CategoryRevenue);
    var withShares := seq(|keys|, j requires 0 <= j < |keys| =>
      var cat := values[j];
      CategoryBreakdown(keys[j], cat.totalSales, cat.totalRevenue, cat.orderCount,
                        if totalRevenue > 0 then (cat.totalRevenue as real / totalRevenue as real) * 100.0 else 0.0));
    assert forall j :: 0 <= j < |keys| ==> withShares[j] == CategoryEntry(rows, keys[j], SumOf(rows, LineRevenue));
    assert withShares == CategoryEntries(rows);
    breakdown := SortDesc(withShares, CategoryRevenue);
  }

  /** Adding up the revenue of the `categoryMap` values gives the revenue of all items. */
  lemma {:induction false} CategoryValuesRevenue(rows: seq<ItemRow>, keys: seq<string>, values: seq<CategoryBreakdown>)
    requires keys == GroupKeys(rows, CategoryOf) && |values| == |keys|
    requires forall j :: 0 <= j < |keys| ==> values[j] == CategoryTotals(rows, keys[j])
    ensures SumOf(values, CategoryRevenue) == SumOf(rows, LineRevenue)
  {
    SumOfPerKey(values, CategoryRevenue, keys, rows, CategoryOf, LineRevenue);
    GroupPartition(rows, CategoryOf, LineRevenue);
  }

  /**
   * What the breakdown promises: best revenue first, each category exactly
   * once with its own totals, the item counts adding up to the number of
   * items, and every share 0 when the range earned nothing.
   */
  lemma CategoryBreakdownMeaning(items: seq<ItemRow>)
    ensures var b := SortDesc(CategoryEntries(items), CategoryRevenue);
      && SortedDesc(b, CategoryRevenue)
      && |b| == |GroupKeys(items, CategoryOf)|
      && (forall e :: e in b ==> e.category in GroupKeys(items, CategoryOf)
                                  && e == CategoryEntry(items, e.category, SumOf(items, LineRevenue)))
      && (forall c :: c in GroupKeys(items, CategoryOf) ==> exists e :: e in b && e.category == c)
      && SumOf(b, CategoryCount) == |items|
      && (SumOf(items, LineRevenue) <= 0 ==> forall e :: e in b ==> e.percentage == 0.0)
  {
    BreakdownFromEntries(items);
    BreakdownCoversCategories(items);
    BreakdownCountsItems(items);
  }

  lemma BreakdownFromEntries(items: seq<ItemRow>)
    ensures forall e :: e in SortDesc(CategoryEntries(items), CategoryRevenue) ==> e in CategoryEntries(items)
  {
    var b := SortDesc(CategoryEntries(items), CategoryRevenue);
    forall e | e in b ensures e in CategoryEntries(items) {
      assert e in multiset(b);
    }
  }

  lemma BreakdownCoversCategories(items: seq<ItemRow>)
    ensures forall c :: c in GroupKeys(items, CategoryOf) ==>
      exists e :: e in SortDesc(CategoryEntries(items), CategoryRevenue) && e.category == c
  {
    var es := CategoryEntries(items);
    var keys := GroupKeys(items, CategoryOf);
    var b := SortDesc(es, CategoryRevenue);
    forall c | c in keys ensures exists e :: e in b && e.category == c {
      var j :| 0 <= j < |keys| && keys[j] == c;
      assert es[j] in multiset(b);
    }
  }

  lemma BreakdownCountsItems(items: seq<ItemRow>)
    ensures SumOf(SortDesc(CategoryEntries(items), CategoryRevenue), CategoryCount) == |items|
  {
    var es := CategoryEntries(items);
    SumOfPerKey(es, CategoryCount, GroupKeys(items, CategoryOf), items, CategoryOf, One);
    GroupPartition(items, CategoryOf, One);
    SumOfOnes(items);
    SumOfPermutation(es, SortDesc(es, CategoryRevenue), CategoryCount);
  }
}
