/**
 * The order list and order detail of the admin panel. Orders, customers,
 * order items and products are fetched in separate queries and joined on
 * the client: the ids to fetch are deduplicated with a `Set`, lookups go
 * through `Map`s built from the fetched lists, and each order gains its
 * `customer` and its `order_items`, each item its `product`.
 */
module OrdersJoin {
  import opened Wrappers
  import opened Grouping

  datatype OrderRow = OrderRow(id: string, orderNumber: string, customerId: string, storeId: string,
                               status: string, totalAmount: int, deliveryAddress: string,
                               createdAt: string, updatedAt: string)

  datatype ItemRow = ItemRow(id: string, orderId: string, quantity: int, price: int, productId: string)

  datatype CustomerRow = CustomerRow(id: string, fullName: string, phoneNumber: string, email: Option<string>)

  datatype ProductRow = ProductRow(id: string, name: string, imageUrl: Option<string>)

  /** An item with its `product` (`null` when absent). */
  datatype JoinedItem = JoinedItem(item: ItemRow, product: Option<ProductRow>)

  /** An order with every one of its own fields, its `customer` and its `order_items`. */
  datatype JoinedOrder = JoinedOrder(order: OrderRow, customer: Option<CustomerRow>, orderItems: seq<JoinedItem>)

  function CustomerRowId(c: CustomerRow): string { c.id }
  function ProductRowId(p: ProductRow): string { p.id }

  /** `.filter(Boolean)` on ids: the empty string is falsy. */
  predicate NonEmpty(s: string) { s != "" }

  /** `[...new Set(orders.map(o => o.customer_id).filter(Boolean))]`. */
  function CustomerIds(orders: seq<OrderRow>): (ids: seq<string>)
    ensures NoDuplicates(ids) && forall k :: k in ids ==> k != ""
  {
    Distinct(FilterRows(seq(|orders|, i requires 0 <= i < |orders| => orders[i].customerId), NonEmpty))
  }

  /** `[...new Set(orderItems.map(oi => oi.product_id).filter(Boolean))]`. */
  function ProductIds(items: seq<ItemRow>): (ids: seq<string>)
    ensures NoDuplicates(ids) && forall k :: k in ids ==> k != ""
  {
    Distinct(FilterRows(seq(|items|, i requires 0 <= i < |items| => items[i].productId), NonEmpty))
  }

  /** The deduplicated ids hold every non-empty id of the list once and nothing else. */
  lemma {:induction false} DistinctIdsExact(ids: seq<string>, x: string)
    ensures NoDuplicates(Distinct(FilterRows(ids, NonEmpty)))
    ensures x in Distinct(FilterRows(ids, NonEmpty)) <==> x != "" && x in ids
  {
    FilterRowsMembers(ids, NonEmpty, x);
  }

  lemma CustomerIdsExact(orders: seq<OrderRow>, x: string)
    ensures NoDuplicates(CustomerIds(orders))
    ensures x in CustomerIds(orders) <==> x != "" && exists i :: 0 <= i < |orders| && orders[i].customerId == x
  {
    var ids := seq(|orders|, i requires 0 <= i < |orders| => orders[i].customerId);
    DistinctIdsExact(ids, x);
    if x in ids {
      var i :| 0 <= i < |ids| && ids[i] == x;
      assert orders[i].customerId == x;
    }
    if exists i :: 0 <= i < |orders| && orders[i].customerId == x {
      var i :| 0 <= i < |orders| && orders[i].customerId == x;
      assert ids[i] == x;
    }
  }

  lemma ProductIdsExact(items: seq<ItemRow>, x: string)
    ensures NoDuplicates(ProductIds(items))
    ensures x in ProductIds(items) <==> x != "" && exists i :: 0 <= i < |items| && items[i].productId == x
  {
    var ids := seq(|items|, i requires 0 <= i < |items| => items[i].productId);
    DistinctIdsExact(ids, x);
    if x in ids {
      var i :| 0 <= i < |ids| && ids[i] == x;
      assert items[i].productId == x;
    }
    if exists i :: 0 <= i < |items| && items[i].productId == x {
      var i :| 0 <= i < |items| && items[i].productId == x;
      assert ids[i] == x;
    }
  }

  /**
   * `new Map(rows.map(r => [r.id, r])).get(id)`: a later row with the same
   * id replaces an earlier one, so the last row with that id, if any.
   */
  function MapGet<T>(rows: seq<T>, idOf: T -> string, id: string): (r: Option<T>)
    ensures r.Some? ==> r.value in rows && idOf(r.value) == id
    ensures r.None? <==> forall i :: 0 <= i < |rows| ==> idOf(rows[i]) != id
  {
    if rows == [] then None
    else
      var last := rows[|rows| - 1];
      assert rows == rows[..|rows| - 1] + [last];
      if idOf(last) == id then Some(last) else MapGet(rows[..|rows| - 1], idOf, id)
  }

  /** When ids are unique, as primary keys are, the lookup finds the one row with that id. */
  lemma MapGetUnique<T>(rows: seq<T>, idOf: T -> string, i: int)
    requires 0 <= i < |rows|
    requires forall j, k :: 0 <= j < k < |rows| ==> idOf(rows[j]) != idOf(rows[k])
    ensures MapGet(rows, idOf, idOf(rows[i])) == Some(rows[i])
  {
    var r := MapGet(rows, idOf, idOf(rows[i]));
    var j :| 0 <= j < |rows| && rows[j] == r.value;
  }

  /** `oi.product_id ? productsMap.get(oi.product_id) || null : null`. */
  function JoinItem(item: ItemRow, products: seq<ProductRow>): JoinedItem
  {
    JoinedItem(item, if item.productId != "" then MapGet(products, ProductRowId, item.productId) else None)
  }

  function JoinItems(items: seq<ItemRow>, products: seq<ProductRow>): (js: seq<JoinedItem>)
    ensures |js| == |items|
  {
    seq(|items|, j requires 0 <= j < |items| => JoinItem(items[j], products))
  }

  /** The fetched items of one order, in fetched order. */
  function ItemsOf(items: seq<ItemRow>, orderId: string): seq<ItemRow>
  {
    FilterRows(items, (oi: ItemRow) => oi.orderId == orderId)
  }

  /** One element of `ordersWithRelations`. */
  function JoinOrder(order: OrderRow, customers: seq<CustomerRow>, items: seq<ItemRow>, products: seq<ProductRow>): (j: JoinedOrder)
    ensures j.order == order
    ensures order.customerId == "" ==> j.customer.None?
    ensures j.customer.Some? ==> j.customer.value in customers && j.customer.value.id == order.customerId
    ensures forall k :: 0 <= k < |j.orderItems| ==> j.orderItems[k].item in items && j.orderItems[k].item.orderId == order.id
  {
    var own := ItemsOf(items, order.id);
    assert forall k :: 0 <= k < |own| ==> own[k] in items by {
      forall k | 0 <= k < |own| ensures own[k] in items {
        FilterRowsMembers(items, (oi: ItemRow) => oi.orderId == order.id, own[k]);
      }
    }
    JoinedOrder(order,
                if order.customerId != "" then MapGet(customers, CustomerRowId, order.customerId) else None,
                JoinItems(ItemsOf(items, order.id), products))
  }

  /**
   * `getOrders`: throws without a signed-in user or when the order query
   * fails (the `catch` rethrows); `[]` for an admin without a store and for
   * null or empty order data; otherwise each fetched order in turn, joined
   * with the fetched customers, items and products, where a null list counts
   * as empty. The products are only fetched when some item names one.
   */
  function GetOrders(signedIn: bool, hasStore: bool, orders: Fetch<seq<OrderRow>>,
                     customers: Option<seq<CustomerRow>>, items: Option<seq<ItemRow>>,
                     products: Option<seq<ProductRow>>): (r: Outcome<seq<JoinedOrder>>)
    ensures r.Threw? <==> !signedIn || (hasStore && orders.Failed?)
    ensures signedIn && !hasStore ==> r == Returned([])
    ensures signedIn && hasStore && orders.Fetched? ==> |r.value| == |orders.data.GetOr([])|
  {
    if !signedIn then Threw
    else if !hasStore then Returned([])
    else match orders
      case Failed => Threw
      case Fetched(None) => Returned([])
      case Fetched(Some(os)) =>
        if |os| == 0 then Returned([])
        else
          var its := items.GetOr([]);
          var ps := if |ProductIds(its)| > 0 then products.GetOr([]) else [];
          Returned(seq(|os|, i requires 0 <= i < |os| => JoinOrder(os[i], customers.GetOr([]), its, ps)))
  }

  /** Each joined order is the fetched order at the same place, with all its fields. */
  lemma GetOrdersKeepsOrders(orders: seq<OrderRow>, customers: Option<seq<CustomerRow>>,
                             items: Option<seq<ItemRow>>, products: Option<seq<ProductRow>>, i: int)
    requires 0 <= i < |orders|
    ensures |GetOrders(true, true, Fetched(Some(orders)), customers, items, products).value| == |orders|
    ensures GetOrders(true, true, Fetched(Some(orders)), customers, items, products).value[i].order == orders[i]
  {
  }

  /**
   * An order's `order_items` are the fetched items with its id, in fetched
   * order: every item listed belongs to the order and every item of the
   * order is listed.
   */
  lemma GetOrdersItems(orders: seq<OrderRow>, customers: Option<seq<CustomerRow>>,
                       items: Option<seq<ItemRow>>, products: Option<seq<ProductRow>>, i: int, x: ItemRow)
    requires 0 <= i < |orders|
    ensures var j := GetOrders(true, true, Fetched(Some(orders)), customers, items, products).value[i];
            |j.orderItems| == |ItemsOf(items.GetOr([]), orders[i].id)|
            && (forall k :: 0 <= k < |j.orderItems| ==> j.orderItems[k].item == ItemsOf(items.GetOr([]), orders[i].id)[k])
            && (x in ItemsOf(items.GetOr([]), orders[i].id) <==> x in items.GetOr([]) && x.orderId == orders[i].id)
  {
    FilterRowsMembers(items.GetOr([]), (oi: ItemRow) => oi.orderId == orders[i].id, x);
  }

  /**
   * An order's `customer` is absent when it has no `customer_id` or no
   * fetched customer has it; otherwise it is a fetched customer with that id.
   */
  lemma GetOrdersCustomer(orders: seq<OrderRow>, customers: Option<seq<CustomerRow>>,
                          items: Option<seq<ItemRow>>, products: Option<seq<ProductRow>>, i: int)
    requires 0 <= i < |orders|
    ensures var c := GetOrders(true, true, Fetched(Some(orders)), customers, items, products).value[i].customer;
            var cs := customers.GetOr([]);
            (c.None? <==> orders[i].customerId == "" || forall k :: 0 <= k < |cs| ==> cs[k].id != orders[i].customerId)
            && (c.Some? ==> c.value in cs && c.value.id == orders[i].customerId)
  {
    var cs := customers.GetOr([]);
    var c := GetOrders(true, true, Fetched(Some(orders)), customers, items, products).value[i].customer;
    if orders[i].customerId != "" {
      assert c == MapGet(cs, CustomerRowId, orders[i].customerId);
    }
  }

  /**
   * An item's `product` is absent when it has no `product_id` or no fetched
   * product has it; otherwise it is a fetched product with that id.
   */
  lemma JoinItemProduct(item: ItemRow, products: seq<ProductRow>)
    ensures var p := JoinItem(item, products).product;
            (p.None? <==> item.productId == "" || forall k :: 0 <= k < |products| ==> products[k].id != item.productId)
            && (p.Some? ==> p.value in products && p.value.id == item.productId)
  {
    if item.productId != "" {
      var p := MapGet(products, ProductRowId, item.productId);
      assert p.None? <==> forall k :: 0 <= k < |products| ==> ProductRowId(products[k]) != item.productId;
    }
  }

  /**
   * Skipping the product query when no item names a product changes nothing:
   * every item's product is absent either way.
   */
  lemma NoProductIdsNoProducts(items: seq<ItemRow>, products: seq<ProductRow>, k: int)
    requires |ProductIds(items)| == 0 && 0 <= k < |items|
    ensures JoinItem(items[k], products).product.None?
  {
    ProductIdsExact(items, items[k].productId);
  }

  /**
   * `getOrderById`: throws without a signed-in user or when the order query
   * fails, which includes `.single()` finding no row (the `catch` rethrows);
   * null order data gives `None`. The customer is only looked up for an order
   * with a `customer_id`; all fetched items (already those of the order) are
   * joined with their products, and null customer, item or product data
   * counts as absent or empty.
   */
  function GetOrderById(signedIn: bool, order: Fetch<OrderRow>, customer: Option<CustomerRow>,
                        items: Option<seq<ItemRow>>, products: Option<seq<ProductRow>>)
    : (r: Outcome<Option<JoinedOrder>>)
    ensures r.Threw? <==> !signedIn || order.Failed?
    ensures r.Returned? ==> (r.value.None? <==> order.data.None?)
    ensures r.Returned? && r.value.Some? ==>
      var j := r.value.value;
      && j.order == order.data.value
      && |j.orderItems| == |items.GetOr([])|
      && (forall k :: 0 <= k < |j.orderItems| ==> j.orderItems[k].item == items.GetOr([])[k])
      && (order.data.value.customerId == "" ==> j.customer.None?)
      && (order.data.value.customerId != "" ==> j.customer == customer)
  {
    if !signedIn then Threw
    else match order
      case Failed => Threw
      case Fetched(None) => Returned(None)
      case Fetched(Some(o)) =>
        var its := items.GetOr([]);
        var ps := if |ProductIds(its)| > 0 then products.GetOr([]) else [];
        Returned(Some(JoinedOrder(o, if o.customerId != "" then customer else None, JoinItems(its, ps))))
  }

  /**
   * Each item of `getOrderById`'s result has its product as in `getOrders`:
   * absent when it has no `product_id` or no fetched product has it,
   * otherwise a fetched product with that id.
   */
  lemma GetOrderByIdProducts(o: OrderRow, customer: Option<CustomerRow>,
                             items: Option<seq<ItemRow>>, products: Option<seq<ProductRow>>, k: int)
    requires 0 <= k < |items.GetOr([])|
    ensures var r := GetOrderById(true, Fetched(Some(o)), customer, items, products);
            var it := items.GetOr([])[k];
            var p := r.value.value.orderItems[k].product;
            var ps := products.GetOr([]);
            (p.None? <==> it.productId == "" || forall m :: 0 <= m < |ps| ==> ps[m].id != it.productId)
            && (p.Some? ==> p.value in ps && p.value.id == it.productId)
  {
    var its := items.GetOr([]);
    if |ProductIds(its)| > 0 {
      JoinItemProduct(its[k], products.GetOr([]));
    } else {
      NoProductIdsNoProducts(its, [], k);
      ProductIdsExact(its, its[k].productId);
    }
  }
}
