/**
 * `/api/orders`: GET lists the orders joined to their vendor and creating
 * user; POST places an order, which in one transaction rejects a duplicate
 * `order_number`, inserts the order and one line item per submitted item,
 * and takes each item's quantity off that product's inventory record
 * (creating the record with a negative quantity when none exists).
 */
module OrdersRoute {
  import opened Common
  import opened Store
  import opened Joins

  // ---------------------------------------------------------------- requests

  /** One entry of the request's `items` array. */
  datatype ItemRequest = ItemRequest(productId: Id, quantity: int, price: int, total: int)

  /** The POST body; a field the client may omit is optional, `None` also standing for null. */
  datatype OrderBody = OrderBody(
    orderNumber: Option<string>,
    date: Option<string>,
    vendorId: Option<Id>,
    items: Option<seq<ItemRequest>>,
    total: Option<int>,
    status: Option<string>,
    createdBy: Option<Id>,
    paymentStatus: Option<string>,
    paymentMethod: Option<string>)

  datatype OrderError =
    | MissingFields          // "Missing required fields for order creation"
    | DuplicateOrderNumber   // "Order number already exists", thrown inside the transaction
    | EmptyItemBatch         // the driver refuses `insertMany` of an empty array, aborting the transaction

  /** The HTTP status each failure is reported with. */
  function StatusOf(e: OrderError): (code: int)
    ensures e.MissingFields? <==> code == 400
    ensures !e.MissingFields? <==> code == 500
  {
    match e
    case MissingFields => 400
    case DuplicateOrderNumber => 500
    case EmptyItemBatch => 500
  }

  /** The confirmation returned with status 201: the order and the line items stored for it. */
  datatype CreatedOrder = CreatedOrder(id: Id, order: Order, items: seq<OrderItem>)

  // ---------------------------------------------------------------- validation

  /**
   * None of the seven required fields is falsy. An empty `items` array is
   * truthy and passes; a `total` of 0 is falsy and does not.
   */
  predicate HasRequiredFields(b: OrderBody) {
    && Truthy(b.orderNumber)
    && Truthy(b.date)
    && b.vendorId.Some?
    && b.items.Some?
    && TruthyInt(b.total)
    && Truthy(b.status)
    && b.createdBy.Some?
  }

  /** Some stored order already carries `orderNumber`. */
  predicate NumberTaken(orders: map<Id, Order>, orderNumber: string) {
    exists id :: id in orders && orders[id].orderNumber == orderNumber
  }

  /** The order document the route builds from a valid body. */
  function NewOrder(b: OrderBody, now: Timestamp): (o: Order)
    requires HasRequiredFields(b)
    ensures o.orderNumber == b.orderNumber.value && o.total == b.total.value && o.status == b.status.value
    ensures o.vendorId == b.vendorId.value && o.createdBy == b.createdBy.value && o.date == b.date.value
    ensures o.paymentStatus == if Truthy(b.paymentStatus) then b.paymentStatus.value else "pending"
    ensures o.paymentMethod == if Truthy(b.paymentMethod) then b.paymentMethod else None
    ensures o.createdAt == o.updatedAt == now
  {
    Order(
      b.orderNumber.value, b.date.value, b.vendorId.value, b.total.value, b.status.value,
      OrElse(b.paymentStatus, "pending"),
      if Truthy(b.paymentMethod) then b.paymentMethod else None,
      b.createdBy.value, now, now)
  }

  /** `items.map(...)`: the line items inserted for order `orderId`. */
  function LineItems(orderId: Id, items: seq<ItemRequest>): (r: seq<OrderItem>)
    ensures |r| == |items|
    ensures forall i :: 0 <= i < |r| ==>
      r[i].orderId == orderId && r[i].productId == items[i].productId &&
      r[i].quantity == items[i].quantity && r[i].price == items[i].price && r[i].total == items[i].total
  {
    seq(|items|, i requires 0 <= i < |items| =>
      OrderItem(orderId, items[i].productId, items[i].quantity, items[i].price, items[i].total))
  }

  /** The `$lookup` of `order_items` by `order_id`. */
  function ItemsOf(orderItems: seq<OrderItem>, orderId: Id): seq<OrderItem> {
    Filter(orderItems, (it: OrderItem) => it.orderId == orderId)
  }

  // ---------------------------------------------------------------- inventory

  /** One iteration of the loop: `$inc` the record by `-quantity`, or insert one at `-quantity`. */
  function Decrement(inv: map<Id, StockRecord>, item: ItemRequest, now: Timestamp): (r: map<Id, StockRecord>)
    ensures r.Keys == inv.Keys + {item.productId}
    ensures r[item.productId].quantity == StockOf(inv, item.productId) - item.quantity
    ensures r[item.productId].lastUpdated == now
    ensures r[item.productId].location == if item.productId in inv then inv[item.productId].location else None
    ensures forall p :: p in inv && p != item.productId ==> r[p] == inv[p]
  {
    var p := item.productId;
    if p in inv then inv[p := inv[p].(quantity := inv[p].quantity - item.quantity, lastUpdated := now)]
    else inv[p := StockRecord(-item.quantity, None, now)]
  }

  /** The inventory after the loop has processed `items` in order. */
  function ApplyItems(inv: map<Id, StockRecord>, items: seq<ItemRequest>, now: Timestamp): map<Id, StockRecord> {
    if items == [] then inv
    else Decrement(ApplyItems(inv, items[..|items| - 1], now), items[|items| - 1], now)
  }

  /** The products the items name. */
  function ProductIds(items: seq<ItemRequest>): set<Id> {
    set i | 0 <= i < |items| :: items[i].productId
  }

  /** Total quantity ordered of product `p`. */
  function SumFor(items: seq<ItemRequest>, p: Id): int {
    if items == [] then 0
    else SumFor(items[..|items| - 1], p) + (if items[|items| - 1].productId == p then items[|items| - 1].quantity else 0)
  }

  /** On-hand quantity of `p`, counting a missing record as 0. */
  function StockOf(inv: map<Id, StockRecord>, p: Id): int {
    if p in inv then inv[p].quantity else 0
  }

  lemma ProductIdsSnoc(items: seq<ItemRequest>)
    requires items != []
    ensures ProductIds(items) == ProductIds(items[..|items| - 1]) + {items[|items| - 1].productId}
  {
    var init := items[..|items| - 1];
    forall p | p in ProductIds(items) ensures p in ProductIds(init) + {items[|items| - 1].productId} {
      var i :| 0 <= i < |items| && items[i].productId == p;
      if i < |items| - 1 {
        assert init[i].productId == p;
      }
    }
    forall p | p in ProductIds(init) ensures p in ProductIds(items) {
      var i :| 0 <= i < |init| && init[i].productId == p;
      assert items[i].productId == p;
    }
  }

  /** The loop creates records exactly for the ordered products that had none. */
  lemma {:induction false} ApplyItemsKeys(inv: map<Id, StockRecord>, items: seq<ItemRequest>, now: Timestamp)
    ensures ApplyItems(inv, items, now).Keys == inv.Keys + ProductIds(items)
  {
    if items != [] {
      ApplyItemsKeys(inv, items[..|items| - 1], now);
      ProductIdsSnoc(items);
    }
  }

  /**
   * Every ordered product ends at its prior quantity (0 without a record)
   * minus everything ordered of it, however many items name it.
   */
  lemma {:induction false} ApplyItemsQuantity(inv: map<Id, StockRecord>, items: seq<ItemRequest>, now: Timestamp, p: Id)
    requires p in ProductIds(items)
    ensures p in ApplyItems(inv, items, now)
    ensures ApplyItems(inv, items, now)[p].quantity == StockOf(inv, p) - SumFor(items, p)
  {
    var init := items[..|items| - 1];
    var last := items[|items| - 1];
    ProductIdsSnoc(items);
    ApplyItemsKeys(inv, init, now);
    if p in ProductIds(init) {
      ApplyItemsQuantity(inv, init, now, p);
    } else {
      ApplyItemsUntouched(inv, init, now, p);
      assert SumFor(init, p) == 0 by { SumForAbsent(init, p); }
    }
  }

  lemma {:induction false} SumForAbsent(items: seq<ItemRequest>, p: Id)
    requires p !in ProductIds(items)
    ensures SumFor(items, p) == 0
  {
    if items != [] {
      ProductIdsSnoc(items);
      SumForAbsent(items[..|items| - 1], p);
    }
  }

  /** A product no item names keeps its record, or its absence, exactly. */
  lemma {:induction false} ApplyItemsUntouched(inv: map<Id, StockRecord>, items: seq<ItemRequest>, now: Timestamp, p: Id)
    requires p !in ProductIds(items)
    ensures p in ApplyItems(inv, items, now) <==> p in inv
    ensures p in inv ==> ApplyItems(inv, items, now)[p] == inv[p]
  {
    if items != [] {
      ProductIdsSnoc(items);
      ApplyItemsUntouched(inv, items[..|items| - 1], now, p);
    }
  }

  /**
   * An ordered product's record is stamped with the transaction time and
   * keeps its location; a record the loop creates has no location.
   */
  lemma {:induction false} ApplyItemsMetadata(inv: map<Id, StockRecord>, items: seq<ItemRequest>, now: Timestamp, p: Id)
    requires p in ProductIds(items)
    ensures p in ApplyItems(inv, items, now)
    ensures ApplyItems(inv, items, now)[p].lastUpdated == now
    ensures ApplyItems(inv, items, now)[p].location == if p in inv then inv[p].location else None
  {
    var init := items[..|items| - 1];
    ProductIdsSnoc(items);
    ApplyItemsKeys(inv, init, now);
    if p in ProductIds(init) {
      ApplyItemsMetadata(inv, init, now, p);
    } else {
      ApplyItemsUntouched(inv, init, now, p);
    }
  }

  /** Ordering a product with no record leaves it at minus the ordered amount: oversell is allowed. */
  lemma OversellCreatesNegativeStock(inv: map<Id, StockRecord>, items: seq<ItemRequest>, now: Timestamp, p: Id)
    requires p in ProductIds(items) && p !in inv
    ensures p in ApplyItems(inv, items, now)
    ensures ApplyItems(inv, items, now)[p].quantity == -SumFor(items, p)
  {
    ApplyItemsQuantity(inv, items, now, p);
  }

  // ---------------------------------------------------------------- POST

  /**
   * The `for (const item of items)` loop, run against the transaction's view
   * of the inventory: find the product's record, then decrement it or insert
   * a new one.
   */
  method DecrementAll(inventory: map<Id, StockRecord>, items: seq<ItemRequest>, now: Timestamp)
    returns (staged: map<Id, StockRecord>)
    ensures staged == ApplyItems(inventory, items, now)
  {
    staged := inventory;
    var i := 0;
    while i < |items|
      invariant 0 <= i <= |items|
      invariant staged == ApplyItems(inventory, items[..i], now)
    {
      var item := items[i];
      var p := item.productId;
      if p in staged {
        staged := staged[p := staged[p].(quantity := staged[p].quantity - item.quantity, lastUpdated := now)];
      } else {
        staged := staged[p := StockRecord(-item.quantity, None, now)];
      }
      assert items[..i + 1][..i] == items[..i];
      i := i + 1;
    }
    assert items[..|items|] == items;
  }

  /** Looking the new order's items up again finds exactly the ones just inserted. */
  lemma StoredItems(orders: map<Id, Order>, oldItems: seq<OrderItem>, orderId: Id, items: seq<ItemRequest>)
    requires orderId !in orders
    requires ItemsReference(oldItems, orders)
    ensures ItemsOf(oldItems + LineItems(orderId, items), orderId) == LineItems(orderId, items)
  {
    var p := (it: OrderItem) => it.orderId == orderId;
    FilterConcat(oldItems, LineItems(orderId, items), p);
    FilterAll(LineItems(orderId, items), p);
    FilterNone(oldItems, p);
  }

  /** Inserting an order whose number is not taken keeps order numbers distinct. */
  lemma InsertKeepsNumbersUnique(orders: map<Id, Order>, orderId: Id, order: Order)
    requires orderId !in orders && !NumberTaken(orders, order.orderNumber)
    requires UniqueNumbers(orders)
    ensures UniqueNumbers(orders[orderId := order])
  {
  }

  /** The new order's line items and every older one all refer to a stored order. */
  lemma InsertKeepsItemsReferenced(orders: map<Id, Order>, oldItems: seq<OrderItem>, orderId: Id, order: Order, items: seq<ItemRequest>)
    requires ItemsReference(oldItems, orders)
    ensures ItemsReference(oldItems + LineItems(orderId, items), orders[orderId := order])
  {
    var all := oldItems + LineItems(orderId, items);
    forall i | 0 <= i < |all| ensures all[i].orderId in orders[orderId := order] {
      if i < |oldItems| {
        assert all[i] == oldItems[i];
      } else {
        assert all[i] == LineItems(orderId, items)[i - |oldItems|];
      }
    }
  }

  /** The transaction commits: all three collections take their new contents at once. */
  method Commit(db: Database, orders: map<Id, Order>, orderItems: seq<OrderItem>, inventory: map<Id, StockRecord>)
    modifies db
    ensures db.orders == orders && db.orderItems == orderItems && db.inventory == inventory
    ensures db.products == old(db.products)
  {
    db.orders, db.orderItems, db.inventory := orders, orderItems, inventory;
  }

  /**
   * POST /api/orders. The checks run first; the writes are staged and
   * committed together, so a failed call leaves the store as it was.
   * `orderId` is the id the store assigns to the inserted order.
   */
  method Post(db: Database, body: OrderBody, orderId: Id, now: Timestamp) returns (r: Result<CreatedOrder, OrderError>)
    requires orderId !in db.orders
    modifies db
    ensures r == Failure(MissingFields) <==> !HasRequiredFields(body)
    ensures r == Failure(DuplicateOrderNumber) <==>
      HasRequiredFields(body) && NumberTaken(old(db.orders), body.orderNumber.value)
    ensures r == Failure(EmptyItemBatch) <==>
      HasRequiredFields(body) && !NumberTaken(old(db.orders), body.orderNumber.value) && body.items.value == []
    ensures r.Failure? ==> unchanged(db)
    ensures r.Success? ==> HasRequiredFields(body) && body.items.value != []
    ensures r.Success? ==>
      && db.orders == old(db.orders)[orderId := NewOrder(body, now)]
      && |db.orders| == |old(db.orders)| + 1
      && db.orderItems == old(db.orderItems) + LineItems(orderId, body.items.value)
      && db.inventory == ApplyItems(old(db.inventory), body.items.value, now)
      && db.products == old(db.products)
      && r.value == CreatedOrder(orderId, db.orders[orderId], ItemsOf(db.orderItems, orderId))
    ensures r.Success? && old(db.ItemsReferenceOrders()) ==> r.value.items == LineItems(orderId, body.items.value)
    ensures old(db.UniqueOrderNumbers()) ==> db.UniqueOrderNumbers()
    ensures old(db.ItemsReferenceOrders()) ==> db.ItemsReferenceOrders()
  {
    if !HasRequiredFields(body) {
      return Failure(MissingFields);
    }
    if NumberTaken(db.orders, body.orderNumber.value) {
      return Failure(DuplicateOrderNumber);
    }

    // Everything below happens inside the transaction; `insertMany([])` throws and aborts it.
    if body.items.value == [] {
      return Failure(EmptyItemBatch);
    }
    var order := NewOrder(body, now);
    var lineItems := LineItems(orderId, body.items.value);
    var staged := DecrementAll(db.inventory, body.items.value, now);

    if db.UniqueOrderNumbers() {
      InsertKeepsNumbersUnique(db.orders, orderId, order);
    }
    if db.ItemsReferenceOrders() {
      StoredItems(db.orders, db.orderItems, orderId, body.items.value);
      InsertKeepsItemsReferenced(db.orders, db.orderItems, orderId, order, body.items.value);
    }

    var orders := db.orders[orderId := order];
    var orderItems := db.orderItems + lineItems;
    Commit(db, orders, orderItems, staged);
    r := Success(CreatedOrder(orderId, order, ItemsOf(orderItems, orderId)));
  }

  /**
   * Submitting the same body twice: the second call is refused as a
   * duplicate and the inventory reflects the first order only.
   */
  method SubmitTwice(db: Database, body: OrderBody, firstId: Id, secondId: Id, now: Timestamp)
    returns (first: Result<CreatedOrder, OrderError>, second: Result<CreatedOrder, OrderError>)
    requires firstId != secondId && firstId !in db.orders && secondId !in db.orders
    modifies db
    ensures first.Success? ==> second == Failure(DuplicateOrderNumber)
    ensures first.Success? ==> body.items.Some? && db.inventory == ApplyItems(old(db.inventory), body.items.value, now)
  {
    first := Post(db, body, firstId, now);
    second := Post(db, body, secondId, now);
  }

  // ---------------------------------------------------------------- GET

  /** One entry of the GET response. */
  datatype OrderView<V, U> = OrderView(id: Id, order: Order, vendor: Option<V>, user: Option<U>)

  /**
   * GET /api/orders over the `orders`, `vendors` and `users` collections in
   * natural order: every entry is a stored order with the vendor and the user
   * it refers to, or None where nothing has that id.
   */
  function Get<V, U>(orders: seq<(Id, Order)>, vendors: seq<(Id, V)>, users: seq<(Id, U)>): (r: seq<OrderView<V, U>>)
    ensures |r| >= |orders|
    ensures forall i :: 0 <= i < |r| ==> (r[i].id, r[i].order) in orders
    ensures forall i :: 0 <= i < |r| && r[i].vendor.Some? ==> (r[i].order.vendorId, r[i].vendor.value) in vendors
    ensures forall i :: 0 <= i < |r| && r[i].vendor.None? ==> forall m :: 0 <= m < |vendors| ==> vendors[m].0 != r[i].order.vendorId
    ensures forall i :: 0 <= i < |r| && r[i].user.Some? ==> (r[i].order.createdBy, r[i].user.value) in users
    ensures forall i :: 0 <= i < |r| && r[i].user.None? ==> forall m :: 0 <= m < |users| ==> users[m].0 != r[i].order.createdBy
  {
    var withVendor := LeftJoin(orders, (d: (Id, Order)) => d.1.vendorId, vendors);
    var withUser := LeftJoin(withVendor, (d: ((Id, Order), Option<V>)) => d.0.1.createdBy, users);
    seq(|withUser|, i requires 0 <= i < |withUser| =>
      OrderView(withUser[i].0.0.0, withUser[i].0.0.1, withUser[i].0.1, withUser[i].1))
  }

  /** Every stored order comes out of GET, whatever the vendors and users hold. */
  lemma GetCovers<V, U>(orders: seq<(Id, Order)>, vendors: seq<(Id, V)>, users: seq<(Id, U)>)
    ensures forall i :: 0 <= i < |orders| ==>
      exists j :: 0 <= j < |Get(orders, vendors, users)| &&
        (Get(orders, vendors, users)[j].id, Get(orders, vendors, users)[j].order) == orders[i]
  {
    var vk := (d: (Id, Order)) => d.1.vendorId;
    var uk := (d: ((Id, Order), Option<V>)) => d.0.1.createdBy;
    var withVendor := LeftJoin(orders, vk, vendors);
    var withUser := LeftJoin(withVendor, uk, users);
    var r := Get(orders, vendors, users);
    forall i | 0 <= i < |orders|
      ensures exists j :: 0 <= j < |r| && (r[j].id, r[j].order) == orders[i]
    {
      LeftJoinCovers(orders, vk, vendors, i);
      var j1 :| 0 <= j1 < |withVendor| && withVendor[j1].0 == orders[i];
      LeftJoinCovers(withVendor, uk, users, j1);
      var j2 :| 0 <= j2 < |withUser| && withUser[j2].0 == withVendor[j1];
      assert (r[j2].id, r[j2].order) == withUser[j2].0.0;
    }
  }

  /**
   * With distinct vendor and user ids, GET yields one entry per order, in
   * order, whose vendor and user are the referenced ones or None.
   */
  lemma GetOnePerOrder<V, U>(orders: seq<(Id, Order)>, vendors: seq<(Id, V)>, users: seq<(Id, U)>)
    requires UniqueKeys(vendors) && UniqueKeys(users)
    ensures |Get(orders, vendors, users)| == |orders|
    ensures forall i :: 0 <= i < |orders| ==>
      Get(orders, vendors, users)[i] ==
        OrderView(orders[i].0, orders[i].1, Lookup(orders[i].1.vendorId, vendors), Lookup(orders[i].1.createdBy, users))
  {
    var vk := (d: (Id, Order)) => d.1.vendorId;
    var uk := (d: ((Id, Order), Option<V>)) => d.0.1.createdBy;
    var withVendor := LeftJoin(orders, vk, vendors);
    LeftJoinUnique(orders, vk, vendors);
    LeftJoinUnique(withVendor, uk, users);
  }
}
