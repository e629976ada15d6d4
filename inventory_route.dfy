/**
 * `/api/inventory`: GET lists the inventory records joined to their
 * product; POST sets a product's on-hand quantity, overwriting the record
 * when there is one and inserting one otherwise.
 */
module InventoryRoute {
  import opened Common
  import opened Store
  import opened Joins

  /** The POST body; `None` stands for a field that is absent or null. */
  datatype StockBody = StockBody(productId: Option<Id>, quantity: Option<int>, location: Option<string>)

  datatype InventoryError =
    | MissingFields     // "Product ID and quantity are required"
    | ProductNotFound   // "Product not found"

  /** The HTTP status each failure is reported with. */
  function StatusOf(e: InventoryError): (code: int)
    ensures e.MissingFields? <==> code == 400
    ensures e.ProductNotFound? <==> code == 404
  {
    match e
    case MissingFields => 400
    case ProductNotFound => 404
  }

  /**
   * `!product_id || quantity == null` is what rejects a body: a falsy id,
   * or a quantity that is null or absent. A quantity of 0 is accepted.
   */
  predicate HasRequiredFields(b: StockBody) {
    b.productId.Some? && b.quantity.Some?
  }

  /**
   * The record a POST leaves for the product, given the one it found:
   * the quantity is the submitted one, and a falsy location keeps the old
   * location (or none, for a new record).
   */
  function Upsert(existing: Option<StockRecord>, quantity: int, location: Option<string>, now: Timestamp): (r: StockRecord)
    ensures r.quantity == quantity && r.lastUpdated == now
    ensures Truthy(location) ==> r.location == location
    ensures !Truthy(location) && existing.Some? ==> r.location == existing.value.location
    ensures !Truthy(location) && existing.None? ==> r.location == None
  {
    match existing
    case Some(rec) => StockRecord(quantity, if Truthy(location) then location else rec.location, now)
    case None => StockRecord(quantity, if Truthy(location) then location else None, now)
  }

  /** The inventory after a successful POST for product `p`. */
  function SetStock(inv: map<Id, StockRecord>, p: Id, quantity: int, location: Option<string>, now: Timestamp): (r: map<Id, StockRecord>)
    ensures r.Keys == inv.Keys + {p}
    ensures forall k :: k in inv && k != p ==> r[k] == inv[k]
  {
    inv[p := Upsert(if p in inv then Some(inv[p]) else None, quantity, location, now)]
  }

  /**
   * Two posts for the same product leave the second quantity, not their
   * sum: the route sets the quantity, it does not add to it.
   */
  lemma SecondPostWins(inv: map<Id, StockRecord>, p: Id, q1: int, q2: int, l1: Option<string>, l2: Option<string>, t1: Timestamp, t2: Timestamp)
    ensures SetStock(SetStock(inv, p, q1, l1, t1), p, q2, l2, t2)[p].quantity == q2
    ensures SetStock(SetStock(inv, p, q1, l1, t1), p, q2, l2, t2)[p].location == if Truthy(l2) then l2 else SetStock(inv, p, q1, l1, t1)[p].location
  {
  }

  /** A location, once set, survives later posts that send none. */
  lemma LocationPersists(inv: map<Id, StockRecord>, p: Id, q1: int, q2: int, loc: string, t1: Timestamp, t2: Timestamp)
    requires loc != ""
    ensures SetStock(SetStock(inv, p, q1, Some(loc), t1), p, q2, None, t2)[p].location == Some(loc)
  {
    var once := SetStock(inv, p, q1, Some(loc), t1);
    assert once[p].location == Some(loc);
    assert SetStock(once, p, q2, None, t2)[p] == Upsert(Some(once[p]), q2, None, t2);
  }

  /** POST /api/inventory. */
  method Post(db: Database, body: StockBody, now: Timestamp) returns (r: Result<StockRecord, InventoryError>)
    modifies db
    ensures r == Failure(MissingFields) <==> !HasRequiredFields(body)
    ensures r == Failure(ProductNotFound) <==> HasRequiredFields(body) && body.productId.value !in old(db.products)
    ensures r.Failure? ==> unchanged(db)
    ensures r.Success? ==> HasRequiredFields(body)
    ensures r.Success? ==>
      && db.inventory == SetStock(old(db.inventory), body.productId.value, body.quantity.value, body.location, now)
      && db.products == old(db.products) && db.orders == old(db.orders) && db.orderItems == old(db.orderItems)
    ensures r.Success? ==>
      body.productId.value in db.inventory && r.value == db.inventory[body.productId.value] && r.value.quantity == body.quantity.value
  {
    if body.productId.None? || body.quantity.None? {
      return Failure(MissingFields);
    }
    var p, quantity := body.productId.value, body.quantity.value;
    if p !in db.products {
      return Failure(ProductNotFound);
    }
    if p in db.inventory {
      var existing := db.inventory[p];
      db.inventory := db.inventory[p := StockRecord(quantity, if Truthy(body.location) then body.location else existing.location, now)];
    } else {
      db.inventory := db.inventory[p := StockRecord(quantity, if Truthy(body.location) then body.location else None, now)];
    }
    // The updated record is read back by product id.
    r := Success(db.inventory[p]);
  }

  /** One entry of the GET response. */
  datatype InventoryView = InventoryView(productId: Id, record: StockRecord, product: Option<Product>)

  /**
   * GET /api/inventory over the `inventory` and `products` collections in
   * natural order: every entry is a stored record with the product it refers
   * to, or None where no product has that id.
   */
  function Get(records: seq<(Id, StockRecord)>, products: seq<(Id, Product)>): (r: seq<InventoryView>)
    ensures |r| >= |records|
    ensures forall i :: 0 <= i < |r| ==> (r[i].productId, r[i].record) in records
    ensures forall i :: 0 <= i < |r| && r[i].product.Some? ==> (r[i].productId, r[i].product.value) in products
    ensures forall i :: 0 <= i < |r| && r[i].product.None? ==> forall m :: 0 <= m < |products| ==> products[m].0 != r[i].productId
  {
    var joined := LeftJoin(records, (d: (Id, StockRecord)) => d.0, products);
    seq(|joined|, i requires 0 <= i < |joined| => InventoryView(joined[i].0.0, joined[i].0.1, joined[i].1))
  }

  /** Every stored inventory record comes out of GET, whatever the products hold. */
  lemma GetCovers(records: seq<(Id, StockRecord)>, products: seq<(Id, Product)>)
    ensures forall i :: 0 <= i < |records| ==>
      exists j :: 0 <= j < |Get(records, products)| &&
        (Get(records, products)[j].productId, Get(records, products)[j].record) == records[i]
  {
    var key := (d: (Id, StockRecord)) => d.0;
    var joined := LeftJoin(records, key, products);
    var r := Get(records, products);
    forall i | 0 <= i < |records|
      ensures exists j :: 0 <= j < |r| && (r[j].productId, r[j].record) == records[i]
    {
      LeftJoinCovers(records, key, products, i);
      var j :| 0 <= j < |joined| && joined[j].0 == records[i];
      assert (r[j].productId, r[j].record) == joined[j].0;
    }
  }

  /**
   * With distinct product ids, GET yields one entry per inventory record, in
   * order, with the record's product or None when no product matches.
   */
  lemma GetOnePerRecord(records: seq<(Id, StockRecord)>, products: seq<(Id, Product)>)
    requires UniqueKeys(products)
    ensures |Get(records, products)| == |records|
    ensures forall i :: 0 <= i < |records| ==>
      Get(records, products)[i] == InventoryView(records[i].0, records[i].1, Lookup(records[i].0, products))
    ensures forall i :: 0 <= i < |records| ==>
      (Get(records, products)[i].product.None? <==> forall j :: 0 <= j < |products| ==> products[j].0 != records[i].0)
  {
    LeftJoinUnique(records, (d: (Id, StockRecord)) => d.0, products);
  }
}
