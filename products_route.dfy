/**
 * `/api/products` POST: stamps the body with creation and update times,
 * refuses a `code` that is already in use, and otherwise inserts the
 * product and answers with it, its new id and its supplier id.
 */
module ProductsRoute {
  import opened Common
  import opened Store

  /**
   * The POST body; `None` stands for a field that is absent or null, and an
   * empty string is `Some("")`, so `{code: ""}` matches only a stored empty code.
   */
  datatype ProductBody = ProductBody(
    code: Option<string>,
    name: Option<string>,
    size: Option<string>,
    category: Option<string>,
    price: Option<int>,
    supplierId: Option<Id>)

  datatype ProductError = CodeNotUnique   // "Product code must be unique"

  /** The HTTP status of the refusal. */
  function StatusOf(e: ProductError): (code: int)
    ensures code == 409
  {
    409
  }

  /** The body of the 201 response. */
  datatype ProductResponse = ProductResponse(id: Id, product: Product, supplierId: Option<Id>)

  /** Some stored product already has this `code` (an absent code matches an absent code). */
  predicate CodeTaken(products: map<Id, Product>, code: Option<string>) {
    exists id :: id in products && products[id].code == code
  }

  /** `{...body, created_at: now, updated_at: now}`, with the supplier id converted. */
  function NewProduct(b: ProductBody, now: Timestamp): (p: Product)
    ensures p.code == b.code && p.name == b.name && p.size == b.size && p.category == b.category && p.price == b.price
    ensures p.supplierId == b.supplierId
    ensures p.createdAt == p.updatedAt == now
  {
    Product(b.code, b.name, b.size, b.category, b.price, b.supplierId, now, now)
  }

  /** The response: the stored product, its id, and its supplier id or null. */
  function ResponseOf(id: Id, p: Product): (r: ProductResponse)
    ensures r.id == id && r.product == p
    ensures r.supplierId.None? <==> p.supplierId.None?
    ensures p.supplierId.Some? ==> r.supplierId == p.supplierId
  {
    ProductResponse(id, p, if p.supplierId.Some? then Some(p.supplierId.value) else None)
  }

  /** Inserting a product whose code is not taken keeps codes distinct. */
  lemma InsertKeepsCodesUnique(products: map<Id, Product>, id: Id, p: Product)
    requires id !in products && !CodeTaken(products, p.code)
    requires UniqueProductCodes(products)
    ensures UniqueProductCodes(products[id := p])
  {
  }

  /**
   * POST /api/products. `newId` is the id the store assigns to the inserted
   * document; `now` is the request's timestamp.
   */
  method Post(db: Database, body: ProductBody, newId: Id, now: Timestamp) returns (r: Result<ProductResponse, ProductError>)
    requires newId !in db.products
    modifies db
    ensures r == Failure(CodeNotUnique) <==> CodeTaken(old(db.products), body.code)
    ensures r.Failure? ==> unchanged(db)
    ensures r.Success? ==>
      && db.products == old(db.products)[newId := NewProduct(body, now)]
      && |db.products| == |old(db.products)| + 1
      && db.inventory == old(db.inventory) && db.orders == old(db.orders) && db.orderItems == old(db.orderItems)
      && r.value == ResponseOf(newId, NewProduct(body, now))
    ensures old(db.UniqueCodes()) ==> db.UniqueCodes()
  {
    var product := NewProduct(body, now);
    if CodeTaken(db.products, product.code) {
      return Failure(CodeNotUnique);
    }
    if db.UniqueCodes() {
      InsertKeepsCodesUnique(db.products, newId, product);
    }
    db.products := db.products[newId := product];
    r := Success(ResponseOf(newId, product));
  }
}
