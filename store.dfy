/**
 * The document store the API routes read and write. Each collection the
 * routes touch is a field of one `Database` object: `products` and
 * `orders` keyed by their document id, `inventory` keyed by the
 * `product_id` its records carry (so there is at most one record per
 * product), and `order_items` as the sequence of inserted line items.
 */
module Store {
  import opened Common

  /** An `ObjectId`: opaque, compared only for equality. */
  type Id(==)

  /** An ISO timestamp produced by `new Date().toISOString()`, passed in by the caller. */
  type Timestamp = string

  /** A product document; every field the request body may omit is optional. */
  datatype Product = Product(
    code: Option<string>,
    name: Option<string>,
    size: Option<string>,
    category: Option<string>,
    price: Option<int>,
    supplierId: Option<Id>,
    createdAt: Timestamp,
    updatedAt: Timestamp)

  /** An inventory document, without the `product_id` it is keyed by. */
  datatype StockRecord = StockRecord(quantity: int, location: Option<string>, lastUpdated: Timestamp)

  /** An order document as the POST route writes it. */
  datatype Order = Order(
    orderNumber: string,
    date: string,
    vendorId: Id,
    total: int,
    status: string,
    paymentStatus: string,
    paymentMethod: Option<string>,
    createdBy: Id,
    createdAt: Timestamp,
    updatedAt: Timestamp)

  /** A document of the `order_items` collection. */
  datatype OrderItem = OrderItem(orderId: Id, productId: Id, quantity: int, price: int, total: int)

  predicate UniqueNumbers(orders: map<Id, Order>) {
    forall a, b :: a in orders && b in orders && a != b ==> orders[a].orderNumber != orders[b].orderNumber
  }

  predicate UniqueProductCodes(products: map<Id, Product>) {
    forall a, b :: a in products && b in products && a != b ==> products[a].code != products[b].code
  }

  predicate ItemsReference(orderItems: seq<OrderItem>, orders: map<Id, Order>) {
    forall i :: 0 <= i < |orderItems| ==> orderItems[i].orderId in orders
  }

  class Database {
    var products: map<Id, Product>
    var inventory: map<Id, StockRecord>
    var orders: map<Id, Order>
    var orderItems: seq<OrderItem>

    constructor ()
      ensures products == map[] && inventory == map[] && orders == map[] && orderItems == []
    {
      products, inventory, orders, orderItems := map[], map[], map[], [];
    }

    /** No two orders share an `order_number` (the unique index of src/models/order.ts). */
    predicate UniqueOrderNumbers()
      reads this
    {
      UniqueNumbers(orders)
    }

    /** No two products share a `code` (the unique index of src/models/product.ts). */
    predicate UniqueCodes()
      reads this
    {
      UniqueProductCodes(products)
    }

    /** Every line item belongs to a stored order. */
    predicate ItemsReferenceOrders()
      reads this
    {
      ItemsReference(orderItems, orders)
    }
  }
}
