# Inventory and order management: a Dafny model

This project models the rule-bearing core of a small admin application for a
distributor: its stock, its product catalog, its customer orders, its
customers and its sales agents.

On the server, three HTTP routes work against a document store. The store is
modelled as the class `Store.Database`, which holds four collections:
`products`, `inventory`, `orders` and `order_items`.

- `POST /api/orders` places an order in one all-or-nothing transaction. It
  checks for missing fields, refuses an `order_number` already in use,
  inserts the order and one line item per submitted item, and takes each
  item's quantity off that product's stock. An empty `items` array passes the
  field check, but the driver refuses to insert an empty batch of line items,
  so the transaction aborts and the route answers 500. When the product has no stock
  record, one is created at a negative quantity.
- `GET /api/orders` joins the orders to their vendor and their creating user.
- `POST /api/inventory` sets a product's stock quantity. An existing record is
  overwritten; otherwise a new record is inserted.
- `GET /api/inventory` joins the stock records to their product.
- `POST /api/products` inserts a product unless its `code` is already taken.

In the browser, three dashboard pages turn the list they hold into the list
they show or store next. Each page is modelled as pure functions on
sequences.

- The inventory page has three fixed stock bands: low below 37, medium from
  37 to 72, high above 72. It counts the lines in each band, filters by
  search term and band, sorts by quantity, adds stock to a line, and records a
  purchase from the catalog.
- The customers page searches, sorts by a chosen column with an asc/desc
  toggle, adds, edits and deletes customers, and builds the rows of the PDF
  export.
- The agents page does the same, without the sort.

## Modules

| file | module | what it holds |
|---|---|---|
| `common.dfy` | `Common` | `Option`, `Result` and JavaScript truthiness; ASCII `Lower`, substring search (`String.prototype.includes`) and lexicographic `<` on strings; `Filter`, `FindFirst`, and `Max`-plus-one id allocation |
| `sorting.dfy` | `Sorting` | `Array.prototype.sort`, which is stable, modelled as a stable insertion sort over a comparator-derived "may stay in front of" relation; sortedness and permutation lemmas, and the stability fact that a list already in order comes back unchanged |
| `store.dfy` | `Store` | the documents and the `Database` class holding the four collections; the uniqueness and reference invariants |
| `joins.dfy` | `Joins` | `$lookup` followed by `$unwind` with `preserveNullAndEmptyArrays` (a left join with one output per match) |
| `orders_route.dfy` | `OrdersRoute` | order validation, the order document, the line items, the stock-decrement loop, the transactional `Post`, and `Get` |
| `inventory_route.dfy` | `InventoryRoute` | the set-or-insert `Post` and the `Get` join |
| `products_route.dfy` | `ProductsRoute` | the unique-code `Post` and its response |
| `inventory_page.dfy` | `InventoryPage` | bands, counts, filter and sort, "update stock", "add purchase" |
| `customers_page.dfy` | `CustomersPage` | search, sort state and sort, add, edit, delete, export rows |
| `agents_page.dfy` | `AgentsPage` | search, add, edit, delete, export rows |

Conventions:

- JavaScript falsiness is explicit. An absent, null or empty string is falsy,
  and so are an absent id and the number 0. An empty array is truthy.
- Ids of stored documents are an abstract equality type, `Store.Id`.
- The id a store insert assigns is a parameter that the caller guarantees is
  fresh.
- Timestamps are opaque strings passed in as `now`.
- Quantities, prices and totals are unbounded integers.

The inventory route sets a record's quantity to the submitted value
(src/app/api/inventory/route.ts:73-74); it does not add to it, so of two posts
for one product the second wins (`InventoryRoute.SecondPostWins`). It keeps
the old location for any falsy location, the empty string included (line 75).

## Model

| member | source | states |
|---|---|---|
| `OrdersRoute.StatusOf` | src/app/api/orders/route.ts:174-184 | A missing field is reported with 400. Every failure thrown inside the transaction (a duplicate order number, the refused empty item batch) is reported with 500. |
| `OrdersRoute.HasRequiredFields` | src/app/api/orders/route.ts:59 | None of the seven required fields is falsy: a `total` of 0 fails, an empty `items` array passes. |
| `OrdersRoute.NewOrder` | src/app/api/orders/route.ts:84-96 | The stored order carries the submitted number, date, vendor, total, status and creator. `payment_status` defaults to "pending" when falsy. `payment_method` is null when falsy. `created_at` and `updated_at` are both the transaction time. |
| `OrdersRoute.LineItems` | src/app/api/orders/route.ts:103-109 | One line item per submitted item, in order. Each carries the new order's id and the item's product, quantity, price and total. |
| `OrdersRoute.Decrement` | src/app/api/orders/route.ts:116-138 | One loop step: the product's record loses the item's quantity (a missing record counts as 0 and is created without a location), is stamped with the time, and every other record is unchanged. |
| `OrdersRoute.ApplyItems` | src/app/api/orders/route.ts:115-139 | The inventory after the loop: `Decrement` applied item by item, in order; its properties are the `ApplyItems*` lemmas below. |
| `OrdersRoute.DecrementAll` | src/app/api/orders/route.ts:115-139 | The find-then-`$inc`-or-insert loop over the items leaves exactly the inventory `ApplyItems` describes. |
| `OrdersRoute.ApplyItemsKeys` | src/app/api/orders/route.ts:115-139 | After the loop, the products with a stock record are the ones that had one plus every ordered product. Since the inventory is keyed by product, none has two records. |
| `OrdersRoute.ApplyItemsQuantity` | src/app/api/orders/route.ts:115-139 | Every ordered product ends at its prior quantity minus the sum of all item quantities for it. A product with no record counts as 0. This holds however many items name the product. |
| `OrdersRoute.ApplyItemsUntouched` | src/app/api/orders/route.ts:115-139 | A product no item names keeps its stock record unchanged, or keeps having none. |
| `OrdersRoute.ApplyItemsMetadata` | src/app/api/orders/route.ts:121-137 | An ordered product's record is stamped with the transaction time. It keeps its location; a record created by the loop has none. |
| `OrdersRoute.OversellCreatesNegativeStock` | src/app/api/orders/route.ts:131-137 | Ordering a product with no stock record creates one at minus the ordered amount. Overselling is not refused. |
| `OrdersRoute.StoredItems` | src/app/api/orders/route.ts:143-154 | Looking up the new order's items by `order_id` finds exactly the line items just inserted, in order. |
| `OrdersRoute.InsertKeepsNumbersUnique` | src/app/api/orders/route.ts:74-77 | Inserting an order whose number is not taken keeps order numbers pairwise distinct. |
| `OrdersRoute.InsertKeepsItemsReferenced` | src/app/api/orders/route.ts:99-112 | The new line items and every older one refer to a stored order. |
| `OrdersRoute.Commit` | src/app/api/orders/route.ts:72-140 | The transaction commits the orders, line items and inventory together and leaves the products alone. |
| `OrdersRoute.Post` | src/app/api/orders/route.ts:53-185 | Fails with MissingFields exactly when a required field is falsy (so a `total` of 0 is refused). Fails with DuplicateOrderNumber exactly when the fields are present and the number is taken. Fails with EmptyItemBatch exactly when the fields are present, the number is free and `items` is empty. A failure changes nothing. On success: orders grow by exactly the new order; the line items are appended; the inventory is `ApplyItems` of the old one; products are untouched; the response is the stored order with its stored items. Distinct order numbers and item-to-order references are preserved. |
| `OrdersRoute.SubmitTwice` | src/app/api/orders/route.ts:74-77 | When the same body is posted twice and the first post succeeds, the second is refused as a duplicate, and the inventory reflects the first order only. |
| `OrdersRoute.Get` | src/app/api/orders/route.ts:12-43 | There are at least as many entries as orders, and every entry is a stored order. Its vendor is one with the order's `vendor_id`, or None exactly when no vendor has it; likewise its user and `created_by`. |
| `OrdersRoute.GetCovers` | src/app/api/orders/route.ts:12-43 | Every stored order comes out of the two joins, whatever the vendors and users hold. |
| `OrdersRoute.GetOnePerOrder` | src/app/api/orders/route.ts:12-43 | With distinct vendor and user ids, GET yields one entry per order, in order. Each entry carries the referenced vendor and user, or None where the id has no match. |
| `Joins.Matches` | src/app/api/inventory/route.ts:13-20 | The `$lookup` array holds only documents with the key. It is empty exactly when no document has the key. |
| `Joins.Lookup` | src/app/api/inventory/route.ts:13-26 | None exactly when no foreign document has the key; otherwise a document that has it. |
| `Joins.Unwind` | src/app/api/inventory/route.ts:21-26 | `$unwind` keeps a document once, with None, when its array is empty, and otherwise emits it once per element i, paired with element i. |
| `Joins.LeftJoin` | src/app/api/inventory/route.ts:12-29 | There are at least as many outputs as documents. Every output is one of the documents, paired with a foreign document having its key, or with None exactly when no foreign document has the key. |
| `Joins.LeftJoinCovers` | src/app/api/inventory/route.ts:12-29 | Every document comes out of the join, and the first output is the first document. |
| `Joins.LeftJoinConcat` | src/app/api/inventory/route.ts:12-29 | The join of a concatenation is the concatenation of the joins, so output order follows document order. |
| `Joins.MatchesUnique` | src/app/api/inventory/route.ts:13-20 | With distinct foreign ids, the lookup array is empty or holds just the one match. |
| `Joins.LeftJoinUnique` | src/app/api/inventory/route.ts:12-29 | With distinct foreign ids, the join yields exactly one entry per document, in order, paired with its match or None. |
| `InventoryRoute.StatusOf` | src/app/api/inventory/route.ts:44-59 | Missing fields are reported with 400, an unknown product with 404. |
| `InventoryRoute.HasRequiredFields` | src/app/api/inventory/route.ts:44 | The body is accepted when the product id is present and the quantity is neither null nor absent; a quantity of 0 is accepted. |
| `InventoryRoute.Upsert` | src/app/api/inventory/route.ts:68-87 | The record gets the submitted quantity and the current time. A truthy location replaces the old one. A falsy location keeps the existing record's location, or gives none to a new record. |
| `InventoryRoute.SetStock` | src/app/api/inventory/route.ts:62-88 | Sets or inserts the one record for the product. Every other product's record is unchanged. |
| `InventoryRoute.SecondPostWins` | src/app/api/inventory/route.ts:68-79 | Two posts for one product leave the second quantity, not the sum of the two. |
| `InventoryRoute.LocationPersists` | src/app/api/inventory/route.ts:75 | A location once set survives a later post that sends none. |
| `InventoryRoute.Post` | src/app/api/inventory/route.ts:39-100 | Fails with MissingFields exactly when the id is falsy or the quantity is null or absent (0 is accepted). Fails with ProductNotFound exactly when the fields are present and the product is unknown. A failure changes nothing. On success the inventory is `SetStock` of the old one; the other collections are untouched; the returned record is the product's stored record with the submitted quantity. |
| `InventoryRoute.Get` | src/app/api/inventory/route.ts:12-29 | There are at least as many entries as records, and every entry is a stored record. Its product is one with the record's `product_id`, or None exactly when no product has it. |
| `InventoryRoute.GetCovers` | src/app/api/inventory/route.ts:12-29 | Every stored inventory record comes out of the join, whatever the products hold. |
| `InventoryRoute.GetOnePerRecord` | src/app/api/inventory/route.ts:12-29 | With distinct product ids, GET yields one entry per stock record, in order. The product is None exactly when no product has the record's id. |
| `ProductsRoute.StatusOf` | src/app/api/products/route.ts:41-43 | A taken code is refused with 409. |
| `ProductsRoute.CodeTaken` | src/app/api/products/route.ts:40 | `findOne({code})`: some stored product has exactly this code; an absent or null code matches a product without one. |
| `ProductsRoute.NewProduct` | src/app/api/products/route.ts:25-35 | The stored product carries the submitted fields. `created_at` and `updated_at` are both the request time. |
| `ProductsRoute.ResponseOf` | src/app/api/products/route.ts:48-53 | The response carries the product and its new id. Its `supplierId` is null exactly when none was stored, and otherwise is the stored id. |
| `ProductsRoute.InsertKeepsCodesUnique` | src/app/api/products/route.ts:40-45 | Inserting a product whose code is not taken keeps codes pairwise distinct. |
| `ProductsRoute.Post` | src/app/api/products/route.ts:20-60 | Fails with CodeNotUnique exactly when some product has the code, and then changes nothing. Otherwise exactly one product is inserted, existing products and the other collections are untouched, and distinct codes stay distinct. |
| `InventoryPage.StockLevelText` | src/app/dashboard/inventory/page.tsx:85-89 | "Low" exactly below 37, "Medium" exactly from 37 to 72, "High" exactly above 72. |
| `InventoryPage.StockCounts` | src/app/dashboard/inventory/page.tsx:196-198 | Each count is the number of lines in its band (below 37, 37 to 72, above 72), and the three add up to the number of lines. |
| `InventoryPage.BandsAgreeWithLabels` | src/app/dashboard/inventory/page.tsx:66-76 | "low", "medium" and "high" keep exactly the quantities `StockLevelText` labels Low, Medium and High. Any other filter keeps every quantity. |
| `InventoryPage.ByQuantityIsTotalPreorder` | src/app/dashboard/inventory/page.tsx:80 | The quantity comparator is consistent: total and transitive. |
| `InventoryPage.FilterInventory` | src/app/dashboard/inventory/page.tsx:60-83 | The result is a permutation of the lines that match the search (on a non-empty name or code) and lie in the band. Every such line is shown. The result is sorted by ascending quantity. |
| `InventoryPage.UpdateStock` | src/app/dashboard/inventory/page.tsx:114-130 | Does nothing without a selection or with a non-positive amount. Otherwise the lines with the selected id are set to the selected line's quantity plus the amount; the length and every other line are unchanged. |
| `InventoryPage.UpdateStockAddsToSelection` | src/app/dashboard/inventory/page.tsx:122-127 | With distinct ids, the selected line gains exactly the amount and every other line is untouched. |
| `InventoryPage.NewLine` | src/app/dashboard/inventory/page.tsx:168-177 | The new line copies the catalog product's id, code, name, size, category and price. Its quantity is the amount and its location "Main Warehouse". |
| `InventoryPage.AddPurchase` | src/app/dashboard/inventory/page.tsx:143-182 | Nothing happens exactly when the product id is falsy (so id 0 too) or the amount is not positive. "Product not found" is reported exactly when the id is not in the catalog. Otherwise, when some line has the id, the length is kept, every line with the id is set to the first such line's quantity plus the amount, and every other line is unchanged; when none has it, the list is the old one plus `NewLine` of the first catalog entry with the id. |
| `InventoryPage.AddPurchaseToExistingLine` | src/app/dashboard/inventory/page.tsx:153-165 | For the first line k with the id, whether or not ids are distinct: the length is kept, line k gains the amount, every line with the id gets that same quantity, and lines with other ids are unchanged. |
| `InventoryPage.AddPurchaseAppendsNewLine` | src/app/dashboard/inventory/page.tsx:166-179 | A purchase of an unlisted catalog product appends exactly one line, keeping the old lines in front. The line is `NewLine` of the product's first catalog entry: its id, code, name, size, category and price, the amount, and "Main Warehouse". |
| `CustomersPage.HandleSort` | src/app/dashboard/customers/page.tsx:204-212 | The clicked field becomes the sort field. Its direction flips when it was already the field, and is "asc" otherwise. |
| `CustomersPage.FirstClickFromInitialSort` | src/app/dashboard/customers/page.tsx:38-39 | The page opens sorted by name ascending, so a first click on "name" sorts descending and a first click on another header ascending. |
| `CustomersPage.HandleSortTwice` | src/app/dashboard/customers/page.tsx:204-212 | Two clicks on the current field restore the state. Two clicks on another field leave it sorted "desc". |
| `CustomersPage.FieldText` | src/app/dashboard/customers/page.tsx:86-87 | `(c[field] \|\| "").toString()`: the id reads "" exactly when it is 0, the name as is, each optional field as its value or "" when falsy, and a key the record does not have as "". |
| `CustomersPage.SortKey` | src/app/dashboard/customers/page.tsx:86-87 | The key is the field text lower-cased: same length, empty exactly when the text is, and its own lower case. |
| `CustomersPage.BeforeIsTotalPreorder` | src/app/dashboard/customers/page.tsx:85-96 | Both directions of the string comparator are consistent: total and transitive. |
| `CustomersPage.FilterCustomers` | src/app/dashboard/customers/page.tsx:73-100 | The result is a permutation of the customers whose name, contact, address or agent contains the term, ignoring case. Every such customer is shown. Without a sort field the list order is kept. With one, the result is non-decreasing by the lower-cased field text for "asc" and non-increasing for "desc"; a missing field reads as "". |
| `CustomersPage.AddCustomer` | src/app/dashboard/customers/page.tsx:165-170 | Appends one customer at the end, keeping the others. Its id is 1 on an empty list, and otherwise one more than some existing id and greater than all of them. Its fields come from the form. |
| `CustomersPage.AddedIdIsFresh` | src/app/dashboard/customers/page.tsx:165 | The new id differs from every existing id. |
| `CustomersPage.AddKeepsIdsUnique` | src/app/dashboard/customers/page.tsx:165-168 | Distinct ids stay distinct after an add. |
| `CustomersPage.Overlay` | src/app/dashboard/customers/page.tsx:189 | `{ ...c, ...formData }`: the form's five fields replace the customer's, the id and the email are kept. |
| `CustomersPage.EditCustomer` | src/app/dashboard/customers/page.tsx:185-192 | Without a selection nothing changes. Otherwise the customers with the selected id get the form's five fields and keep their id and email. The length and every other customer are unchanged. |
| `CustomersPage.DeleteCustomer` | src/app/dashboard/customers/page.tsx:136 | The result holds no customer with the id and keeps every other customer. It is the list itself when no customer has the id, and shorter when one does. |
| `CustomersPage.DeleteCustomerConcat` | src/app/dashboard/customers/page.tsx:136 | Deleting distributes over concatenation, so the survivors keep their order. |
| `CustomersPage.ExportRows` | src/app/dashboard/customers/page.tsx:226-236 | One row per customer. Row i has serial number i+1 and the customer's name. Each optional field is its value, or "-" when falsy, so no such cell is blank. |
| `AgentsPage.FilterAgents` | src/app/dashboard/agents/page.tsx:49-58 | Keeps the agents whose name, contact or city contains the term, ignoring case, and every such agent. |
| `AgentsPage.EmptySearchKeepsAll` | src/app/dashboard/agents/page.tsx:52 | An empty term keeps every agent, in order. |
| `AgentsPage.FilterAgentsConcat` | src/app/dashboard/agents/page.tsx:50-56 | Filtering distributes over concatenation, so the input order is kept. |
| `AgentsPage.AddAgent` | src/app/dashboard/agents/page.tsx:146-149 | Appends one agent at the end, keeping the others. Its id is 1 on an empty list, and otherwise one more than some existing id and greater than all of them. Its fields come from the form. |
| `AgentsPage.Overlay` | src/app/dashboard/agents/page.tsx:169 | `{ ...a, ...formData }`: the form's four fields replace the agent's, the id is kept. |
| `AgentsPage.EditAgent` | src/app/dashboard/agents/page.tsx:165-172 | Without a selection nothing changes. Otherwise the agents with the selected id get the form's four fields and keep their id. The length and every other agent are unchanged. |
| `AgentsPage.EditIdempotent` | src/app/dashboard/agents/page.tsx:167-172 | Submitting the same edit twice gives the same list as once. |
| `AgentsPage.DeleteAgent` | src/app/dashboard/agents/page.tsx:92 | The result holds no agent with the id and keeps every other agent. It is the list itself when no agent has the id, and shorter when one does. |
| `AgentsPage.DeleteAgentConcat` | src/app/dashboard/agents/page.tsx:92 | Deleting distributes over concatenation, so the survivors keep their order. |
| `AgentsPage.DeleteUndoesAdd` | src/app/dashboard/agents/page.tsx:92 | Deleting the agent just added gives back the list it was added to. |
| `AgentsPage.ExportRows` | src/app/dashboard/agents/page.tsx:104-112 | One row per agent: serial number i+1, the name, then the contact, email and city, each "-" when falsy. |
| `Common.OrElse` | src/app/api/orders/route.ts:91 | `x || fallback` is the value when truthy, else the fallback. |
| `Common.OrDash` | src/app/dashboard/agents/page.tsx:108-110 | `x || '-'` is never blank. It is "-" exactly when the value is falsy or is itself "-". |
| `Common.Lower` | src/app/dashboard/agents/page.tsx:52 | Lower-casing keeps the length, leaves no ASCII capital, and changes no other character. |
| `Common.LowerIdempotent` | src/app/dashboard/agents/page.tsx:52 | Lower-casing twice is lower-casing once. |
| `Common.FieldMatchesEmptyTerm` | src/app/dashboard/agents/page.tsx:53-54 | `field && field.toLowerCase().includes(term.toLowerCase())` with an empty term holds exactly when the field is truthy. |
| `Common.ContainsAt` | src/app/dashboard/agents/page.tsx:52 | `includes` holds exactly when the term occurs at some position. |
| `Common.StrLessIrreflexive` | src/app/dashboard/customers/page.tsx:89-92 | No string is below itself. |
| `Common.StrLessTransitive` | src/app/dashboard/customers/page.tsx:89-92 | String `<` is transitive. |
| `Common.StrLessTrichotomous` | src/app/dashboard/customers/page.tsx:89-95 | Of two strings, one is below the other or they are equal. |
| `Common.Filter` | src/app/dashboard/agents/page.tsx:50-56 | `filter` keeps exactly the elements satisfying the predicate, and no more of each than there were. |
| `Common.FilterShrinks` | src/app/dashboard/customers/page.tsx:136 | A filter that drops at least one element shortens the list. |
| `Common.FilterPartition` | src/app/dashboard/inventory/page.tsx:196-198 | Three filters by mutually exclusive and exhaustive predicates together count every element once. |
| `Common.FindFirst` | src/app/dashboard/inventory/page.tsx:147 | `find` returns the first index whose element satisfies the predicate, or None when none does. |
| `Common.Max` | src/app/dashboard/customers/page.tsx:165 | `Math.max` of a non-empty list is an element of it and at least every element. |
| `Common.IdsOf` | src/app/dashboard/customers/page.tsx:165 | `list.map(x => x.id)`: one id per entry, in order. |
| `Common.NextId` | src/app/dashboard/customers/page.tsx:165 | The new id is 1 for an empty list, and otherwise one more than an existing id and above every one. |
| `Sorting.Sort` | src/app/dashboard/inventory/page.tsx:80 | The sort keeps the length and the multiset of elements. |
| `Sorting.SortSameElements` | src/app/dashboard/inventory/page.tsx:80 | The sorted list and the input hold the same elements. |
| `Sorting.SortSorted` | src/app/dashboard/inventory/page.tsx:80 | With a consistent comparator the result is in order. |
| `Sorting.SortOfSorted` | src/app/dashboard/inventory/page.tsx:80 | A list already in order comes back unchanged. |

## Left out

- The database driver, connection caching and the `ObjectId` conversions are not modelled. An id that does not parse makes the real route throw and answer 500; the model takes ids as already valid.
- The order transaction is modelled as sequential and all-or-nothing. Session isolation and concurrent posts are not modelled, including that the duplicate lookup does not pass the session.
- `OrdersRoute.Post`: the refusal of an empty `insertMany` batch is the database driver's behaviour, and the driver is not part of this model; the model takes the refusal as given and answers EmptyItemBatch with nothing committed.
- `OrdersRoute.Post`: the response joins the vendor to the created order, and the model leaves that join out. It also does not re-select the order by `order_number`. With unique numbers that selects the same order.
- `OrdersRoute.Post`: neither the status against the schema's enumeration nor the total against the items is validated. The route does neither check.
- `ProductsRoute.Post`: extra body fields spread into the stored product beyond the six modelled ones are dropped.
- `ProductsRoute.NewProduct`: a supplied but falsy `supplierId` (such as "") is stored as sent (lines 33-35 convert only a truthy one), but it is not an `Id`, so the model treats it like an absent one. The response (line 52) turns both into null, as `ResponseOf` states.
- `Sorting.Sort`: stability is stated only as "a sorted list comes back unchanged", not as the full order of equal elements.
- `CustomersPage.FilterCustomers`: string order is by Dafny character code rather than JavaScript's UTF-16 code units, and `Lower` only maps ASCII letters.
- The pages' in-place `sort` is modelled on values. Only the resulting list is described.
- `localStorage`, `sessionStorage`, `alert`, `window.confirm`, the modals and the PDF rendering itself are not modelled. Each handler is a function from the held list to the next one. A cancelled delete is the caller not calling `DeleteCustomer` or `DeleteAgent`.
- The GET routes' error answers (500 on a driver failure) are not modelled, since they come only from the store.
