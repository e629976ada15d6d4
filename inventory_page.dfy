/**
 * The inventory dashboard page: the three fixed stock bands, the band
 * counts on the summary cards, search plus band filter with the result
 * sorted by quantity, and the two stock-adding dialogs. The page state is
 * the list it holds; each handler returns the list it stores next.
 */
module InventoryPage {
  import opened Common
  import opened Sorting

  /** A line of the inventory list. */
  datatype Item = Item(
    id: int,
    code: string,
    name: string,
    size: Option<string>,
    category: Option<string>,
    quantity: int,
    price: int,
    location: Option<string>)

  /** An entry of the product catalog the "add purchase" dialog chooses from. */
  datatype CatalogProduct = CatalogProduct(id: int, code: string, name: string, size: Option<string>, category: Option<string>, price: int)

  // ---------------------------------------------------------------- bands

  const LowBelow := 37
  const HighAbove := 72

  /** `getStockLevelText`. */
  function StockLevelText(quantity: int): (r: string)
    ensures r == "Low" <==> quantity < LowBelow
    ensures r == "Medium" <==> LowBelow <= quantity <= HighAbove
    ensures r == "High" <==> quantity > HighAbove
  {
    if quantity < LowBelow then "Low"
    else if quantity <= HighAbove then "Medium"
    else "High"
  }

  predicate IsLow(i: Item) { i.quantity < LowBelow }
  predicate IsMedium(i: Item) { i.quantity >= LowBelow && i.quantity <= HighAbove }
  predicate IsHigh(i: Item) { i.quantity > HighAbove }

  /** The low, medium and high counts on the summary cards; together they count every line. */
  function StockCounts(inventory: seq<Item>): (counts: (nat, nat, nat))
    ensures counts.0 == |Filter(inventory, IsLow)| && counts.1 == |Filter(inventory, IsMedium)| && counts.2 == |Filter(inventory, IsHigh)|
    ensures counts.0 + counts.1 + counts.2 == |inventory|
  {
    FilterPartition(inventory, IsLow, IsMedium, IsHigh);
    (|Filter(inventory, IsLow)|, |Filter(inventory, IsMedium)|, |Filter(inventory, IsHigh)|)
  }

  // ---------------------------------------------------------------- filtering

  /** The name or the code contains the term, ignoring ASCII case; an empty name or code never matches. */
  predicate MatchesSearch(item: Item, term: string) {
    || (item.name != "" && Contains(Lower(item.name), Lower(term)))
    || (item.code != "" && Contains(Lower(item.code), Lower(term)))
  }

  /** The band test of the stock filter: "low", "medium" and "high" pick a band, anything else keeps all. */
  predicate InBand(stockFilter: string, quantity: int) {
    if stockFilter == "all" then true
    else if stockFilter == "low" then quantity < 37
    else if stockFilter == "medium" then quantity >= 37 && quantity <= 72
    else if stockFilter == "high" then quantity > 72
    else true
  }

  /** Each named filter keeps exactly the quantities `StockLevelText` gives that label. */
  lemma BandsAgreeWithLabels(quantity: int)
    ensures InBand("low", quantity) <==> StockLevelText(quantity) == "Low"
    ensures InBand("medium", quantity) <==> StockLevelText(quantity) == "Medium"
    ensures InBand("high", quantity) <==> StockLevelText(quantity) == "High"
    ensures forall f :: f !in {"low", "medium", "high"} ==> InBand(f, quantity)
  {
  }

  predicate Keep(item: Item, term: string, stockFilter: string) {
    MatchesSearch(item, term) && InBand(stockFilter, item.quantity)
  }

  /** The comparator `(a.quantity || 0) - (b.quantity || 0)` read as "a may stay in front of b". */
  predicate ByQuantity(a: Item, b: Item) {
    a.quantity <= b.quantity
  }

  lemma ByQuantityIsTotalPreorder()
    ensures TotalPreorder(ByQuantity)
  {
  }

  /** The lines the filter keeps, in list order. */
  function Kept(inventory: seq<Item>, term: string, stockFilter: string): seq<Item> {
    Filter(inventory, (i: Item) => Keep(i, term, stockFilter))
  }

  /**
   * `filterInventory`: the lines that match the search and lie in the
   * selected band, sorted by ascending quantity.
   */
  function FilterInventory(inventory: seq<Item>, term: string, stockFilter: string): (r: seq<Item>)
    ensures multiset(r) == multiset(Kept(inventory, term, stockFilter))
    ensures forall i :: 0 <= i < |r| ==> r[i] in inventory && Keep(r[i], term, stockFilter)
    ensures forall i :: 0 <= i < |inventory| && Keep(inventory[i], term, stockFilter) ==> inventory[i] in r
    ensures forall i, j :: 0 <= i < j < |r| ==> r[i].quantity <= r[j].quantity
  {
    var kept := Kept(inventory, term, stockFilter);
    ByQuantityIsTotalPreorder();
    SortSorted(kept, ByQuantity);
    SortSameElements(kept, ByQuantity);
    Sort(kept, ByQuantity)
  }

  // ---------------------------------------------------------------- adding stock

  /**
   * `confirmUpdateStock`: with a selected line and a positive amount, every
   * line with the selected id is set to the selected line's quantity plus
   * the amount.
   */
  function UpdateStock(inventory: seq<Item>, selected: Option<Item>, quantityToAdd: int): (r: seq<Item>)
    ensures |r| == |inventory|
    ensures selected.None? || quantityToAdd <= 0 ==> r == inventory
    ensures forall i :: 0 <= i < |r| ==>
      r[i] == if selected.Some? && quantityToAdd > 0 && inventory[i].id == selected.value.id
              then inventory[i].(quantity := selected.value.quantity + quantityToAdd)
              else inventory[i]
  {
    if selected.None? || quantityToAdd <= 0 then inventory
    else
      var newQuantity := selected.value.quantity + quantityToAdd;
      seq(|inventory|, i requires 0 <= i < |inventory| =>
        if inventory[i].id == selected.value.id then inventory[i].(quantity := newQuantity) else inventory[i])
  }

  /** Line ids are pairwise distinct. */
  predicate UniqueIds(inventory: seq<Item>) {
    forall i, j :: 0 <= i < j < |inventory| ==> inventory[i].id != inventory[j].id
  }

  /**
   * When the selection is the k-th line and ids are distinct, that line
   * gains exactly the amount and every other line is untouched.
   */
  lemma UpdateStockAddsToSelection(inventory: seq<Item>, k: nat, quantityToAdd: int)
    requires k < |inventory| && UniqueIds(inventory) && quantityToAdd > 0
    ensures UpdateStock(inventory, Some(inventory[k]), quantityToAdd)[k].quantity == inventory[k].quantity + quantityToAdd
    ensures forall i :: 0 <= i < |inventory| && i != k ==> UpdateStock(inventory, Some(inventory[k]), quantityToAdd)[i] == inventory[i]
  {
    var r := UpdateStock(inventory, Some(inventory[k]), quantityToAdd);
    forall i | 0 <= i < |inventory| && i != k ensures r[i] == inventory[i] {
      if i < k {
        assert inventory[i].id != inventory[k].id;
      } else {
        assert inventory[k].id != inventory[i].id;
      }
    }
  }

  /** The line "add purchase" appends for a catalog product not yet in the list. */
  function NewLine(p: CatalogProduct, quantityToAdd: int): (item: Item)
    ensures item.id == p.id && item.code == p.code && item.name == p.name && item.size == p.size
    ensures item.category == p.category && item.price == p.price
    ensures item.quantity == quantityToAdd && item.location == Some("Main Warehouse")
  {
    Item(p.id, p.code, p.name, p.size, p.category, quantityToAdd, p.price, Some("Main Warehouse"))
  }

  /** How `confirmAddPurchase` ends. */
  datatype PurchaseOutcome = NothingSelected | ProductNotFound | Added(inventory: seq<Item>)

  function LineWithId(id: int): Item -> bool {
    (i: Item) => i.id == id
  }

  function ProductWithId(id: int): CatalogProduct -> bool {
    (p: CatalogProduct) => p.id == id
  }

  /**
   * `confirmAddPurchase`: a falsy product id (none, or 0) or a non-positive
   * amount does nothing; a product missing from the catalog is reported;
   * otherwise every line with that id is set to the first such line's
   * quantity plus the amount, or, with no such line, a line built from the
   * first catalog entry with that id is appended.
   */
  function AddPurchase(inventory: seq<Item>, catalog: seq<CatalogProduct>, selectedId: Option<int>, quantityToAdd: int): (r: PurchaseOutcome)
    ensures r.NothingSelected? <==> !TruthyInt(selectedId) || quantityToAdd <= 0
    ensures r.ProductNotFound? <==>
      TruthyInt(selectedId) && quantityToAdd > 0 && forall j :: 0 <= j < |catalog| ==> catalog[j].id != selectedId.value
    ensures r.Added? ==> TruthyInt(selectedId) && quantityToAdd > 0
    ensures r.Added? && FindFirst(inventory, LineWithId(selectedId.value)).Some? ==>
      var k := FindFirst(inventory, LineWithId(selectedId.value)).value;
      && |r.inventory| == |inventory|
      && forall i :: 0 <= i < |inventory| ==>
           r.inventory[i] == if inventory[i].id == selectedId.value
                             then inventory[i].(quantity := inventory[k].quantity + quantityToAdd)
                             else inventory[i]
    ensures r.Added? && FindFirst(inventory, LineWithId(selectedId.value)).None? ==>
      && FindFirst(catalog, ProductWithId(selectedId.value)).Some?
      && r.inventory == inventory + [NewLine(catalog[FindFirst(catalog, ProductWithId(selectedId.value)).value], quantityToAdd)]
  {
    if !TruthyInt(selectedId) || quantityToAdd <= 0 then NothingSelected
    else
      var id := selectedId.value;
      match FindFirst(catalog, ProductWithId(id))
      case None => ProductNotFound
      case Some(c) =>
        match FindFirst(inventory, LineWithId(id))
        case Some(k) =>
          var newQuantity := inventory[k].quantity + quantityToAdd;
          Added(seq(|inventory|, i requires 0 <= i < |inventory| =>
            if inventory[i].id == id then inventory[i].(quantity := newQuantity) else inventory[i]))
        case None => Added(inventory + [NewLine(catalog[c], quantityToAdd)])
  }

  /**
   * A purchase of a product already in the list raises its first line by the
   * amount, sets every other line with that id to the same quantity, and
   * leaves the lines with other ids alone.
   */
  lemma AddPurchaseToExistingLine(inventory: seq<Item>, catalog: seq<CatalogProduct>, id: int, k: nat, quantityToAdd: int)
    requires id != 0 && quantityToAdd > 0
    requires exists c :: 0 <= c < |catalog| && catalog[c].id == id
    requires k < |inventory| && inventory[k].id == id
    requires forall j :: 0 <= j < k ==> inventory[j].id != id
    ensures AddPurchase(inventory, catalog, Some(id), quantityToAdd).Added?
    ensures var after := AddPurchase(inventory, catalog, Some(id), quantityToAdd).inventory;
      && |after| == |inventory|
      && after[k] == inventory[k].(quantity := inventory[k].quantity + quantityToAdd)
      && (forall i :: 0 <= i < |inventory| && inventory[i].id == id ==> after[i].quantity == inventory[k].quantity + quantityToAdd)
      && (forall i :: 0 <= i < |inventory| && inventory[i].id != id ==> after[i] == inventory[i])
  {
    assert LineWithId(id)(inventory[k]);
    assert FindFirst(inventory, LineWithId(id)) == Some(k);
  }

  /** A purchase of a catalog product not yet in the list appends exactly one line, built from its first catalog entry. */
  lemma AddPurchaseAppendsNewLine(inventory: seq<Item>, catalog: seq<CatalogProduct>, id: int, c: nat, quantityToAdd: int)
    requires id != 0 && quantityToAdd > 0
    requires c < |catalog| && catalog[c].id == id
    requires forall j :: 0 <= j < c ==> catalog[j].id != id
    requires forall i :: 0 <= i < |inventory| ==> inventory[i].id != id
    ensures AddPurchase(inventory, catalog, Some(id), quantityToAdd).Added?
    ensures var after := AddPurchase(inventory, catalog, Some(id), quantityToAdd).inventory;
      && |after| == |inventory| + 1
      && after[..|inventory|] == inventory
      && after[|inventory|] == NewLine(catalog[c], quantityToAdd)
      && after[|inventory|].id == id && after[|inventory|].code == catalog[c].code && after[|inventory|].name == catalog[c].name
      && after[|inventory|].size == catalog[c].size && after[|inventory|].category == catalog[c].category
      && after[|inventory|].price == catalog[c].price
      && after[|inventory|].quantity == quantityToAdd && after[|inventory|].location == Some("Main Warehouse")
  {
    assert ProductWithId(id)(catalog[c]);
    assert FindFirst(catalog, ProductWithId(id)) == Some(c);
    assert FindFirst(inventory, LineWithId(id)).None?;
  }
}
