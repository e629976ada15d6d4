/**
 * The customers dashboard page: search over name, contact, address and
 * agent; sorting by a chosen field with an ascending/descending toggle;
 * add, edit and delete on the held list; and the rows of the PDF export.
 */
module CustomersPage {
  import opened Common
  import opened Sorting

  datatype Customer = Customer(
    id: int,
    name: string,
    contact: Option<string>,
    customerRefId: Option<string>,
    agent: Option<string>,
    address: Option<string>,
    email: Option<string>)

  /** The add/edit form: every key it starts with stays present, possibly as "". */
  datatype CustomerForm = CustomerForm(name: string, contact: string, customerRefId: string, agent: string, address: string)

  // ---------------------------------------------------------------- search

  /** The `filterCustomers` predicate; the name is tested even when it is empty. */
  predicate MatchesSearch(c: Customer, term: string) {
    || Contains(Lower(c.name), Lower(term))
    || FieldMatches(c.contact, term)
    || FieldMatches(c.address, term)
    || FieldMatches(c.agent, term)
  }

  function Matching(customers: seq<Customer>, term: string): seq<Customer> {
    Filter(customers, (c: Customer) => MatchesSearch(c, term))
  }

  // ---------------------------------------------------------------- sorting

  datatype Direction = Asc | Desc

  /** `currentSortField` (null is None) and `currentSortDirection`. */
  datatype SortState = SortState(field: Option<string>, direction: Direction)

  const InitialSort := SortState(Some("name"), Asc)

  /** `handleSort`: the current field flips its direction; another field is selected ascending. */
  function HandleSort(state: SortState, field: string): (r: SortState)
    ensures r.field == Some(field)
    ensures state.field == Some(field) ==> r.direction != state.direction
    ensures state.field != Some(field) ==> r.direction == Asc
  {
    if state.field == Some(field) then state.(direction := if state.direction == Asc then Desc else Asc)
    else SortState(Some(field), Asc)
  }

  /**
   * The page opens sorted by name ascending, so the first click on "name"
   * sorts it descending and the first click on any other header ascending.
   */
  lemma FirstClickFromInitialSort(field: string)
    ensures HandleSort(InitialSort, "name") == SortState(Some("name"), Desc)
    ensures field != "name" ==> HandleSort(InitialSort, field) == SortState(Some(field), Asc)
  {
  }

  /** Clicking the same header twice restores the direction it had. */
  lemma HandleSortTwice(state: SortState, field: string)
    ensures HandleSort(HandleSort(state, field), field) ==
      if state.field == Some(field) then state else SortState(Some(field), Desc)
  {
  }

  /** `n.toString()`. */
  function DecimalString(n: int): (r: string)
    ensures r != ""
  {
    if n < 0 then "-" + NatString(-n) else NatString(n)
  }

  function NatString(n: nat): (r: string)
    ensures r != ""
    decreases n
  {
    var digit := ["0123456789"[n % 10]];
    if n < 10 then digit else NatString(n / 10) + digit
  }

  /** The keys of a customer record. */
  const CustomerKeys := {"id", "name", "contact", "customer_ref_id", "agent", "address", "email"}

  /** `(c[field] || "").toString()`: a falsy field, or a key the record does not have, reads as "". */
  function FieldText(c: Customer, field: string): (r: string)
    ensures field == "id" ==> (r == "" <==> c.id == 0)
    ensures field == "name" ==> r == c.name
    ensures field == "contact" ==> r == OrElse(c.contact, "")
    ensures field == "customer_ref_id" ==> r == OrElse(c.customerRefId, "")
    ensures field == "agent" ==> r == OrElse(c.agent, "")
    ensures field == "address" ==> r == OrElse(c.address, "")
    ensures field == "email" ==> r == OrElse(c.email, "")
    ensures field !in CustomerKeys ==> r == ""
  {
    if field == "id" then (if c.id == 0 then "" else DecimalString(c.id))
    else if field == "name" then c.name
    else if field == "contact" then OrElse(c.contact, "")
    else if field == "customer_ref_id" then OrElse(c.customerRefId, "")
    else if field == "agent" then OrElse(c.agent, "")
    else if field == "address" then OrElse(c.address, "")
    else if field == "email" then OrElse(c.email, "")
    else ""
  }

  /** The text the comparator compares: the field text, lower-cased, which is its own lower case. */
  function SortKey(c: Customer, field: string): (r: string)
    ensures |r| == |FieldText(c, field)|
    ensures r == "" <==> FieldText(c, field) == ""
    ensures Lower(r) == r
  {
    LowerIdempotent(FieldText(c, field));
    Lower(FieldText(c, field))
  }

  /** "a may stay in front of b": the comparator's result for (a, b) is not positive. */
  function Before(field: string, direction: Direction): (Customer, Customer) -> bool {
    if direction == Asc then (a: Customer, b: Customer) => !StrLess(SortKey(b, field), SortKey(a, field))
    else (a: Customer, b: Customer) => !StrLess(SortKey(a, field), SortKey(b, field))
  }

  /** Both comparators are consistent, because `<` on strings is a strict total order. */
  lemma BeforeIsTotalPreorder(field: string, direction: Direction)
    ensures TotalPreorder(Before(field, direction))
  {
    var le := Before(field, direction);
    forall x, y ensures le(x, y) || le(y, x) {
      var kx, ky := SortKey(x, field), SortKey(y, field);
      if StrLess(kx, ky) && StrLess(ky, kx) {
        StrLessTransitive(kx, ky, kx);
        StrLessIrreflexive(kx);
      }
    }
    forall x, y, z | le(x, y) && le(y, z) ensures le(x, z) {
      var kx, ky, kz := SortKey(x, field), SortKey(y, field), SortKey(z, field);
      StrLessTrichotomous(kx, ky);
      StrLessTrichotomous(ky, kz);
      StrLessTrichotomous(kx, kz);
      if StrLess(kx, ky) && StrLess(ky, kz) { StrLessTransitive(kx, ky, kz); }
      if StrLess(ky, kx) && StrLess(kz, ky) { StrLessTransitive(kz, ky, kx); }
      if StrLess(kx, kz) && StrLess(kz, kx) { StrLessTransitive(kx, kz, kx); StrLessIrreflexive(kx); }
    }
  }

  /**
   * `filterCustomers`: the matching customers; when a sort field is set,
   * sorted by its lower-cased text, non-decreasing for "asc" and
   * non-increasing for "desc".
   */
  function FilterCustomers(customers: seq<Customer>, term: string, state: SortState): (r: seq<Customer>)
    ensures multiset(r) == multiset(Matching(customers, term))
    ensures forall i :: 0 <= i < |r| ==> r[i] in customers && MatchesSearch(r[i], term)
    ensures forall i :: 0 <= i < |customers| && MatchesSearch(customers[i], term) ==> customers[i] in r
    ensures !Truthy(state.field) ==> r == Matching(customers, term)
    ensures Truthy(state.field) && state.direction == Asc ==>
      forall i, j :: 0 <= i < j < |r| ==> !StrLess(SortKey(r[j], state.field.value), SortKey(r[i], state.field.value))
    ensures Truthy(state.field) && state.direction == Desc ==>
      forall i, j :: 0 <= i < j < |r| ==> !StrLess(SortKey(r[i], state.field.value), SortKey(r[j], state.field.value))
  {
    var matching := Matching(customers, term);
    if !Truthy(state.field) then matching
    else
      var le := Before(state.field.value, state.direction);
      BeforeIsTotalPreorder(state.field.value, state.direction);
      SortSorted(matching, le);
      SortSameElements(matching, le);
      Sort(matching, le)
  }

  // ---------------------------------------------------------------- add, edit, delete

  /** The add branch of `handleSubmit`: the form plus a fresh id, appended at the end. */
  function AddCustomer(customers: seq<Customer>, form: CustomerForm): (r: seq<Customer>)
    ensures |r| == |customers| + 1 && r[..|customers|] == customers
    ensures customers == [] ==> r[0].id == 1
    ensures forall i :: 0 <= i < |customers| ==> customers[i].id < r[|customers|].id
    ensures customers != [] ==> exists i :: 0 <= i < |customers| && r[|customers|].id == customers[i].id + 1
    ensures var c := r[|customers|];
      c.name == form.name && c.contact == Some(form.contact) && c.customerRefId == Some(form.customerRefId) &&
      c.agent == Some(form.agent) && c.address == Some(form.address) && c.email == None
  {
    var newId := NextId(IdsOf(customers, (x: Customer) => x.id));
    customers + [Customer(newId, form.name, Some(form.contact), Some(form.customerRefId), Some(form.agent), Some(form.address), None)]
  }

  /** A freshly added customer's id is not used by anyone else in the list. */
  lemma AddedIdIsFresh(customers: seq<Customer>, form: CustomerForm)
    ensures var r := AddCustomer(customers, form);
      forall i :: 0 <= i < |customers| ==> r[i].id != r[|customers|].id
  {
  }

  /** Distinct ids stay distinct after an add. */
  lemma AddKeepsIdsUnique(customers: seq<Customer>, form: CustomerForm)
    requires forall i, j :: 0 <= i < j < |customers| ==> customers[i].id != customers[j].id
    ensures var r := AddCustomer(customers, form);
      forall i, j :: 0 <= i < j < |r| ==> r[i].id != r[j].id
  {
    var r := AddCustomer(customers, form);
    forall i, j | 0 <= i < j < |r| ensures r[i].id != r[j].id {
      if j < |customers| {
        assert r[i] == customers[i] && r[j] == customers[j];
      } else {
        assert r[i] == customers[i];
      }
    }
  }

  /** `{ ...c, ...formData }`: the form's keys override, the id and the email survive. */
  function Overlay(c: Customer, form: CustomerForm): (r: Customer)
    ensures r.id == c.id && r.email == c.email
    ensures r.name == form.name && r.contact == Some(form.contact) && r.customerRefId == Some(form.customerRefId)
    ensures r.agent == Some(form.agent) && r.address == Some(form.address)
  {
    c.(name := form.name, contact := Some(form.contact), customerRefId := Some(form.customerRefId),
       agent := Some(form.agent), address := Some(form.address))
  }

  /** The edit branch of `handleSubmit`: with a selected customer, every entry with its id is overlaid. */
  function EditCustomer(customers: seq<Customer>, selectedId: Option<int>, form: CustomerForm): (r: seq<Customer>)
    ensures |r| == |customers|
    ensures selectedId.None? ==> r == customers
    ensures forall i :: 0 <= i < |r| ==> r[i].id == customers[i].id && r[i].email == customers[i].email
    ensures forall i :: 0 <= i < |r| && (selectedId.None? || customers[i].id != selectedId.value) ==> r[i] == customers[i]
    ensures forall i :: 0 <= i < |r| && selectedId.Some? && customers[i].id == selectedId.value ==>
      r[i].name == form.name && r[i].contact == Some(form.contact) && r[i].customerRefId == Some(form.customerRefId) &&
      r[i].agent == Some(form.agent) && r[i].address == Some(form.address)
  {
    if selectedId.None? then customers
    else
      seq(|customers|, i requires 0 <= i < |customers| =>
        if customers[i].id == selectedId.value then Overlay(customers[i], form) else customers[i])
  }

  /** `handleDeleteCustomer`: every customer with that id goes, the rest stay in order. */
  function DeleteCustomer(customers: seq<Customer>, id: int): (r: seq<Customer>)
    ensures forall i :: 0 <= i < |r| ==> r[i] in customers && r[i].id != id
    ensures forall i :: 0 <= i < |customers| && customers[i].id != id ==> customers[i] in r
    ensures (forall i :: 0 <= i < |customers| ==> customers[i].id != id) ==> r == customers
    ensures (exists i :: 0 <= i < |customers| && customers[i].id == id) ==> |r| < |customers|
  {
    var keep := (c: Customer) => c.id != id;
    if forall i :: 0 <= i < |customers| ==> customers[i].id != id then
      FilterAll(customers, keep);
      Filter(customers, keep)
    else
      FilterShrinks(customers, keep);
      Filter(customers, keep)
  }

  /** Deleting from a concatenation deletes from each part and keeps the parts in order. */
  lemma DeleteCustomerConcat(a: seq<Customer>, b: seq<Customer>, id: int)
    ensures DeleteCustomer(a + b, id) == DeleteCustomer(a, id) + DeleteCustomer(b, id)
  {
    FilterConcat(a, b, (c: Customer) => c.id != id);
  }

  // ---------------------------------------------------------------- export

  /** A row of the PDF table. */
  datatype ExportRow = ExportRow(serial: int, customerRefId: string, name: string, contact: string, email: string, agent: string, address: string)

  /** The row mapping of `generatePDF`: serial numbers from 1, '-' for each missing optional field. */
  function ExportRows(customers: seq<Customer>): (rows: seq<ExportRow>)
    ensures |rows| == |customers|
    ensures forall i :: 0 <= i < |rows| ==> rows[i].serial == i + 1 && rows[i].name == customers[i].name
    ensures forall i :: 0 <= i < |rows| ==>
      rows[i].customerRefId == OrDash(customers[i].customerRefId) && rows[i].contact == OrDash(customers[i].contact) &&
      rows[i].email == OrDash(customers[i].email) && rows[i].agent == OrDash(customers[i].agent) &&
      rows[i].address == OrDash(customers[i].address)
    ensures forall i :: 0 <= i < |rows| ==>
      rows[i].customerRefId != "" && rows[i].contact != "" && rows[i].email != "" && rows[i].agent != "" && rows[i].address != ""
  {
    seq(|customers|, i requires 0 <= i < |customers| =>
      var c := customers[i];
      ExportRow(i + 1, OrDash(c.customerRefId), c.name, OrDash(c.contact), OrDash(c.email), OrDash(c.agent), OrDash(c.address)))
  }
}
