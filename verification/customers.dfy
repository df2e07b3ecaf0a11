/** The customer list (src/components/customers/CustomerTable.tsx): the
    search, status toggle, delete and save (edit or create). */
module Customers {
  import opened Wrappers
  import opened JsText
  import opened SeqOps

  datatype Customer = Customer(
    id: string,
    name: string,
    email: string,
    phone: string,
    document: string,
    address: string,
    isActive: bool)

  /** What the customer form submits: a customer without its id. */
  datatype CustomerFormData = CustomerFormData(
    name: string,
    email: string,
    phone: string,
    document: string,
    address: string,
    isActive: bool)

  function CustomerId(c: Customer): string {
    c.id
  }

  /** `{ ...data, id }`. */
  function WithId(data: CustomerFormData, id: string): Customer {
    Customer(id, data.name, data.email, data.phone, data.document, data.address, data.isActive)
  }

  /** The form data a customer carries, i.e. the customer without its id. */
  function FormDataOf(c: Customer): CustomerFormData {
    CustomerFormData(c.name, c.email, c.phone, c.document, c.address, c.isActive)
  }

  /** Splitting off the id and putting it back is lossless both ways. */
  lemma WithIdRoundTrip(c: Customer, data: CustomerFormData, id: string)
    ensures WithId(FormDataOf(c), c.id) == c
    ensures FormDataOf(WithId(data, id)) == data && WithId(data, id).id == id
  {
  }

  /** Name and e-mail are matched ignoring case; phone and document are
      matched as typed. */
  predicate CustomerMatches(c: Customer, term: string) {
    || IncludesIgnoringCase(c.name, term)
    || IncludesIgnoringCase(c.email, term)
    || Includes(c.phone, term)
    || Includes(c.document, term)
  }

  /** `filteredCustomers`. */
  function FilterCustomers(customers: seq<Customer>, term: string): (r: seq<Customer>)
    ensures forall x :: x in r <==> (x in customers && CustomerMatches(x, term))
  {
    Filter(customers, (c: Customer) => CustomerMatches(c, term))
  }

  /** An empty search shows every customer. */
  lemma EmptySearchShowsAllCustomers(customers: seq<Customer>)
    ensures FilterCustomers(customers, "") == customers
  {
    var p := (c: Customer) => CustomerMatches(c, "");
    forall i | 0 <= i < |customers| ensures p(customers[i]) {
      EmptyTermMatches(customers[i].name);
    }
    FilterKeepsAll(customers, p);
  }

  /** Name and e-mail are case-blind: recasing either never changes whether
      a customer is found. */
  lemma NameAndEmailAreCaseBlind(c: Customer, name: string, email: string, term: string)
    requires ToLower(name) == ToLower(c.name) && ToLower(email) == ToLower(c.email)
    ensures CustomerMatches(c.(name := name, email := email), term) == CustomerMatches(c, term)
  {
    IgnoringCaseIsCaseBlind(name, c.name, term, term);
    IgnoringCaseIsCaseBlind(email, c.email, term, term);
  }

  /** The phone and document are not case-folded. An example: a term that
      differs from the phone "ramal A" only in case does not find the
      customer through it. */
  lemma PhoneSearchIsCaseSensitive(c: Customer)
    requires c.phone == "ramal A" && c.document == "" && c.name == "" && c.email == ""
    ensures !CustomerMatches(c, "ramal a")
    ensures CustomerMatches(c, "ramal A")
  {
    assert IsPrefix("ramal A", c.phone);
    assert !Includes("", "ramal a");
    assert ToLower("") == "";
    IncludesIffOccurs(c.phone, "ramal a");
  }

  function FlipActive(c: Customer): Customer {
    c.(isActive := !c.isActive)
  }

  /** `handleStatusChange(id)`. */
  function ToggleCustomer(customers: seq<Customer>, id: string): (r: seq<Customer>)
    ensures |r| == |customers|
    ensures forall i :: 0 <= i < |customers| && customers[i].id == id ==>
      r[i] == customers[i].(isActive := !customers[i].isActive)
    ensures forall i :: 0 <= i < |customers| && customers[i].id != id ==> r[i] == customers[i]
  {
    UpdateWhere(customers, CustomerId, id, FlipActive)
  }

  /** Toggling twice is the identity. */
  lemma ToggleCustomerTwice(customers: seq<Customer>, id: string)
    ensures ToggleCustomer(ToggleCustomer(customers, id), id) == customers
  {
    var twice := ToggleCustomer(ToggleCustomer(customers, id), id);
    assert forall i :: 0 <= i < |customers| ==> twice[i] == customers[i];
  }

  /** `handleDelete(id)`. */
  function DeleteCustomer(customers: seq<Customer>, id: string): (r: seq<Customer>)
    ensures forall x :: x in r <==> (x in customers && x.id != id)
  {
    RemoveWhere(customers, CustomerId, id)
  }

  /** Deleting a unique id removes just that position, keeping the order. */
  lemma DeleteUniqueCustomer(customers: seq<Customer>, i: int)
    requires 0 <= i < |customers|
    requires forall j :: 0 <= j < |customers| && j != i ==> customers[j].id != customers[i].id
    ensures DeleteCustomer(customers, customers[i].id) == customers[..i] + customers[i + 1..]
  {
    RemoveUniqueAt(customers, CustomerId, customers[i].id, i);
  }

  /** `handleSaveCustomer(data)`. `editing` is the id of the customer being
      edited, or `None` for a new one; `freshId` stands for `Date.now()`. */
  function SaveCustomer(customers: seq<Customer>, editing: Option<string>, data: CustomerFormData,
                        freshId: string): (r: seq<Customer>)
    // an edit replaces the whole record of the matching customers but keeps the id
    ensures editing.Some? ==> |r| == |customers|
    ensures editing.Some? ==> forall i :: 0 <= i < |customers| ==>
      r[i] == (if customers[i].id == editing.value then WithId(data, customers[i].id) else customers[i])
    // a create appends one customer
    ensures editing.None? ==> |r| == |customers| + 1 && r[..|customers|] == customers
    ensures editing.None? ==> r[|customers|].id == freshId && FormDataOf(r[|customers|]) == data
  {
    match editing
    case Some(id) => UpdateWhere(customers, CustomerId, id, (c: Customer) => WithId(data, c.id))
    case None => customers + [WithId(data, freshId)]
  }

  /** Saving the data a customer already has, under its own unique id,
      changes nothing. */
  lemma UntouchedCustomerEditIsIdentity(customers: seq<Customer>, i: int, freshId: string)
    requires 0 <= i < |customers|
    requires forall j :: 0 <= j < |customers| && j != i ==> customers[j].id != customers[i].id
    ensures SaveCustomer(customers, Some(customers[i].id), FormDataOf(customers[i]), freshId) == customers
  {
    var r := SaveCustomer(customers, Some(customers[i].id), FormDataOf(customers[i]), freshId);
    assert forall j :: 0 <= j < |customers| ==> r[j] == customers[j];
  }
}
