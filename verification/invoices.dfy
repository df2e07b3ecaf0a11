/** The invoice list (src/components/invoices/InvoiceTable.tsx): the search,
    delete, save, the two status transitions, the status badge and the
    guards that decide which actions a row offers. */
module Invoices {
  import opened Wrappers
  import opened JsText
  import opened SeqOps

  datatype InvoiceStatus = Pending | Paid | Overdue | Cancelled

  datatype PaymentMethod = MercadoPago | Asaas

  /** An invoice row. `amount` is in cents and `dueDate` a day number; no
      operation here computes with either. */
  datatype Invoice = Invoice(
    id: string,
    customerId: string,
    customerName: string,
    amount: int,
    description: string,
    dueDate: int,
    status: InvoiceStatus,
    paymentMethod: PaymentMethod,
    messageTemplateId: string)

  /** What the invoice form submits. */
  datatype InvoiceFormData = InvoiceFormData(
    customerId: string,
    amount: int,
    description: string,
    dueDate: int,
    paymentMethod: PaymentMethod,
    messageTemplateId: string)

  function InvoiceId(inv: Invoice): string {
    inv.id
  }

  /** The list the table starts from (`mockInvoices`); 2023-08-10,
      2023-08-15 and 2023-07-05 are days 19579, 19584 and 19543. */
  const MockInvoices: seq<Invoice> := [
    Invoice("1", "1", "João Silva", 19990, "Mensalidade Agosto 2023", 19579, Paid, MercadoPago, "1"),
    Invoice("2", "2", "Maria Oliveira", 12990, "Mensalidade Agosto 2023", 19584, Pending, Asaas, "2"),
    Invoice("3", "3", "Pedro Santos", 7990, "Mensalidade Julho 2023", 19543, Overdue, MercadoPago, "1")
  ]

  // ---- status transitions ----

  function SetStatus(status: InvoiceStatus): Invoice -> Invoice {
    (inv: Invoice) => inv.(status := status)
  }

  /** `handleMarkAsPaid(id)`. */
  function MarkAsPaid(invoices: seq<Invoice>, id: string): (r: seq<Invoice>)
    ensures |r| == |invoices|
    ensures forall i :: 0 <= i < |invoices| && invoices[i].id == id ==> r[i] == invoices[i].(status := Paid)
    ensures forall i :: 0 <= i < |invoices| && invoices[i].id != id ==> r[i] == invoices[i]
  {
    UpdateWhere(invoices, InvoiceId, id, SetStatus(Paid))
  }

  /** `handleCancelInvoice(id)`. */
  function CancelInvoice(invoices: seq<Invoice>, id: string): (r: seq<Invoice>)
    ensures |r| == |invoices|
    ensures forall i :: 0 <= i < |invoices| && invoices[i].id == id ==> r[i] == invoices[i].(status := Cancelled)
    ensures forall i :: 0 <= i < |invoices| && invoices[i].id != id ==> r[i] == invoices[i]
  {
    UpdateWhere(invoices, InvoiceId, id, SetStatus(Cancelled))
  }

  /** Both transitions are idempotent. */
  lemma TransitionsAreIdempotent(invoices: seq<Invoice>, id: string)
    ensures MarkAsPaid(MarkAsPaid(invoices, id), id) == MarkAsPaid(invoices, id)
    ensures CancelInvoice(CancelInvoice(invoices, id), id) == CancelInvoice(invoices, id)
  {
    var p, pp := MarkAsPaid(invoices, id), MarkAsPaid(MarkAsPaid(invoices, id), id);
    assert forall i :: 0 <= i < |invoices| ==> pp[i] == p[i];
    var c, cc := CancelInvoice(invoices, id), CancelInvoice(CancelInvoice(invoices, id), id);
    assert forall i :: 0 <= i < |invoices| ==> cc[i] == c[i];
  }

  /** The handlers do not look at the current status: a cancelled invoice
      can be marked paid and a paid one cancelled. */
  lemma HandlersIgnoreCurrentStatus(invoices: seq<Invoice>, i: int)
    requires 0 <= i < |invoices|
    ensures MarkAsPaid(invoices, invoices[i].id)[i].status == Paid
    ensures CancelInvoice(invoices, invoices[i].id)[i].status == Cancelled
  {
  }

  /** The row offers "mark as paid" unless the invoice is already paid. */
  predicate OffersMarkAsPaid(inv: Invoice) {
    inv.status != Paid
  }

  /** The row offers "cancel" unless the invoice is already cancelled. */
  predicate OffersCancel(inv: Invoice) {
    inv.status != Cancelled
  }

  /** An action is offered exactly when it would change the row. */
  lemma OfferedIffEffective(inv: Invoice)
    ensures OffersMarkAsPaid(inv) <==> SetStatus(Paid)(inv) != inv
    ensures OffersCancel(inv) <==> SetStatus(Cancelled)(inv) != inv
  {
  }

  // ---- delete and search ----

  /** `handleDelete(id)`. */
  function DeleteInvoice(invoices: seq<Invoice>, id: string): (r: seq<Invoice>)
    ensures forall x :: x in r <==> x in invoices && x.id != id
  {
    RemoveWhere(invoices, InvoiceId, id)
  }

  /** Deleting a unique id removes just that position, keeping the order. */
  lemma DeleteUniqueInvoice(invoices: seq<Invoice>, i: int)
    requires 0 <= i < |invoices|
    requires forall j :: 0 <= j < |invoices| && j != i ==> invoices[j].id != invoices[i].id
    ensures DeleteInvoice(invoices, invoices[i].id) == invoices[..i] + invoices[i + 1..]
  {
    RemoveUniqueAt(invoices, InvoiceId, invoices[i].id, i);
  }

  predicate InvoiceMatches(inv: Invoice, term: string) {
    IncludesIgnoringCase(inv.customerName, term) || IncludesIgnoringCase(inv.description, term)
  }

  /** `filteredInvoices`: a case-insensitive search on customer name or
      description. */
  function FilterInvoices(invoices: seq<Invoice>, term: string): (r: seq<Invoice>)
    ensures forall x :: x in r <==>
      (x in invoices && (IncludesIgnoringCase(x.customerName, term) || IncludesIgnoringCase(x.description, term)))
  {
    Filter(invoices, (inv: Invoice) => InvoiceMatches(inv, term))
  }

  /** An empty search shows every invoice. */
  lemma EmptySearchShowsAllInvoices(invoices: seq<Invoice>)
    ensures FilterInvoices(invoices, "") == invoices
  {
    var p := (inv: Invoice) => InvoiceMatches(inv, "");
    forall i | 0 <= i < |invoices| ensures p(invoices[i]) {
      EmptyTermMatches(invoices[i].customerName);
    }
    FilterKeepsAll(invoices, p);
  }

  // ---- save ----

  /** `mockInvoices.find(c => c.customerId === customerId)?.customerName || ""`:
      the name is looked up in the starting list, not in the current one. */
  function CustomerNameFor(customerId: string): (name: string)
    ensures forall i :: 0 <= i < |MockInvoices| && MockInvoices[i].customerId == customerId &&
                        (forall j :: 0 <= j < i ==> MockInvoices[j].customerId != customerId) ==>
      name == MockInvoices[i].customerName
    ensures (forall i :: 0 <= i < |MockInvoices| ==> MockInvoices[i].customerId != customerId) ==> name == ""
  {
    match FindIndex(MockInvoices, (inv: Invoice) => inv.customerId == customerId)
    case Some(i) => MockInvoices[i].customerName
    case None => ""
  }

  /** The edited invoice with the submitted fields merged in. */
  function MergeForm(inv: Invoice, data: InvoiceFormData): (r: Invoice)
    ensures r.id == inv.id && r.status == inv.status
    ensures r.customerId == data.customerId && r.amount == data.amount && r.description == data.description
    ensures r.dueDate == data.dueDate && r.paymentMethod == data.paymentMethod
    ensures r.messageTemplateId == data.messageTemplateId
    ensures r.customerName == CustomerNameFor(data.customerId)
  {
    inv.(customerId := data.customerId, amount := data.amount, description := data.description,
         dueDate := data.dueDate, paymentMethod := data.paymentMethod,
         messageTemplateId := data.messageTemplateId, customerName := CustomerNameFor(data.customerId))
  }

  /** `handleSaveInvoice(data)`; `editing` is the id of the invoice being
      edited. There is no create path: without one the list is unchanged. */
  function SaveInvoice(invoices: seq<Invoice>, editing: Option<string>, data: InvoiceFormData): (r: seq<Invoice>)
    ensures editing.None? ==> r == invoices
    ensures |r| == |invoices|
    ensures editing.Some? ==> forall i :: 0 <= i < |invoices| ==>
      r[i] == (if invoices[i].id == editing.value then MergeForm(invoices[i], data) else invoices[i])
  {
    match editing
    case None => invoices
    case Some(id) => UpdateWhere(invoices, InvoiceId, id, (inv: Invoice) => MergeForm(inv, data))
  }

  /** A customer absent from the starting list gets an empty name on save,
      even when the current list knows it. */
  lemma UnknownCustomerGetsEmptyName(invoices: seq<Invoice>, i: int, data: InvoiceFormData)
    requires 0 <= i < |invoices|
    requires forall k :: 0 <= k < |MockInvoices| ==> MockInvoices[k].customerId != data.customerId
    ensures SaveInvoice(invoices, Some(invoices[i].id), data)[i].customerName == ""
  {
  }

  /** The values the edit form is opened with for `inv`. */
  function EditFormData(inv: Invoice): (d: InvoiceFormData)
    ensures d.customerId == inv.customerId && d.amount == inv.amount && d.description == inv.description
    ensures d.dueDate == inv.dueDate && d.paymentMethod == inv.paymentMethod
    ensures d.messageTemplateId == inv.messageTemplateId
  {
    InvoiceFormData(inv.customerId, inv.amount, inv.description, inv.dueDate,
                    inv.paymentMethod, inv.messageTemplateId)
  }

  /** Opening an invoice for edit and saving it untouched changes nothing,
      as long as its id is unique and its customer name is the one the
      starting list gives its customer. */
  lemma UntouchedInvoiceEditIsIdentity(invoices: seq<Invoice>, i: int)
    requires 0 <= i < |invoices|
    requires forall j :: 0 <= j < |invoices| && invoices[j].id == invoices[i].id ==> j == i
    requires invoices[i].customerName == CustomerNameFor(invoices[i].customerId)
    ensures SaveInvoice(invoices, Some(invoices[i].id), EditFormData(invoices[i])) == invoices
  {
    var inv := invoices[i];
    assert MergeForm(inv, EditFormData(inv)) == inv;
    var r := SaveInvoice(invoices, Some(inv.id), EditFormData(inv));
    assert forall j :: 0 <= j < |invoices| ==> r[j] == invoices[j];
  }

  /** Renaming is the one visible effect: an untouched save gives an
      invoice whose customer is unknown to the starting list an empty
      name. */
  lemma UntouchedEditClearsUnknownName(invoices: seq<Invoice>, i: int)
    requires 0 <= i < |invoices|
    requires forall k :: 0 <= k < |MockInvoices| ==> MockInvoices[k].customerId != invoices[i].customerId
    requires invoices[i].customerName != ""
    ensures SaveInvoice(invoices, Some(invoices[i].id), EditFormData(invoices[i])) != invoices
  {
    var r := SaveInvoice(invoices, Some(invoices[i].id), EditFormData(invoices[i]));
    assert r[i].customerName == "";
  }

  // ---- status badge ----

  datatype BadgeVariant = SuccessBadge | DefaultBadge | DestructiveBadge | OutlineBadge

  datatype Badge = Badge(text: string, variant: BadgeVariant)

  /** The status as stored: "pending", "paid", "overdue" or "cancelled". */
  function StatusName(s: InvoiceStatus): string {
    match s
    case Pending => "pending"
    case Paid => "paid"
    case Overdue => "overdue"
    case Cancelled => "cancelled"
  }

  /** `getStatusBadge(status)`: `None` for a value outside the four. */
  function StatusBadge(status: string): (b: Option<Badge>)
    ensures b.Some? <==> exists s: InvoiceStatus :: StatusName(s) == status
    ensures status == "paid" ==> b == Some(Badge("Pago", SuccessBadge))
    ensures status == "pending" ==> b == Some(Badge("Pendente", DefaultBadge))
    ensures status == "overdue" ==> b == Some(Badge("Atrasado", DestructiveBadge))
    ensures status == "cancelled" ==> b == Some(Badge("Cancelado", OutlineBadge))
  {
    assert StatusName(Pending) == "pending" && StatusName(Paid) == "paid";
    assert StatusName(Overdue) == "overdue" && StatusName(Cancelled) == "cancelled";
    if status == "paid" then Some(Badge("Pago", SuccessBadge))
    else if status == "pending" then Some(Badge("Pendente", DefaultBadge))
    else if status == "overdue" then Some(Badge("Atrasado", DestructiveBadge))
    else if status == "cancelled" then Some(Badge("Cancelado", OutlineBadge))
    else None
  }

  /** Every status has a badge, and different statuses look different. */
  lemma BadgesAreDistinct(s: InvoiceStatus, t: InvoiceStatus)
    ensures StatusBadge(StatusName(s)).Some?
    ensures s != t ==> StatusBadge(StatusName(s)) != StatusBadge(StatusName(t))
  {
  }
}
