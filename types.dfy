/** The entry model: the receipt status, the ledger entry with its two derived
    amounts, the draft an entry is created from, and the financial summary. */
module Types {
  import opened Wrappers

  /** The closed set of statuses a receipt can be in. */
  datatype ReceiptStatus = Paid | Pending | Cancelled

  /** The text value of each status, as stored and as offered by the form's select box. */
  function StatusName(s: ReceiptStatus): (name: string)
    ensures name != ""
  {
    match s
    case Paid => "Paid"
    case Pending => "Pending"
    case Cancelled => "Cancelled"
  }

  /** The status whose text value is `name`, if any. */
  function ParseStatus(name: string): (r: Option<ReceiptStatus>)
    ensures r.Some? ==> StatusName(r.value) == name
    ensures forall s :: name == StatusName(s) ==> r == Some(s)
  {
    if name == "Paid" then Some(Paid)
    else if name == "Pending" then Some(Pending)
    else if name == "Cancelled" then Some(Cancelled)
    else None
  }

  /** Every status is one of the three named ones, so a three-way case split is exhaustive,
      and the three text values are pairwise distinct. */
  lemma StatusIsClosed(s: ReceiptStatus)
    ensures s == Paid || s == Pending || s == Cancelled
    ensures ParseStatus(StatusName(s)) == Some(s)
  {
  }

  /** One ledger record. Money is held in minor currency units. */
  datatype ReceiptEntry = ReceiptEntry(
    id: string,
    date: string,
    receiptNo: string,
    name: string,
    itemDescription: string,
    customerRequest: string,
    quantity: int,
    price: int,
    discount: int,
    amount: int,
    totalAmount: int,
    status: ReceiptStatus)

  /** The user-supplied part of an entry: everything except the id, the receipt
      number and the two derived amounts. The entry form edits exactly this record. */
  datatype EntryDraft = EntryDraft(
    date: string,
    name: string,
    itemDescription: string,
    customerRequest: string,
    quantity: int,
    price: int,
    discount: int,
    status: ReceiptStatus)

  /** The derived fields agree with their formulas: `amount` is quantity times price
      and `totalAmount` is `amount` less the discount. */
  ghost predicate WellDerived(e: ReceiptEntry)
  {
    e.amount == e.quantity * e.price && e.totalAmount == e.amount - e.discount
  }

  /** The draft fields of an entry. */
  function DraftOf(e: ReceiptEntry): EntryDraft
  {
    EntryDraft(e.date, e.name, e.itemDescription, e.customerRequest,
               e.quantity, e.price, e.discount, e.status)
  }

  /** Totals and counts per status; exactly one amount and one count for each status. */
  datatype FinancialSummary = FinancialSummary(
    totalRevenue: int,
    pendingAmount: int,
    cancelledAmount: int,
    paidCount: nat,
    pendingCount: nat,
    cancelledCount: nat)
  {
    /** The amount field that belongs to status `s`. */
    function AmountFor(s: ReceiptStatus): int
    {
      match s
      case Paid => totalRevenue
      case Pending => pendingAmount
      case Cancelled => cancelledAmount
    }

    /** The count field that belongs to status `s`. */
    function CountFor(s: ReceiptStatus): nat
    {
      match s
      case Paid => paidCount
      case Pending => pendingCount
      case Cancelled => cancelledCount
    }
  }

  /** A summary is determined by its per-status amounts and counts: two summaries that agree
      on every status are equal, so no field lies outside the three statuses. */
  lemma SummaryDeterminedByStatus(a: FinancialSummary, b: FinancialSummary)
    requires forall s :: a.AmountFor(s) == b.AmountFor(s) && a.CountFor(s) == b.CountFor(s)
    ensures a == b
  {
    assert a.AmountFor(Paid) == b.AmountFor(Paid) && a.CountFor(Paid) == b.CountFor(Paid);
    assert a.AmountFor(Pending) == b.AmountFor(Pending) && a.CountFor(Pending) == b.CountFor(Pending);
    assert a.AmountFor(Cancelled) == b.AmountFor(Cancelled) && a.CountFor(Cancelled) == b.CountFor(Cancelled);
  }
}
