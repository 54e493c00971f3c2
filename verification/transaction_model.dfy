/**
 The transaction schema: a sale or purchase with optional counterparties,
 line items that each name a product, a required total and owning business,
 and a date. The ledger is the transaction collection in insertion order.
 */
module TransactionModel {
  import opened Js
  import opened Ids

  datatype TxType = Sale | Purchase

  function TxTypeName(t: TxType): string {
    match t
    case Sale => "sale"
    case Purchase => "purchase"
  }

  /** The `enum: ["sale", "purchase"]` constraint on the `type` field. */
  function ParseTxType(s: string): (r: Option<TxType>)
    ensures r.Some? ==> TxTypeName(r.value) == s
    ensures r.None? ==> s != TxTypeName(Sale) && s != TxTypeName(Purchase)
  {
    if s == "sale" then Some(Sale)
    else if s == "purchase" then Some(Purchase)
    else None
  }

  /** Every type name parses back to its type. */
  lemma ParseTxTypeName(t: TxType)
    ensures ParseTxType(TxTypeName(t)) == Some(t)
  {
  }

  /** A line item as the caller sends it: the product reference may be missing.
      Quantity and price are plain numbers with no sign constraint. */
  datatype LineRequest = LineRequest(productId: Option<ProductId>, quantity: int, price: int)

  /** A stored line item: the product reference is required. */
  datatype LineItem = LineItem(productId: ProductId, quantity: int, price: int)

  /** A stored transaction. Customer and vendor are both optional and
      independent of the type. */
  datatype Transaction = Transaction(
    ttype: TxType,
    customerId: Option<ContactId>,
    vendorId: Option<ContactId>,
    products: seq<LineItem>,
    totalAmount: int,
    date: int,
    businessId: BusinessId)

  /** The transaction collection in insertion order. */
  type Ledger = seq<Transaction>

  /** A transaction document as constructed, before the save validates it. */
  datatype TransactionDraft = TransactionDraft(
    ttype: string,
    customerId: Option<ContactId>,
    vendorId: Option<ContactId>,
    products: seq<LineRequest>,
    totalAmount: int,
    date: int,
    businessId: BusinessId)

  predicate AllIdentified(lines: seq<LineRequest>) {
    forall i :: 0 <= i < |lines| ==> lines[i].productId.Some?
  }

  /** The line items stored for identified request lines: reading them back
      as request lines gives exactly the lines sent. */
  function StoredLines(lines: seq<LineRequest>): (r: seq<LineItem>)
    requires AllIdentified(lines)
    ensures |r| == |lines| && RequestLines(r) == lines
    ensures forall i :: 0 <= i < |lines| ==>
      r[i] == LineItem(lines[i].productId.value, lines[i].quantity, lines[i].price)
  {
    var r := seq(|lines|, i requires 0 <= i < |lines| =>
      LineItem(lines[i].productId.value, lines[i].quantity, lines[i].price));
    assert RequestLines(r) == lines;
    r
  }

  function RequestLines(items: seq<LineItem>): seq<LineRequest> {
    seq(|items|, i requires 0 <= i < |items| =>
      LineRequest(Some(items[i].productId), items[i].quantity, items[i].price))
  }

  function DraftOf(t: Transaction): TransactionDraft {
    TransactionDraft(TxTypeName(t.ttype), t.customerId, t.vendorId,
      RequestLines(t.products), t.totalAmount, t.date, t.businessId)
  }

  /** Schema validation on save: the type must be one of the enum values and
      every line must name a product; nothing else is checked. The accepted
      transaction keeps every field of the draft. */
  function Validate(d: TransactionDraft): (r: Option<Transaction>)
    ensures r.Some? <==> d.ttype in {"sale", "purchase"} && AllIdentified(d.products)
    ensures r.Some? ==> DraftOf(r.value) == d
  {
    match ParseTxType(d.ttype)
    case None => None
    case Some(t) =>
      if AllIdentified(d.products) then
        var items := StoredLines(d.products);
        Some(Transaction(t, d.customerId, d.vendorId, items, d.totalAmount, d.date, d.businessId))
      else
        None
  }

  /** Every stored transaction passes validation unchanged, whatever its
      quantities, prices, total and counterparties. */
  lemma ValidateStored(t: Transaction)
    ensures Validate(DraftOf(t)) == Some(t)
  {
    ParseTxTypeName(t.ttype);
    assert StoredLines(RequestLines(t.products)) == t.products;
  }

  /** The filter `{ businessId }` every ledger query starts from. */
  function BelongsTo(business: BusinessId): Transaction -> bool {
    (t: Transaction) => t.businessId == business
  }

  /** The ledger entries a query selects, in ledger order. */
  function Select(ledger: Ledger, keep: Transaction -> bool): (r: Ledger)
    ensures |r| <= |ledger|
    ensures forall t :: t in r <==> t in ledger && keep(t)
  {
    if |ledger| == 0 then []
    else
      var rest := Select(ledger[1..], keep);
      assert forall t :: t in ledger <==> t == ledger[0] || t in ledger[1..];
      if keep(ledger[0]) then [ledger[0]] + rest else rest
  }

  /** Selecting from a ledger with one more entry at the end adds that entry
      at the end of the result exactly when it is selected. */
  lemma {:induction false} SelectAppend(ledger: Ledger, t: Transaction, keep: Transaction -> bool)
    ensures Select(ledger + [t], keep) == Select(ledger, keep) + (if keep(t) then [t] else [])
  {
    if |ledger| > 0 {
      assert (ledger + [t])[1..] == ledger[1..] + [t];
      SelectAppend(ledger[1..], t, keep);
    }
  }
}
