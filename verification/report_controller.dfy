/**
 The two reports: the inventory of a business, projected to the fields a
 report shows, and its transactions filtered by an optional date range and
 an optional type. Dates are whole numbers (instants on a time line).
 */
module ReportController {
  import opened Js
  import opened Ids
  import opened ProductModel
  import opened TransactionModel
  import ProductController
  import TransactionController

  /** One row of the inventory report: `select("name stock category price")`. */
  datatype InventoryRow = InventoryRow(name: string, stock: int, category: string, price: int)

  function RowOf(p: Product): InventoryRow {
    InventoryRow(p.name, p.stock, p.category, p.price)
  }

  /** `getInventoryReport`: every product of the business, keyed by id and
      projected to its report row. */
  function GetInventoryReport(store: ProductStore, business: BusinessId): (r: map<ProductId, InventoryRow>)
    ensures forall id :: id in r <==> OwnedBy(store, id, business)
    ensures forall id :: id in r ==>
      && id in store
      && r[id].name == store[id].name && r[id].stock == store[id].stock
      && r[id].category == store[id].category && r[id].price == store[id].price
  {
    map id | id in store && store[id].businessId == business :: RowOf(store[id])
  }

  /** The inventory report shows the same products as the unfiltered product
      listing of the business, each projected to its row. */
  lemma InventoryIsListing(store: ProductStore, business: BusinessId,
                           matches: (string, string) -> bool)
    ensures var listing := ProductController.GetProducts(store, business, None, None, matches);
      && GetInventoryReport(store, business).Keys == listing.Keys
      && forall id :: id in listing ==> GetInventoryReport(store, business)[id] == RowOf(listing[id])
  {
  }

  /** After a recorded transaction, each row of the inventory report moves
      by the signed summed quantity of the lines naming that product, and
      nothing else in the report changes. */
  lemma InventoryAfterTransaction(store: ProductStore, ledger: Ledger, business: BusinessId,
                                  now: int, req: TransactionController.TransactionRequest,
                                  owner: BusinessId)
    requires TransactionController.CreateTransaction(store, ledger, business, now, req).reply.Recorded?
    ensures var o := TransactionController.CreateTransaction(store, ledger, business, now, req);
      var before, after := GetInventoryReport(store, owner), GetInventoryReport(o.products, owner);
      && after.Keys == before.Keys
      && forall id :: id in before ==>
        after[id] == before[id].(stock := before[id].stock
          + TransactionController.StockChange(o.reply.transaction.ttype,
              TransactionController.QuantityOf(o.reply.transaction.products, id)))
  {
    TransactionController.CreateTransactionStock(store, ledger, business, now, req);
  }

  /** The date condition the handler builds from the two optional bounds. */
  datatype DateFilter = AnyDate | From(start: int) | Until(end: int) | Between(start: int, end: int)

  /** `if (startDate && endDate) … else if (startDate) … else if (endDate) …`;
      an absent or empty bound is `None`. The three branches amount to two
      independent optional bounds, each inclusive. */
  function DateQuery(startDate: Option<int>, endDate: Option<int>): (f: DateFilter)
    ensures forall date :: InDates(f, date) <==>
      (startDate.Some? ==> startDate.value <= date) && (endDate.Some? ==> date <= endDate.value)
  {
    if startDate.Some? && endDate.Some? then Between(startDate.value, endDate.value)
    else if startDate.Some? then From(startDate.value)
    else if endDate.Some? then Until(endDate.value)
    else AnyDate
  }

  /** `$gte` and `$lte`: both bounds are inclusive. */
  predicate InDates(f: DateFilter, date: int) {
    match f
    case AnyDate => true
    case From(s) => s <= date
    case Until(e) => date <= e
    case Between(s, e) => s <= date <= e
  }

  datatype ReportQuery = ReportQuery(startDate: Option<int>, endDate: Option<int>, ttype: Option<string>)

  /** The whole query: the business, the date condition, and `type` when it
      is a non-empty string. */
  function ReportFilter(q: ReportQuery, business: BusinessId): Transaction -> bool {
    (t: Transaction) =>
      && t.businessId == business
      && InDates(DateQuery(q.startDate, q.endDate), t.date)
      && (TruthyStr(q.ttype) ==> TxTypeName(t.ttype) == q.ttype.value)
  }

  /** `getTransactionsReport`: the ledger entries of the business within the
      bounds and of the requested type, in ledger order. */
  function GetTransactionsReport(ledger: Ledger, business: BusinessId, q: ReportQuery): (r: Ledger)
    ensures forall t :: t in r <==>
      && t in ledger
      && t.businessId == business
      && (q.startDate.Some? ==> q.startDate.value <= t.date)
      && (q.endDate.Some? ==> t.date <= q.endDate.value)
      && (TruthyStr(q.ttype) ==> TxTypeName(t.ttype) == q.ttype.value)
  {
    Select(ledger, ReportFilter(q, business))
  }

  /** The report never shows more than the plain listing of the business. */
  lemma ReportWithinListing(ledger: Ledger, business: BusinessId, q: ReportQuery)
    ensures forall t :: t in GetTransactionsReport(ledger, business, q) ==>
      t in Select(ledger, BelongsTo(business))
  {
  }

  /** With no bounds and no type, the report is the plain listing of the
      business, entry for entry and in the same order. */
  lemma {:induction false} UnfilteredReportIsListing(ledger: Ledger, business: BusinessId)
    ensures GetTransactionsReport(ledger, business, ReportQuery(None, None, None))
      == Select(ledger, BelongsTo(business))
  {
    if |ledger| > 0 {
      UnfilteredReportIsListing(ledger[1..], business);
    }
  }
}
