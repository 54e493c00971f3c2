/**
 Recording a sale or purchase and listing a business's transactions.

 Recording follows the handler's sequential steps: sum the total, check
 every line of a sale against the stock as it is before the transaction,
 save the ledger entry, then adjust the stock of each line's product in
 turn. The product lookups are by id alone, with no business scope; each
 line is checked on its own, so lines repeating a product can together
 take more than is in stock; and nothing is undone when a later step fails.
 */
module TransactionController {
  import opened Js
  import opened Ids
  import opened ProductModel
  import opened TransactionModel

  /** The request body; the date and owning business come from the server. */
  datatype TransactionRequest = TransactionRequest(
    ttype: string,
    customerId: Option<ContactId>,
    vendorId: Option<ContactId>,
    products: seq<LineRequest>)

  /** `products.reduce((sum, item) => sum + item.quantity * item.price, 0)`:
      a fold from the left, starting at zero. */
  function Total(lines: seq<LineRequest>): (r: int)
    ensures |lines| == 0 ==> r == 0
  {
    if |lines| == 0 then 0
    else Total(lines[..|lines| - 1]) + lines[|lines| - 1].quantity * lines[|lines| - 1].price
  }

  /** The sum over the lines, taken from the front. */
  function LineSum(lines: seq<LineRequest>): int {
    if |lines| == 0 then 0 else lines[0].quantity * lines[0].price + LineSum(lines[1..])
  }

  /** The total is additive over a split of the line list. */
  lemma {:induction false} TotalAppend(a: seq<LineRequest>, b: seq<LineRequest>)
    ensures Total(a + b) == Total(a) + Total(b)
    decreases |b|
  {
    if |b| > 0 {
      assert (a + b)[..|a + b| - 1] == a + b[..|b| - 1];
      TotalAppend(a, b[..|b| - 1]);
    } else {
      assert a + b == a;
    }
  }

  /** The fold from the left equals the sum of quantity times price taken
      from the front: the order of summation does not matter. */
  lemma {:induction false} TotalIsLineSum(lines: seq<LineRequest>)
    ensures Total(lines) == LineSum(lines)
  {
    if |lines| > 0 {
      TotalAppend([lines[0]], lines[1..]);
      assert [lines[0]] + lines[1..] == lines;
      assert Total([lines[0]]) == lines[0].quantity * lines[0].price by {
        assert [lines[0]][..0] == [];
      }
      TotalIsLineSum(lines[1..]);
    }
  }

  /** `Product.findById(item.productId)` finds a product: any business's. */
  predicate Resolves(store: ProductStore, line: LineRequest) {
    line.productId.Some? && line.productId.value in store
  }

  /** A sale line passes the check: its product exists and has at least the
      line's quantity in stock. */
  predicate LinePasses(store: ProductStore, line: LineRequest) {
    Resolves(store, line) && store[line.productId.value].stock >= line.quantity
  }

  datatype SaleVerdict = StockOk | Missing(index: nat) | Short(index: nat)

  /** The validation loop of a sale, from line `i` on: it stops at the first
      line whose product is missing or short of stock. */
  function CheckFrom(store: ProductStore, lines: seq<LineRequest>, i: nat): (v: SaleVerdict)
    requires i <= |lines|
    ensures v.StockOk? <==> forall j :: i <= j < |lines| ==> LinePasses(store, lines[j])
    ensures v.Missing? ==> i <= v.index < |lines| && !Resolves(store, lines[v.index])
    ensures v.Short? ==>
      && i <= v.index < |lines| && Resolves(store, lines[v.index])
      && store[lines[v.index].productId.value].stock < lines[v.index].quantity
    ensures !v.StockOk? ==> forall j :: i <= j < v.index ==> LinePasses(store, lines[j])
    decreases |lines| - i
  {
    if i == |lines| then StockOk
    else if !Resolves(store, lines[i]) then Missing(i)
    else if store[lines[i].productId.value].stock < lines[i].quantity then Short(i)
    else CheckFrom(store, lines, i + 1)
  }

  /** `+quantity` for a purchase, `-quantity` for a sale. */
  function StockChange(t: TxType, quantity: int): int {
    if t == Purchase then quantity else -quantity
  }

  /** The total quantity the lines give for one product. */
  function QuantityOf(lines: seq<LineItem>, id: ProductId): int {
    if |lines| == 0 then 0
    else (if lines[0].productId == id then lines[0].quantity else 0) + QuantityOf(lines[1..], id)
  }

  /** A product no line names gets a zero total quantity. */
  lemma {:induction false} QuantityOfUnreferenced(lines: seq<LineItem>, id: ProductId)
    requires forall j :: 0 <= j < |lines| ==> lines[j].productId != id
    ensures QuantityOf(lines, id) == 0
  {
    if |lines| > 0 {
      QuantityOfUnreferenced(lines[1..], id);
    }
  }

  /** A product named by exactly one line gets that line's quantity. */
  lemma {:induction false} QuantityOfSingle(lines: seq<LineItem>, k: nat)
    requires k < |lines|
    requires forall j :: 0 <= j < |lines| && j != k ==> lines[j].productId != lines[k].productId
    ensures QuantityOf(lines, lines[k].productId) == lines[k].quantity
  {
    if k == 0 {
      QuantityOfUnreferenced(lines[1..], lines[0].productId);
    } else {
      QuantityOfSingle(lines[1..], k - 1);
    }
  }

  /** How far the stock-update loop got: the store after it, and the line
      whose product it could not find, if any. */
  datatype StockRun = StockRun(store: ProductStore, failedAt: Option<nat>)

  function Processed(run: StockRun, n: nat): nat {
    if run.failedAt.Some? && run.failedAt.value < n then run.failedAt.value else n
  }

  /** The stock-update loop: for each line in order, fetch the product again
      and add the change to its current stock. A missing product makes the
      loop throw; the lines before it stay applied. No product is added or
      removed. */
  function ApplyStock(store: ProductStore, lines: seq<LineItem>, t: TxType): (run: StockRun)
    ensures run.store.Keys == store.Keys
    ensures run.failedAt.Some? ==> run.failedAt.value < |lines|
    decreases |lines|
  {
    if |lines| == 0 then
      StockRun(store, None)
    else if lines[0].productId !in store then
      StockRun(store, Some(0))
    else
      var pid := lines[0].productId;
      var p := store[pid];
      var next := store[pid := p.(stock := p.stock + StockChange(t, lines[0].quantity))];
      var rest := ApplyStock(next, lines[1..], t);
      StockRun(rest.store, if rest.failedAt.Some? then Some(rest.failedAt.value + 1) else None)
  }

  /** The loop completes exactly when every line's product exists, and
      otherwise stops at the first line whose product is missing. */
  lemma ApplyStockFailure(store: ProductStore, lines: seq<LineItem>, t: TxType)
    ensures var run := ApplyStock(store, lines, t);
      run.failedAt.None? ==> forall j :: 0 <= j < |lines| ==> lines[j].productId in store
    ensures var run := ApplyStock(store, lines, t);
      run.failedAt.Some? ==>
        && lines[run.failedAt.value].productId !in store
        && forall j :: 0 <= j < run.failedAt.value ==> lines[j].productId in store
  {
    var run := ApplyStock(store, lines, t);
    forall j | 0 <= j < Processed(run, |lines|) ensures lines[j].productId in store {
      ApplyStockReaches(store, lines, t, j);
    }
    if run.failedAt.Some? {
      ApplyStockStops(store, lines, t);
    }
  }

  /** Every line before the point where the loop stops names a product. */
  lemma {:induction false} ApplyStockReaches(store: ProductStore, lines: seq<LineItem>, t: TxType, j: nat)
    requires j < Processed(ApplyStock(store, lines, t), |lines|)
    ensures lines[j].productId in store
    decreases |lines|
  {
    if j > 0 {
      var pid := lines[0].productId;
      var p := store[pid];
      var next := store[pid := p.(stock := p.stock + StockChange(t, lines[0].quantity))];
      ApplyStockReaches(next, lines[1..], t, j - 1);
    }
  }

  /** The line at which the loop stops names no product. */
  lemma {:induction false} ApplyStockStops(store: ProductStore, lines: seq<LineItem>, t: TxType)
    requires ApplyStock(store, lines, t).failedAt.Some?
    ensures lines[ApplyStock(store, lines, t).failedAt.value].productId !in store
    decreases |lines|
  {
    if lines[0].productId in store {
      var pid := lines[0].productId;
      var p := store[pid];
      var next := store[pid := p.(stock := p.stock + StockChange(t, lines[0].quantity))];
      ApplyStockStops(next, lines[1..], t);
    }
  }

  /** Every product keeps its other fields, and its stock moves by the summed
      change of the lines the loop got through; repeated lines for one
      product add up. */
  lemma {:induction false} ApplyStockEffect(store: ProductStore, lines: seq<LineItem>, t: TxType, id: ProductId)
    requires id in store
    ensures var run := ApplyStock(store, lines, t);
      run.store[id] == store[id].(stock := store[id].stock
        + StockChange(t, QuantityOf(lines[..Processed(run, |lines|)], id)))
    decreases |lines|
  {
    var run := ApplyStock(store, lines, t);
    if |lines| == 0 {
    } else if lines[0].productId !in store {
      assert lines[..Processed(run, |lines|)] == [];
    } else {
      var pid := lines[0].productId;
      var p := store[pid];
      var next := store[pid := p.(stock := p.stock + StockChange(t, lines[0].quantity))];
      var rest := ApplyStock(next, lines[1..], t);
      ApplyStockEffect(next, lines[1..], t, id);
      var k := Processed(rest, |lines| - 1);
      assert run.store == rest.store && Processed(run, |lines|) == k + 1;
      QuantityOfPrefix(lines, k, id);
      var d := if pid == id then lines[0].quantity else 0;
      assert next[id] == store[id].(stock := store[id].stock + StockChange(t, d));
    }
  }

  /** The quantity of the first `k + 1` lines is the first line's share plus
      that of the next `k`. */
  lemma QuantityOfPrefix(lines: seq<LineItem>, k: nat, id: ProductId)
    requires k < |lines|
    ensures QuantityOf(lines[..k + 1], id)
      == (if lines[0].productId == id then lines[0].quantity else 0) + QuantityOf(lines[1..][..k], id)
  {
    assert lines[..k + 1][1..] == lines[1..][..k];
  }

  /** When every line's product is found, each product's stock moves by the
      summed change of all the lines naming it. */
  lemma ApplyStockComplete(store: ProductStore, lines: seq<LineItem>, t: TxType)
    requires forall j :: 0 <= j < |lines| ==> lines[j].productId in store
    ensures ApplyStock(store, lines, t).failedAt.None?
    ensures var run := ApplyStock(store, lines, t);
      forall id :: id in store ==>
        run.store[id] == store[id].(stock := store[id].stock + StockChange(t, QuantityOf(lines, id)))
  {
    var run := ApplyStock(store, lines, t);
    ApplyStockFailure(store, lines, t);
    forall id | id in store
      ensures run.store[id] == store[id].(stock := store[id].stock + StockChange(t, QuantityOf(lines, id)))
    {
      ApplyStockEffect(store, lines, t, id);
      assert lines[..|lines|] == lines;
    }
  }

  datatype TxReply =
    /** 201: saved and every stock adjusted. */
    | Recorded(transaction: Transaction)
    /** 404 for a sale line whose product is not found. */
    | ProductNotFound(index: nat, productId: Option<ProductId>)
    /** 400 for a sale line asking for more than the product's stock. */
    | InsufficientStock(index: nat, productName: string)
    /** 500: the save failed validation; nothing is written. */
    | Rejected
    /** 500 after the save: a line's product is missing, so the ledger entry
        and the stock changes of the lines before it stay in place. */
    | RecordedThenFailed(transaction: Transaction, index: nat)
    /** 500: the body has no `products` array; nothing is written. */
    | NoProducts

  function StatusCode(r: TxReply): int {
    match r
    case Recorded(_) => 201
    case ProductNotFound(_, _) => 404
    case InsufficientStock(_, _) => 400
    case Rejected => 500
    case RecordedThenFailed(_, _) => 500
    case NoProducts => 500
  }

  datatype TxOutcome = TxOutcome(products: ProductStore, ledger: Ledger, reply: TxReply)

  /** The draft `new Transaction({...})` builds from the request: the
      request's fields, the sum of quantity times price over its lines, the
      server's date and the caller's business. */
  function DraftFor(req: TransactionRequest, business: BusinessId, now: int): (d: TransactionDraft)
    ensures d.ttype == req.ttype && d.customerId == req.customerId && d.vendorId == req.vendorId
    ensures d.products == req.products && d.totalAmount == LineSum(req.products)
    ensures d.date == now && d.businessId == business
  {
    TotalIsLineSum(req.products);
    TransactionDraft(req.ttype, req.customerId, req.vendorId, req.products,
      Total(req.products), now, business)
  }

  /** The steps after a successful validation: append the entry, then run
      the stock loop over its lines. */
  function Commit(store: ProductStore, ledger: Ledger, t: Transaction): (o: TxOutcome)
    ensures o.ledger == ledger + [t]
    ensures o.reply.Recorded? || o.reply.RecordedThenFailed?
    ensures o.reply.transaction == t
    ensures o.reply.Recorded? ==>
      && (forall j :: 0 <= j < |t.products| ==> t.products[j].productId in store)
      && o.products.Keys == store.Keys
      && forall id :: id in store ==>
        o.products[id] == store[id].(stock := store[id].stock + StockChange(t.ttype, QuantityOf(t.products, id)))
    ensures o.reply.RecordedThenFailed? ==>
      && o.reply.index < |t.products| && t.products[o.reply.index].productId !in store
      && (forall j :: 0 <= j < o.reply.index ==> t.products[j].productId in store)
      && o.products.Keys == store.Keys
      && forall id :: id in store ==>
        o.products[id] == store[id].(stock := store[id].stock
          + StockChange(t.ttype, QuantityOf(t.products[..o.reply.index], id)))
  {
    var run := ApplyStock(store, t.products, t.ttype);
    ApplyStockFailure(store, t.products, t.ttype);
    match run.failedAt
    case None =>
      ApplyStockComplete(store, t.products, t.ttype);
      TxOutcome(run.store, ledger + [t], Recorded(t))
    case Some(i) =>
      forall id | id in store
        ensures run.store[id] == store[id].(stock := store[id].stock
          + StockChange(t.ttype, QuantityOf(t.products[..i], id)))
      {
        ApplyStockEffect(store, t.products, t.ttype, id);
      }
      TxOutcome(run.store, ledger + [t], RecordedThenFailed(t, i))
  }

  /** A transaction accepted from a draft stores the draft's lines. */
  lemma AcceptedLines(d: TransactionDraft, t: Transaction)
    requires Validate(d) == Some(t)
    ensures AllIdentified(d.products) && t.products == StoredLines(d.products)
  {
    assert DraftOf(t).products == d.products;
    assert forall j :: 0 <= j < |t.products| ==>
      RequestLines(t.products)[j] == LineRequest(Some(t.products[j].productId), t.products[j].quantity, t.products[j].price);
  }

  /** `createTransaction`, as the sequence of steps the handler performs. */
  function CreateTransaction(store: ProductStore, ledger: Ledger, business: BusinessId,
                             now: int, req: TransactionRequest): (o: TxOutcome)
    // a sale is refused at its first bad line, with nothing written
    ensures o.reply.ProductNotFound? ==>
      && req.ttype == "sale"
      && o.reply.index < |req.products| && !Resolves(store, req.products[o.reply.index])
      && o.reply.productId == req.products[o.reply.index].productId
    ensures o.reply.InsufficientStock? ==>
      && req.ttype == "sale"
      && o.reply.index < |req.products|
      && Resolves(store, req.products[o.reply.index])
      && store[req.products[o.reply.index].productId.value].stock < req.products[o.reply.index].quantity
      && o.reply.productName == store[req.products[o.reply.index].productId.value].name
    ensures (o.reply.ProductNotFound? || o.reply.InsufficientStock?) ==>
      forall j :: 0 <= j < o.reply.index ==> LinePasses(store, req.products[j])
    ensures req.ttype == "sale" && (exists j :: 0 <= j < |req.products| && !LinePasses(store, req.products[j]))
      ==> o.reply.ProductNotFound? || o.reply.InsufficientStock?
    // a request the schema refuses writes nothing
    ensures o.reply.Rejected? ==> !(req.ttype in {"sale", "purchase"} && AllIdentified(req.products))
    ensures (o.reply.ProductNotFound? || o.reply.InsufficientStock? || o.reply.Rejected?) ==>
      o.products == store && o.ledger == ledger
    // a request that reaches this handler always has its lines
    ensures !o.reply.NoProducts?
    // otherwise exactly one entry is appended, carrying the request and the total
    ensures (o.reply.Recorded? || o.reply.RecordedThenFailed?) ==>
      && o.ledger == ledger + [o.reply.transaction]
      && DraftOf(o.reply.transaction) == DraftFor(req, business, now)
  {
    var lines := req.products;
    var verdict := if req.ttype == "sale" then CheckFrom(store, lines, 0) else StockOk;
    match verdict
    case Missing(i) => TxOutcome(store, ledger, ProductNotFound(i, lines[i].productId))
    case Short(i) =>
      TxOutcome(store, ledger, InsufficientStock(i, store[lines[i].productId.value].name))
    case StockOk =>
      match Validate(DraftFor(req, business, now))
      case None => TxOutcome(store, ledger, Rejected)
      case Some(t) =>
        AcceptedLines(DraftFor(req, business, now), t);
        Commit(store, ledger, t)
  }

  /** The stock side of a successful `createTransaction`: every line's
      product existed, no product was added or removed, and each product's
      stock moved by the signed sum of its lines' quantities. */
  lemma CreateTransactionStock(store: ProductStore, ledger: Ledger, business: BusinessId,
                               now: int, req: TransactionRequest)
    ensures var o := CreateTransaction(store, ledger, business, now, req);
      o.reply.Recorded? ==>
        && (forall j :: 0 <= j < |req.products| ==> Resolves(store, req.products[j]))
        && o.products.Keys == store.Keys
        && forall id :: id in store ==>
          o.products[id] == store[id].(stock := store[id].stock
            + StockChange(o.reply.transaction.ttype, QuantityOf(o.reply.transaction.products, id)))
  {
    var o := CreateTransaction(store, ledger, business, now, req);
    if o.reply.Recorded? {
      var d := DraftFor(req, business, now);
      var t := Validate(d).value;
      AcceptedLines(d, t);
      assert o == Commit(store, ledger, t);
    }
  }

  /** A failure after the save happens only for a purchase, at the first
      line whose product does not exist; the lines before it keep their
      stock increases and nothing is undone. */
  lemma CreateTransactionPartial(store: ProductStore, ledger: Ledger, business: BusinessId,
                                 now: int, req: TransactionRequest)
    ensures var o := CreateTransaction(store, ledger, business, now, req);
      o.reply.RecordedThenFailed? ==>
        && req.ttype == "purchase"
        && o.reply.index < |req.products| && !Resolves(store, req.products[o.reply.index])
        && (forall j :: 0 <= j < o.reply.index ==> Resolves(store, req.products[j]))
        && o.products.Keys == store.Keys
        && forall id :: id in store ==>
          o.products[id] == store[id].(stock := store[id].stock
            + QuantityOf(o.reply.transaction.products[..o.reply.index], id))
  {
    var o := CreateTransaction(store, ledger, business, now, req);
    if o.reply.RecordedThenFailed? {
      var d := DraftFor(req, business, now);
      var t := Validate(d).value;
      AcceptedLines(d, t);
      assert o == Commit(store, ledger, t);
    }
  }

  /** The request body as it arrives: `products` may be missing. */
  datatype TransactionBody = TransactionBody(
    ttype: string,
    customerId: Option<ContactId>,
    vendorId: Option<ContactId>,
    products: Option<seq<LineRequest>>)

  /** The handler on a raw body: without a `products` array the total's
      `reduce` throws before anything is read or written, and the reply is
      500; otherwise the request proceeds as above. */
  function CreateTransactionFromBody(store: ProductStore, ledger: Ledger, business: BusinessId,
                                     now: int, body: TransactionBody): (o: TxOutcome)
    ensures o.reply.NoProducts? <==> body.products.None?
    ensures o.reply.NoProducts? ==> o.products == store && o.ledger == ledger
    ensures body.products.Some? ==> o == CreateTransaction(store, ledger, business, now,
      TransactionRequest(body.ttype, body.customerId, body.vendorId, body.products.value))
  {
    match body.products
    case None => TxOutcome(store, ledger, NoProducts)
    case Some(lines) =>
      CreateTransaction(store, ledger, business, now,
        TransactionRequest(body.ttype, body.customerId, body.vendorId, lines))
  }

  /** `getAllTransactions`: the ledger entries of the caller's business. */
  function GetAllTransactions(ledger: Ledger, business: BusinessId): (r: Ledger)
    ensures forall t :: t in r <==> t in ledger && t.businessId == business
  {
    Select(ledger, BelongsTo(business))
  }

  /** A saved transaction, whether the reply is 201 or the 500 that follows
      a missing product, shows up at the end of its own business's listing,
      and every other business's listing stays as it was. */
  lemma ListingAfterCreate(store: ProductStore, ledger: Ledger, business: BusinessId,
                           now: int, req: TransactionRequest, other: BusinessId)
    requires var r := CreateTransaction(store, ledger, business, now, req).reply;
      r.Recorded? || r.RecordedThenFailed?
    ensures var o := CreateTransaction(store, ledger, business, now, req);
      && GetAllTransactions(o.ledger, business)
         == GetAllTransactions(ledger, business) + [o.reply.transaction]
      && (other != business ==> GetAllTransactions(o.ledger, other) == GetAllTransactions(ledger, other))
  {
    var o := CreateTransaction(store, ledger, business, now, req);
    assert o.reply.transaction.businessId == business;
    SelectAppend(ledger, o.reply.transaction, BelongsTo(business));
    SelectAppend(ledger, o.reply.transaction, BelongsTo(other));
  }

  /** A purchase is never checked against stock: its outcome does not depend
      on how much of anything is in stock. */
  lemma PurchaseSkipsStockCheck(store: ProductStore, ledger: Ledger, business: BusinessId,
                                now: int, req: TransactionRequest)
    requires req.ttype == "purchase"
    ensures var o := CreateTransaction(store, ledger, business, now, req);
      !o.reply.ProductNotFound? && !o.reply.InsufficientStock? && !o.reply.Rejected? <==>
        AllIdentified(req.products)
  {
  }

  /** A sale that passes the check has every product present, so the
      stock loop never fails part-way through. */
  lemma SaleNeverFailsAfterSave(store: ProductStore, ledger: Ledger, business: BusinessId,
                                now: int, req: TransactionRequest)
    requires req.ttype == "sale"
    ensures !CreateTransaction(store, ledger, business, now, req).reply.RecordedThenFailed?
  {
  }

  /** A product no line names keeps its document, stock included. */
  lemma UnreferencedProductsUnchanged(store: ProductStore, ledger: Ledger, business: BusinessId,
                                      now: int, req: TransactionRequest, id: ProductId)
    requires CreateTransaction(store, ledger, business, now, req).reply.Recorded?
    requires id in store
    requires forall j :: 0 <= j < |req.products| ==> req.products[j].productId != Some(id)
    ensures CreateTransaction(store, ledger, business, now, req).products[id] == store[id]
  {
    var t := CreateTransaction(store, ledger, business, now, req).reply.transaction;
    assert forall j :: 0 <= j < |t.products| ==> t.products[j].productId != id by {
      assert DraftOf(t).products == req.products;
      forall j | 0 <= j < |t.products| ensures t.products[j].productId != id {
        assert RequestLines(t.products)[j].productId == Some(t.products[j].productId);
      }
    }
    QuantityOfUnreferenced(t.products, id);
  }

  /** A recorded sale passed the check on every line. */
  lemma RecordedSalePassed(store: ProductStore, ledger: Ledger, business: BusinessId,
                           now: int, req: TransactionRequest)
    requires req.ttype == "sale"
    requires CreateTransaction(store, ledger, business, now, req).reply.Recorded?
    ensures forall j :: 0 <= j < |req.products| ==> LinePasses(store, req.products[j])
  {
    assert CheckFrom(store, req.products, 0).StockOk?;
  }

  /** When no product repeats across the lines of a sale, a sale that goes
      through lowers each product's stock by its one line's quantity, and so
      never below zero. */
  lemma DistinctSaleKeepsStockNonNegative(store: ProductStore, ledger: Ledger,
                                          business: BusinessId, now: int,
                                          req: TransactionRequest, k: nat)
    requires req.ttype == "sale"
    requires k < |req.products|
    requires forall i, j :: 0 <= i < j < |req.products| ==>
      req.products[i].productId != req.products[j].productId
    requires CreateTransaction(store, ledger, business, now, req).reply.Recorded?
    ensures var o := CreateTransaction(store, ledger, business, now, req);
      var id := req.products[k].productId.value;
      o.products[id].stock == store[id].stock - req.products[k].quantity
      && o.products[id].stock >= 0
  {
    RecordedSalePassed(store, ledger, business, now, req);
    SaleRecorded(store, ledger, business, now, req);
    var items := StoredLines(req.products);
    forall j | 0 <= j < |items| && j != k
      ensures items[j].productId != items[k].productId
    {
      if j < k {
        assert req.products[j].productId != req.products[k].productId;
      } else {
        assert req.products[k].productId != req.products[j].productId;
      }
    }
    QuantityOfSingle(items, k);
  }

  /** A sale whose every line passes the check is recorded with the
      request's lines and total, and each product's stock drops by the
      summed quantity of the lines naming it. */
  lemma SaleRecorded(store: ProductStore, ledger: Ledger, business: BusinessId,
                     now: int, req: TransactionRequest)
    requires req.ttype == "sale"
    requires forall j :: 0 <= j < |req.products| ==> LinePasses(store, req.products[j])
    ensures var o := CreateTransaction(store, ledger, business, now, req);
      && o.reply.Recorded?
      && o.reply.transaction.products == StoredLines(req.products)
      && o.reply.transaction.totalAmount == Total(req.products)
      && forall id :: id in store ==>
        o.products[id].stock == store[id].stock - QuantityOf(StoredLines(req.products), id)
  {
    var o := CreateTransaction(store, ledger, business, now, req);
    assert CheckFrom(store, req.products, 0).StockOk?;
    assert AllIdentified(req.products);
    var t := Validate(DraftFor(req, business, now)).value;
    AcceptedLines(DraftFor(req, business, now), t);
    CreateTransactionStock(store, ledger, business, now, req);
  }

  /** Two lines for one product are each checked against the stock before
      the sale, so together they can take more than is there: with stock at
      least `q` but below `2 * q`, a sale of two lines of `q` goes through and
      leaves the stock negative. */
  lemma RepeatedLinesOversell(store: ProductStore, ledger: Ledger, business: BusinessId, now: int,
                              pid: ProductId, q: int, price: int)
    requires pid in store
    requires q <= store[pid].stock < 2 * q
    ensures var req := TransactionRequest("sale", None, None,
        [LineRequest(Some(pid), q, price), LineRequest(Some(pid), q, price)]);
      var o := CreateTransaction(store, ledger, business, now, req);
      && o.reply.Recorded?
      && o.reply.transaction.totalAmount == q * price + q * price
      && o.products[pid].stock == store[pid].stock - 2 * q
      && o.products[pid].stock < 0
  {
    var lines := [LineRequest(Some(pid), q, price), LineRequest(Some(pid), q, price)];
    var req := TransactionRequest("sale", None, None, lines);
    SaleRecorded(store, ledger, business, now, req);
    var items := StoredLines(lines);
    assert items == [LineItem(pid, q, price), LineItem(pid, q, price)];
    assert QuantityOf(items, pid) == 2 * q by {
      assert items[1..] == [LineItem(pid, q, price)];
      assert items[1..][1..] == [];
      assert QuantityOf(items[1..], pid) == q;
    }
    assert Total(lines) == q * price + q * price by {
      assert lines[..1] == [lines[0]];
      assert lines[..1][..0] == [];
    }
  }

  /** The product lookups ignore the business: a business can sell another
      business's product, and that product's stock drops while its owner
      stays the same. */
  lemma SaleCrossesBusinesses(store: ProductStore, ledger: Ledger, business: BusinessId, now: int,
                              pid: ProductId, q: int, price: int)
    requires pid in store && store[pid].businessId != business
    requires q <= store[pid].stock
    ensures var req := TransactionRequest("sale", None, None, [LineRequest(Some(pid), q, price)]);
      var o := CreateTransaction(store, ledger, business, now, req);
      && o.reply.Recorded?
      && o.reply.transaction.businessId == business
      && o.products[pid].stock == store[pid].stock - q
      && o.products[pid].businessId == store[pid].businessId
  {
    var lines := [LineRequest(Some(pid), q, price)];
    var req := TransactionRequest("sale", None, None, lines);
    SaleRecorded(store, ledger, business, now, req);
    CreateTransactionStock(store, ledger, business, now, req);
    var items := StoredLines(lines);
    assert items == [LineItem(pid, q, price)];
    assert QuantityOf(items, pid) == q by {
      assert items[1..] == [];
    }
  }
}
