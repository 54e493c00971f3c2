/**
 Product management for one business: create with every field required,
 list, update with a fallback to the old value for each falsy field, and
 delete. Update and delete act only on a product matching both the id and
 the caller's business.
 */
module ProductController {
  import opened Js
  import opened Ids
  import opened ProductModel

  /** The request body of a create or an update; every field may be absent. */
  datatype ProductRequest = ProductRequest(
    name: Option<string>,
    description: Option<string>,
    price: Option<int>,
    stock: Option<int>,
    category: Option<string>)

  datatype ProductReply =
    | Created(id: ProductId, product: Product)
    | MissingFields
    | Updated(id: ProductId, product: Product)
    | NotFound
    | Deleted(id: ProductId, product: Product)
    | NotDeleted

  function StatusCode(r: ProductReply): int {
    match r
    case Created(_, _) => 201
    case MissingFields => 400
    case Updated(_, _) => 200
    case NotFound => 404
    case Deleted(_, _) => 200
    case NotDeleted => 200
  }

  /** The `success` flag of the response body. */
  datatype ProductOutcome = ProductOutcome(store: ProductStore, reply: ProductReply)

  /** The check `!name || !description || !price || !stock || !category`
      fails: every field is present, the strings are non-empty and the
      numbers are not zero. */
  predicate Complete(req: ProductRequest) {
    TruthyStr(req.name) && TruthyStr(req.description) && TruthyNum(req.price)
    && TruthyNum(req.stock) && TruthyStr(req.category)
  }

  /** `createProduct`; `id` is the fresh id the database assigns. */
  function CreateProduct(store: ProductStore, business: BusinessId, id: ProductId,
                         req: ProductRequest): (o: ProductOutcome)
    requires id !in store
    ensures o.reply.MissingFields? || o.reply.Created?
    ensures o.reply.MissingFields? ==> o.store == store
    ensures o.reply.MissingFields? <==>
      || req.name in {None, Some("")} || req.description in {None, Some("")}
      || req.price in {None, Some(0)} || req.stock in {None, Some(0)}
      || req.category in {None, Some("")}
    ensures o.reply.Created? ==>
      && o.reply.id == id
      && o.store == store[id := o.reply.product]
      && o.reply.product == Product(req.name.value, req.description.value,
           req.price.value, req.stock.value, req.category.value, business)
  {
    if !Complete(req) then
      ProductOutcome(store, MissingFields)
    else
      var p := Product(req.name.value, req.description.value, req.price.value,
        req.stock.value, req.category.value, business);
      ProductOutcome(store[id := p], Created(id, p))
  }

  /** The name and category filters are case-insensitive regular-expression
      searches; `matches(pattern, value)` stands for one. A filter applies
      only when it is a non-empty string. */
  predicate Selected(p: Product, name: Option<string>, category: Option<string>,
                     matches: (string, string) -> bool) {
    && (TruthyStr(name) ==> matches(name.value, p.name))
    && (TruthyStr(category) ==> matches(category.value, p.category))
  }

  /** `getProducts`: the caller's products that pass the filters. */
  function GetProducts(store: ProductStore, business: BusinessId, name: Option<string>,
                       category: Option<string>, matches: (string, string) -> bool)
    : (r: map<ProductId, Product>)
    ensures forall id :: id in r ==> id in store && r[id] == store[id]
    ensures forall id :: id in r <==>
      OwnedBy(store, id, business) && Selected(store[id], name, category, matches)
  {
    map id | id in store && store[id].businessId == business
                && Selected(store[id], name, category, matches) :: store[id]
  }

  /** `updateProduct`: each field becomes the new value when it is truthy
      and keeps the old one otherwise. */
  function UpdateProduct(store: ProductStore, business: BusinessId, id: ProductId,
                         req: ProductRequest): (o: ProductOutcome)
    ensures o.reply.NotFound? || o.reply.Updated?
    ensures o.reply.NotFound? <==> !OwnedBy(store, id, business)
    ensures o.reply.NotFound? ==> o.store == store
    ensures o.reply.Updated? ==>
      && o.reply.id == id
      && o.store == store[id := o.reply.product]
      && o.reply.product.businessId == store[id].businessId
      && o.reply.product.name == (if TruthyStr(req.name) then req.name.value else store[id].name)
      && o.reply.product.description
         == (if TruthyStr(req.description) then req.description.value else store[id].description)
      && o.reply.product.price == (if TruthyNum(req.price) then req.price.value else store[id].price)
      && o.reply.product.stock == (if TruthyNum(req.stock) then req.stock.value else store[id].stock)
      && o.reply.product.category
         == (if TruthyStr(req.category) then req.category.value else store[id].category)
  {
    if !OwnedBy(store, id, business) then
      ProductOutcome(store, NotFound)
    else
      var prev := store[id];
      var p := prev.(
        name := OrStr(req.name, prev.name),
        description := OrStr(req.description, prev.description),
        price := OrNum(req.price, prev.price),
        stock := OrNum(req.stock, prev.stock),
        category := OrStr(req.category, prev.category));
      ProductOutcome(store[id := p], Updated(id, p))
  }

  /** `deleteProduct`: removes the product matching the id and the caller's
      business; with no match it answers `success: false` and removes nothing. */
  function DeleteProduct(store: ProductStore, business: BusinessId, id: ProductId): (o: ProductOutcome)
    ensures o.reply.Deleted? || o.reply.NotDeleted?
    ensures o.reply.Deleted? <==> OwnedBy(store, id, business)
    ensures o.reply.Deleted? ==>
      o.reply.id == id && o.reply.product == store[id]
      && o.store.Keys == store.Keys - {id}
      && forall other :: other in o.store ==> o.store[other] == store[other]
    ensures o.reply.NotDeleted? ==> o.store == store
  {
    if OwnedBy(store, id, business) then
      ProductOutcome(store - {id}, Deleted(id, store[id]))
    else
      ProductOutcome(store, NotDeleted)
  }

  /** A product cannot be created with zero stock or a zero price. */
  lemma ZeroRejected(store: ProductStore, business: BusinessId, id: ProductId, req: ProductRequest)
    requires id !in store
    requires req.stock == Some(0) || req.price == Some(0)
    ensures CreateProduct(store, business, id, req) == ProductOutcome(store, MissingFields)
  {
  }

  /** An update whose fields are all absent or falsy changes nothing; on
      the caller's own product it answers with the product as stored. */
  lemma EmptyUpdateKeepsStore(store: ProductStore, business: BusinessId, id: ProductId,
                              req: ProductRequest)
    requires !TruthyStr(req.name) && !TruthyStr(req.description) && !TruthyNum(req.price)
      && !TruthyNum(req.stock) && !TruthyStr(req.category)
    ensures UpdateProduct(store, business, id, req).store == store
    ensures OwnedBy(store, id, business) ==>
      UpdateProduct(store, business, id, req).reply == Updated(id, store[id])
  {
  }

  /** Setting stock to zero by update is impossible: a zero is falsy, so the
      old stock is kept. */
  lemma UpdateKeepsNonZeroStock(store: ProductStore, business: BusinessId, id: ProductId,
                                req: ProductRequest)
    requires id in store && store[id].stock != 0
    ensures UpdateProduct(store, business, id, req).store[id].stock != 0
  {
  }

  /** An update or a delete leaves every other product as it was, including
      those of other businesses. */
  lemma OnlyTargetChanges(store: ProductStore, business: BusinessId, id: ProductId,
                          req: ProductRequest, other: ProductId)
    requires other in store && other != id
    ensures var u := UpdateProduct(store, business, id, req).store;
      other in u && u[other] == store[other]
    ensures var d := DeleteProduct(store, business, id).store;
      other in d && d[other] == store[other]
  {
  }

  /** A created product is listed, unfiltered, for its business and for no
      other; once deleted it is no longer listed. */
  lemma CreateListDelete(store: ProductStore, business: BusinessId, id: ProductId,
                         req: ProductRequest, other: BusinessId, matches: (string, string) -> bool)
    requires id !in store
    requires Complete(req)
    requires other != business
    ensures var s := CreateProduct(store, business, id, req).store;
      && id in GetProducts(s, business, None, None, matches)
      && id !in GetProducts(s, other, None, None, matches)
      && DeleteProduct(s, business, id).reply.Deleted?
      && id !in GetProducts(DeleteProduct(s, business, id).store, business, None, None, matches)
  {
  }
}
