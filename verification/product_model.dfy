/**
 The product document. Its schema file is not part of this model; the fields
 are the ones the product, report and transaction controllers read and write.
 Prices are whole numbers of the smallest currency unit, and stock is a plain
 integer: nothing in the controllers keeps it non-negative.
 */
module ProductModel {
  import opened Ids

  datatype Product = Product(
    name: string,
    description: string,
    price: int,
    stock: int,
    category: string,
    businessId: BusinessId)

  /** The product collection, keyed by document id. */
  type ProductStore = map<ProductId, Product>

  /** The products a business owns. */
  predicate OwnedBy(store: ProductStore, id: ProductId, business: BusinessId) {
    id in store && store[id].businessId == business
  }
}
