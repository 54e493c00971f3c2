/**
 References between documents. MongoDB ObjectIds are opaque; the model only
 compares them for equality, so they are strings here.
 */
module Ids {

  /** The id of the authenticated user, which is the owning business of every document. */
  type BusinessId = string

  type ProductId = string

  type ContactId = string
}
