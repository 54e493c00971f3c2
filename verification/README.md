# Inventory and billing backend — a Dafny model

This project models the request handlers and schemas of a small inventory
and billing service. Businesses keep products (with a stock level) and
contacts (customers and vendors). They record sales and purchases as
transactions, and they read two reports: the inventory, and a date- and
type-filtered list of transactions. Every request acts for one
authenticated business.

The model is made of pure functions over immutable collections:

- Products and contacts are maps from document id to document.
- The transaction ledger is a sequence in insertion order.
- Each handler takes the collections it reads or writes and the caller's
  business id. It returns the new collections and a reply that stands for
  the HTTP status and body.

Modules:

- `Js` covers the JavaScript semantics the handlers rely on: optional
  request fields, truthiness, the `a || b` fallback, and the `trim()` and
  lower-casing setters.
- `Ids` holds the id types.
- `ProductModel` holds the product document and the ownership test.
- `ContactModel` holds the contact schema:
  - the setters and validators;
  - the phone and email patterns;
  - the unique indexes;
  - the `WellFormed` invariant every save keeps.
- `TransactionModel` holds the transaction schema, its save-time
  validation and ledger selection.
- `TransactionController`, `ReportController`, `ProductController` and
  `ContactController` hold the handlers.

The handlers are modelled as the code behaves, including behaviour a
reader might not expect:

- A sale checks each line on its own against the stock as it was before
  the transaction. Two lines for one product can therefore together take
  more than is in stock, and stock can become negative
  (`TransactionController.RepeatedLinesOversell`).
- The product lookups while recording a transaction are by id alone. A
  business can sell, or buy into, another business's product
  (`TransactionController.SaleCrossesBusinesses`).
- Nothing is atomic. The ledger entry is saved before any stock changes.
  A purchase naming a product that does not exist is saved, the stock of
  the lines before it is changed, and the reply is a 500
  (`TransactionController.TxReply.RecordedThenFailed`).
- Customer and vendor are both optional and are not tied to the type.
  Neither is looked up.
- A product field or contact field that is falsy in an update keeps its
  old value. So a product's stock sent as a JSON number can never be set
  to zero by an update (`ProductController.UpdateKeepsNonZeroStock`).
  A numeric string such as `"0"` is truthy, passes the handler's checks
  and is cast to 0 by the database layer; that path is not modelled.
- The unique indexes on a contact's phone and email span every business.

## Model

| member | source | states |
|---|---|---|
| Js.TrimStart | src/models/Contact.js:8 | the `trim` setter's leading part removes exactly the maximal run of leading white space: the result is a suffix of the input, starts with a non-space, and everything dropped is white space |
| Js.TrimEnd | src/models/Contact.js:14 | the trailing part of `trim` removes exactly the maximal run of trailing white space: a prefix of the input, ending in a non-space, with only white space dropped |
| Js.Trim | src/models/Contact.js:8 | `trim()` yields the slice of the input that starts where the leading white space ends, and that slice neither starts nor ends with white space |
| Js.TrimDrops | src/models/Contact.js:8 | everything `trim()` drops before and after the slice it keeps is white space |
| Js.TrimEmpty | src/models/Contact.js:5-9 | trimming yields the empty string exactly when the input is all white space, which is when `required` then rejects a trimmed field |
| Js.TrimFixesTrimmed | src/models/Contact.js:8 | trimming leaves a string unchanged exactly when it has no white space at either end |
| Js.TrimIdempotent | src/models/Contact.js:8 | trimming twice equals trimming once |
| Js.LowerChar | src/models/Contact.js:20 | lower-casing maps each ASCII letter A–Z to the matching letter a–z and leaves every other character as it is, so no upper-case ASCII letter remains and white space stays white space |
| Js.Lower | src/models/Contact.js:20 | the `lowercase` setter keeps the length, turns each A–Z into the matching a–z, keeps every other character, and leaves no upper-case ASCII letter |
| Js.LowerIdempotent | src/models/Contact.js:20 | a lower-cased string has no upper-case letter and is unchanged by lower-casing again |
| Js.LowerFixesNoUpper | src/models/Contact.js:20 | lower-casing leaves a string without upper-case letters unchanged |
| Js.LowerKeepsTrimmed | src/models/Contact.js:19-20 | lower-casing a trimmed email keeps it trimmed, so the setters leave no white space at either end |
| Js.TrimLowerCommute | src/models/Contact.js:19-20 | the email's `trim` and `lowercase` setters commute, so their order does not matter |
| ContactModel.ParseType | src/models/Contact.js:32-36 | the type enum accepts exactly "customer" and "vendor" and parses each to its own value |
| ContactModel.ParseTypeName | src/models/Contact.js:35 | each contact type's name parses back to that type |
| ContactModel.IndexOf | src/models/Contact.js:23 | finds the first occurrence of a character, or reports that there is none |
| ContactModel.IsEmailMatchesPattern | src/models/Contact.js:22-25 | the executable email check accepts exactly the strings that split as non-empty runs of non-space, non-`@` characters around one `@` and a later `.` |
| ContactModel.SplitChars | src/models/Contact.js:23 | three runs of `[^\s@]` around an `@` and a `.` leave no white space and no other `@` in the string |
| ContactModel.Normalize | src/models/Contact.js:5-31 | the setters store the trimmed name, phone and address and the trimmed, lower-cased email, so no field has white space at either end and the email has no upper-case letters; type and owner pass through untouched |
| ContactModel.Validate | src/models/Contact.js:5-36 | a draft is refused exactly when some validator fails, and the error set names each failing field with its cause: an empty name or address, a phone that is not ten digits, a non-empty email not matching the pattern, a type outside the enum. An accepted contact is valid and carries the draft's fields |
| ContactModel.ValidateValid | src/models/Contact.js:5-36 | a valid contact passes validation unchanged |
| ContactModel.NormalizeIdempotent | src/models/Contact.js:8-30 | running the setters twice equals running them once |
| ContactModel.NormalizedAccepted | src/models/Contact.js:8-30 | every contact the setters and validators produce has trimmed fields and a lower-case email |
| ContactModel.NormalizeStored | src/models/Contact.js:8-30 | the setters change nothing in an already normalized contact |
| ContactModel.UniqueNoClash | src/models/Contact.js:13-21 | in a collection with unique phones and emails, no stored contact collides with another |
| ContactModel.WellFormedSubset | src/models/Contact.js:5-41 | removing contacts keeps the collection valid, normalized and unique |
| ContactModel.WellFormedWrite | src/models/Contact.js:5-41 | writing a valid, normalized contact that collides with no other keeps the collection valid, normalized and unique |
| TransactionModel.ParseTxType | src/models/Transaction.js:5-9 | the type enum accepts exactly "sale" and "purchase" |
| TransactionModel.ParseTxTypeName | src/models/Transaction.js:8 | each transaction type's name parses back to that type |
| TransactionModel.StoredLines | src/models/Transaction.js:20-31 | the stored line items read back as exactly the requested lines: same number, same order, and each line's product, quantity and price |
| TransactionModel.Validate | src/models/Transaction.js:5-44 | a transaction is saved exactly when its type is in the enum and every line names a product. Quantity, price, total and counterparties are unconstrained, and the saved document keeps every field |
| TransactionModel.ValidateStored | src/models/Transaction.js:5-44 | any stored transaction, whatever its numbers, passes validation unchanged |
| TransactionModel.Select | src/controllers/transactionController.js:7-9 | a query returns exactly the ledger entries satisfying its filter, and never more entries than the ledger holds |
| TransactionModel.SelectAppend | src/controllers/transactionController.js:7-9 | appending an entry to the ledger appends it to a query's result exactly when the entry satisfies the filter |
| TransactionController.Total | src/controllers/transactionController.js:35-37 | the total of an empty line list is zero |
| TransactionController.TotalAppend | src/controllers/transactionController.js:35-37 | the total is additive over any split of the line list |
| TransactionController.TotalIsLineSum | src/controllers/transactionController.js:35-37 | the left fold of the handler equals the sum of quantity times price over the lines |
| TransactionController.CheckFrom | src/controllers/transactionController.js:49-67 | the sale check passes exactly when every line's product exists with enough stock. Otherwise it names the first failing line: missing product, or stock below the line's quantity |
| TransactionController.QuantityOfUnreferenced | src/controllers/transactionController.js:72-80 | a product no line names receives no stock change |
| TransactionController.QuantityOfSingle | src/controllers/transactionController.js:72-80 | a product named by exactly one line changes by that line's quantity |
| TransactionController.ApplyStock | src/controllers/transactionController.js:72-80 | the stock loop adds and removes no product, and a line it stops at is one of the lines |
| TransactionController.ApplyStockFailure | src/controllers/transactionController.js:72-80 | the loop completes only when every line names an existing product; when it stops, it stops at the first line whose product is missing |
| TransactionController.ApplyStockReaches | src/controllers/transactionController.js:72-73 | every line before the stopping point names an existing product |
| TransactionController.ApplyStockStops | src/controllers/transactionController.js:73-77 | the line at which the loop stops names no existing product |
| TransactionController.QuantityOfPrefix | src/controllers/transactionController.js:72-80 | the quantity moved by the first k+1 lines is the first line's share plus that of the next k |
| TransactionController.ApplyStockEffect | src/controllers/transactionController.js:72-80 | each product's stock moves by plus (purchase) or minus (sale) the summed quantity of the lines processed before any failure, and nothing else in the product changes |
| TransactionController.ApplyStockComplete | src/controllers/transactionController.js:72-80 | when every product is found, each product's stock moves by its summed quantity over all lines |
| TransactionController.CreateTransaction | src/controllers/transactionController.js:29-94 | Failure cases, which write nothing: a sale with any line whose product is missing or short of stock is refused, with 404 or 400 at its first such line, every earlier line having passed; an invalid document fails with 500. The reply is never the missing-lines 500, and otherwise exactly one ledger entry is appended. It carries the request's type, counterparties, lines and total, the server date and the caller's business |
| TransactionController.CreateTransactionStock | src/controllers/transactionController.js:69-86 | on 201 every line named an existing product, no product was added or removed, and each product's stock moved by the signed summed quantity of its lines |
| TransactionController.CreateTransactionPartial | src/controllers/transactionController.js:69-80 | a failure after the save happens only for a purchase, at the first line whose product is missing. The products of the earlier lines exist and keep their stock increases, and no product is added or removed |
| TransactionController.CreateTransactionFromBody | src/controllers/transactionController.js:31-37 | a body without a `products` array is answered with 500 and writes nothing; any other body is handled as a request with those lines |
| TransactionController.Commit | src/controllers/transactionController.js:69-80 | after validation the entry is appended, then the stock loop runs. The result is 201 with every product's stock moved by its lines, or 500 at the first line whose product is missing, with the earlier lines' stock changes kept and no product added or removed |
| TransactionController.AcceptedLines | src/controllers/transactionController.js:39-46 | a transaction accepted from the constructed document stores exactly the requested lines, each naming a product |
| TransactionController.DraftFor | src/controllers/transactionController.js:31-46 | the constructed document carries the request's type, counterparties and lines, a total equal to the sum of quantity times price over the lines, the server date and the caller's business |
| TransactionController.SaleRecorded | src/controllers/transactionController.js:49-86 | a sale whose every line passes the stock check is recorded with the requested lines and total, and each product's stock drops by the summed quantity of its lines |
| TransactionController.RecordedSalePassed | src/controllers/transactionController.js:49-67 | a recorded sale passed the stock check on every line |
| TransactionController.GetAllTransactions | src/controllers/transactionController.js:5-26 | the listing holds exactly the ledger entries of the caller's business |
| TransactionController.ListingAfterCreate | src/controllers/transactionController.js:7-9 | a saved transaction, answered 201 or with the 500 after a missing product, appears at the end of its own business's listing, and every other business's listing is unchanged |
| TransactionController.PurchaseSkipsStockCheck | src/controllers/transactionController.js:49 | a purchase is never refused for stock reasons: it gets past validation exactly when every line names a product |
| TransactionController.SaleNeverFailsAfterSave | src/controllers/transactionController.js:49-80 | a sale that passes the check never fails in the stock loop |
| TransactionController.UnreferencedProductsUnchanged | src/controllers/transactionController.js:72-80 | a recorded transaction leaves every product it does not name untouched |
| TransactionController.DistinctSaleKeepsStockNonNegative | src/controllers/transactionController.js:49-80 | in a recorded sale whose lines name distinct products, each product loses exactly its line's quantity and stays at or above zero |
| TransactionController.RepeatedLinesOversell | src/controllers/transactionController.js:50-80 | two sale lines of q for one product with stock at least q but below 2q are each accepted. The sale is recorded, the total is the sum of both lines, and the stock drops by 2q to below zero |
| TransactionController.SaleCrossesBusinesses | src/controllers/transactionController.js:51 | a business can sell another business's product: the sale is recorded under the seller's business, the product's stock drops by the quantity, and its owner is unchanged |
| ReportController.GetInventoryReport | src/controllers/reportController.js:5-23 | the report has a row for exactly the caller's products, each showing the product's name, stock, category and price |
| ReportController.InventoryIsListing | src/controllers/reportController.js:7-9 | the inventory report shows exactly the products of the unfiltered product listing, each projected to its name, stock, category and price |
| ReportController.InventoryAfterTransaction | src/controllers/reportController.js:7-9 | after a recorded transaction every business's inventory report has the same rows, each stock moved by the signed summed quantity of the lines naming that product, and nothing else changed |
| ReportController.DateQuery | src/controllers/reportController.js:32-38 | the three branches amount to two independent, inclusive, optional bounds on the date |
| ReportController.GetTransactionsReport | src/controllers/reportController.js:26-63 | the report holds exactly the ledger entries of the caller's business dated within the given inclusive bounds and, when a non-empty type is given, of that type |
| ReportController.ReportWithinListing | src/controllers/reportController.js:30 | the transactions report never shows an entry the plain listing of the business does not |
| ReportController.UnfilteredReportIsListing | src/controllers/reportController.js:30-46 | with no bounds and no type the report equals the business's listing, in the same order |
| ProductController.CreateProduct | src/controllers/productController.js:4-35 | creation is refused with 400, writing nothing, exactly when some field is absent, an empty string or zero. Otherwise the stored product carries the request's fields and the caller's business |
| ProductController.GetProducts | src/controllers/productController.js:38-58 | the listing holds exactly the caller's products passing the name and category filters, unchanged |
| ProductController.UpdateProduct | src/controllers/productController.js:61-93 | the reply is 404, writing nothing, exactly when no product matches both the id and the caller's business. Otherwise each field takes the request's value when truthy and keeps the old value when not, and the owner stays the same |
| ProductController.DeleteProduct | src/controllers/productController.js:96-114 | the product is removed exactly when it matches the id and the caller's business, and every other product stays as it was |
| ProductController.ZeroRejected | src/controllers/productController.js:9 | a product whose stock or price is sent as the JSON number 0 is refused with 400 and nothing is written |
| ProductController.EmptyUpdateKeepsStore | src/controllers/productController.js:75-79 | an update whose fields are all absent, empty or zero changes nothing, and on the caller's own product answers with the product as stored |
| ProductController.UpdateKeepsNonZeroStock | src/controllers/productController.js:78 | an update whose stock is sent as a JSON number never sets a non-zero stock to zero |
| ProductController.OnlyTargetChanges | src/controllers/productController.js:64-80 | an update or a delete leaves every other product, including other businesses' products, as it was |
| ProductController.CreateListDelete | src/controllers/productController.js:4-114 | a created product is listed for its business and no other, and once deleted it is no longer listed |
| ContactController.Save | src/models/Contact.js:5-41 | a save runs the setters and then the validators; it is refused as a duplicate only when the trimmed phone or normalized email is already held by another contact |
| ContactController.CreateContact | src/controllers/contactController.js:33-65 | the reply is 400 exactly when some field is falsy. Otherwise it is 500 with the failing fields exactly when the setters' output fails validation, 201 exactly when it passes and collides with no other contact, and 500 as a duplicate otherwise. A failure writes nothing. On success the stored contact is exactly the setters' output, holding the trimmed name, phone and address, the trimmed lower-cased email, the requested type and the caller's business; it is valid and collides with no other contact |
| ContactController.GetAllContacts | src/controllers/contactController.js:4-30 | the listing holds exactly the caller's contacts passing every non-empty filter, unchanged |
| ContactController.Merge | src/controllers/contactController.js:85-89 | each field of the updated document is the request's value when truthy and the stored value otherwise, and the owner never changes |
| ContactController.UpdateContact | src/controllers/contactController.js:68-105 | the reply is 404, writing nothing, exactly when no contact matches both the id and the caller's business. Otherwise it is 500 with the failing fields exactly when the merged contact fails validation after the setters, 200 exactly when it passes and collides with no other contact, and 500 as a duplicate otherwise. On success the stored contact is exactly the merged contact after the setters, so each truthy field takes the request's value after the setters and each falsy field keeps the stored value with the setters run again; a falsy type keeps the old type, and the owner is unchanged; the result is valid and collides with no other contact |
| ContactController.DeleteContact | src/controllers/contactController.js:108-136 | the contact is removed exactly when it matches the id and the caller's business, and every other contact stays as it was |
| ContactController.UpdateKeepsFalsyFields | src/controllers/contactController.js:85-89 | every field an update leaves falsy keeps its stored value, because the setters do not change a stored value |
| ContactController.MergeNormalized | src/controllers/contactController.js:85-89 | re-running the setters on the merge of a normalized contact gives back the stored value of every field the request leaves falsy |
| ContactController.EmptyUpdateKeepsStore | src/controllers/contactController.js:85-91 | an update whose fields are all absent or empty succeeds, answers with the stored contact, and leaves the collection as it was |
| ContactController.EmptyMergeSaves | src/controllers/contactController.js:85-91 | the merge of an empty update is the stored contact, and saving it again succeeds unchanged |
| ContactController.SaveStored | src/models/Contact.js:5-41 | re-saving a stored contact of a well-formed collection succeeds and stores the same contact |
| ContactController.CreatePreservesWellFormed | src/controllers/contactController.js:44-51 | creation keeps every stored contact valid and normalized, with phones and emails unique |
| ContactController.UpdatePreservesWellFormed | src/controllers/contactController.js:85-91 | update keeps every stored contact valid and normalized, with phones and emails unique |
| ContactController.DeletePreservesWellFormed | src/controllers/contactController.js:112-115 | deletion keeps every stored contact valid and normalized, with phones and emails unique |
| ContactController.CreatedListed | src/controllers/contactController.js:4-65 | a created contact is in its business's unfiltered listing and in no other business's listing, whatever the filters |
| ContactController.PhoneUniqueAcrossBusinesses | src/models/Contact.js:13 | a business cannot create a contact whose phone another business's contact already uses |

## Left out

- Authentication, tokens, routing and the HTTP layer are not modelled. The
  caller's business id is a parameter of every handler, and replies are
  datatypes with a `StatusCode` function rather than response objects.
- Database I/O is replaced by explicit collections. Ids assigned on
  creation are parameters, required to be fresh. Timestamps
  (`createdAt`, `updatedAt`) are not modelled, and neither are failures
  of the database itself. Those failures surface as 500 replies.
- Product schema validation on create and on save is not modelled,
  because models/Product.js is not part of this model. The product fields
  are inferred from the handlers, and every create or update the handlers
  allow is taken to be stored.
- Malformed ids are not modelled. A string that is not an object id makes
  the database throw a cast error, answered with 500. Ids are plain
  strings here, and a lookup either finds a document or does not.
- A `products` value that is present but not an array is not modelled.
  Only its absence is, in `TransactionController.CreateTransactionFromBody`;
  any other non-array value also makes `reduce` throw, with the same 500.
- Request fields are typed. A product's price and stock are optional
  numbers, so a numeric string that the database layer casts to a number
  (`"0"` becomes 0, and so does `" "`) is not modelled. Such a string is
  truthy, so it passes the create and update checks and a zero stock or
  price can be stored that way.
- Number casting is not modelled. Quantity and price are whole numbers:
  a missing or non-numeric quantity or price (`NaN` in the total) and
  fractional amounts are not modelled, and neither are floating-point
  rounding or JavaScript's number range.
- Dates are whole numbers on a time line. The parsing of `new Date(…)`
  from the query string is not modelled, and neither are invalid dates.
  An absent bound is `None`.
- The regular-expression searches of the product and contact listings
  are a parameter `matches(pattern, value)`. Case-insensitive regular
  expressions are not modelled.
- Listings of products and contacts are maps, so their order is not
  modelled. Transaction listings are sequences in ledger order. Neither
  `Transaction.find` sorts, so this assumes the database returns documents
  in their natural insertion order, which it does not guarantee.
- `populate` in the transactions report replaces ids with the referenced
  documents. It only changes the shape of each row, so the report is
  modelled as the selected ledger entries.
- The `success: x ? true : false` branches of the list handlers are not
  modelled, because a query result is always an array and so always
  truthy. The same holds for the update handler's result.
- Concurrency between requests is not modelled. Each handler runs to
  completion before the next begins, so interleavings between the check
  and the stock updates of two requests are not covered.
- The `businessId` and `totalAmount` required-validators are not
  modelled, because the handlers always set both.
- Js.Lower: maps only the ASCII letters A–Z to lower case. Other
  upper-case letters, which `toLowerCase` also maps, are kept as they are.
- TransactionController.Total: its own contract only fixes the empty
  total. The sum it computes is stated by
  `TransactionController.TotalIsLineSum` and
  `TransactionController.TotalAppend`.
- TransactionController.ApplyStock: its own contract states only that no
  product is added or removed and that a stopping point is a line. Where
  the loop stops is stated by `TransactionController.ApplyStockFailure`.
  What it does to each stock is stated by
  `TransactionController.ApplyStockEffect`.
- TransactionController.CreateTransaction: its own contract covers the
  replies and the ledger. The stock side of the reply is stated by
  `TransactionController.CreateTransactionStock` and
  `TransactionController.CreateTransactionPartial`.
- ContactController.UpdateKeepsFalsyFields: states the kept values only
  for a stored contact that is already normalized, as every saved
  contact is.
