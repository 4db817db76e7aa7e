# Amanah Toko: stock ledger, request validation and exports

This Dafny project models the core of Amanah Toko, a small shop's inventory
back end with its web front end. It covers:

- **Purchases and sales** (`backend/src/api/controllers/purchase.ts` and
  `sale.ts`). Creating, updating, cancelling and deleting a purchase or sale
  changes the `store` count of the product it names (the units on hand), and
  each handler runs inside one database transaction.
  - A handler is a function from the tables before the request to
    `Result<Change<T>>`.
  - A `Failure` is a 400 response with nothing written, which is how the
    transaction's rollback is modelled.
  - A `Success` carries the row in the response and the tables after the
    commit.
  - The class `Ledger.Ledger` holds the tables as fields. Its methods apply
    each handler in place and promise that the new state is exactly the
    handler function's result.
- **The data model** (`backend/src/models/purchase.ts`, `sale.ts`): column
  defaults, the `Location` enumeration, the unique `invoiceNo` column, and the
  foreign keys. The database enforces these constraints when a row is written.
- **Stock bookkeeping** (`StockAccounting`). A ghost sum of sold quantities
  shows which operations move stock between the store count and the sale
  rows, and which ones create or lose stock.
- **The request validators** (`backend/src/middlewares/validators/rules/*.ts`).
  - Every express-validator chain is a function from the raw body field to
    the list of messages it adds, in chain order.
  - `trim().escape()` are the sanitisers, and `bail()` stops the chain after
    a failed check.
  - A body is accepted exactly when the list is empty. Lemmas state that
    field by field.
  - Bridge lemmas say how a request that passed the validators can still
    fail in its handler.
- **The product list filter** (`backend/src/middlewares/filters/product.ts`)
  and `enumFromStringValue` (`backend/src/libs/common.ts`).
- **The front-end helpers**:
  - `toRupiah` and `averageNum` (`frontend/src/utils/currency.ts`);
  - `flattenObject`, `replacer`, `csvDownload` and `downloadList`
    (`frontend/src/app/libs/csvParser.ts`).

  The `for...in` loops of `flattenObject` are kept as `while` loops, proved
  equal to a recursive definition. Properties of the export are then proved
  about that definition.

Modelling choices:

- Money and quantities are `int` (the columns are INTEGER). The validator's
  decimals are compared as `real`.
- JSON numbers are whole numbers.
- A JavaScript object built by assignment is a list of (key, value) pairs in
  insertion order.
- Generated UUIDs are parameters (`newId`).
- The database driver's error texts are not modelled. Each failure is an
  `Inventory.Error` instead.

The purchase handler and the data model disagree on one name. `create`
hands the ORM an attribute `invoice_no`, but the model's attribute is
`invoiceNo`, so as written every new purchase row carries the column default
"0" and the second create collides on the unique index. Only
`PurchaseController.AsWrittenInvoiceIsDefault` and
`PurchaseController.AsWrittenSecondInsertCollides` model that version.
`PurchaseController.Create`, `Ledger.Ledger.CreatePurchase` and every lemma
about them model the corrected create, which stores `String(count + 1)` in
`invoiceNo` (see "Findings").

## Model

| member | source | states |
|---|---|---|
| Inventory.Message | backend/src/api/controllers/sale.ts:41-44 | every error the handlers raise themselves has a non-empty message; exactly the three database errors have none, so their driver text is passed through |
| Common.EnumFromStringValue | backend/src/libs/common.ts:1-8 | the lookup returns the value exactly when it is one of the enumeration's values, and nothing otherwise |
| Common.EnumFromStringValueIdempotent | backend/src/libs/common.ts:1-8 | looking up a value the lookup returned gives the same answer |
| PurchaseModel.LocationValuesAreMembers | backend/src/models/purchase.ts:17-19 | `Object.values(Location)` is exactly the one spelling 'store' of the one member |
| PurchaseModel.DefaultsMeetConstraints | backend/src/models/purchase.ts:111-150 | a row built from only its two foreign keys has quantity 0, totalPrice 0, location 'store' and invoice "0", and meets the column constraints |
| PurchaseModel.Build | backend/src/models/purchase.ts:111-150 | the inserted row keeps its key, foreign keys and description; a supplied quantity, unit cost, unit price, total price, location or invoice number is stored as given, and a missing one takes its column default |
| PurchaseModel.InvoiceCount | backend/src/models/purchase.ts:146-150 | under the unique index there are exactly as many invoice numbers as rows |
| PurchaseModel.InsertKeepsUniqueIff | backend/src/models/purchase.ts:166-171 | inserting under a fresh key keeps the unique invoiceNo index exactly when the new number is unused |
| PurchaseModel.UpdateKeepsUnique | backend/src/models/purchase.ts:166-171 | rewriting a row without changing its invoice number keeps the index unique |
| SaleModel.DefaultsApply | backend/src/models/sale.ts:80-95 | a row built from only its product key has quantity 0, totalPrice 0 and invoice "0" |
| SaleModel.Build | backend/src/models/sale.ts:80-95 | the inserted row keeps its key, product and description; a supplied quantity, totalPrice or invoice number is stored as given, a missing one takes its column default |
| SaleModel.InvoiceCount | backend/src/models/sale.ts:80-85 | under the unique column there are exactly as many invoice numbers as sales |
| SaleModel.InsertKeepsUniqueIff | backend/src/models/sale.ts:80-85 | inserting under a fresh key keeps invoiceNo unique exactly when the new number is unused |
| SaleModel.UpdateKeepsUnique | backend/src/models/sale.ts:80-85 | rewriting a sale without changing its invoice number keeps invoiceNo unique |
| PurchaseController.Create | backend/src/api/controllers/purchase.ts:41-134 | a missing product fails with 'Product not found'; a success inserts one row under the generated key, which was free (the full effect is CreateWrites) |
| PurchaseController.StoreAfterCreate | backend/src/api/controllers/purchase.ts:102-109 | at 'store' a new product's store is the quantity and an existing one's grows by the quantity; elsewhere the store is kept |
| PurchaseController.InsertError | backend/src/api/controllers/purchase.ts:87-100 | the insert is refused exactly when the key is taken, the invoice number is in use or a foreign key names no row, and only with one of the three database errors; a taken key is reported first |
| PurchaseController.Read | backend/src/api/controllers/purchase.ts:136-150 | the stored row exactly when the id exists, and 'Purchase not found' otherwise |
| PurchaseController.List | backend/src/api/controllers/purchase.ts:9-39 | all purchases exactly when there is one, and 'No purchases found' otherwise |
| PurchaseController.StoreAfterUpdate | backend/src/api/controllers/purchase.ts:193-207 | off 'store', or with an unchanged quantity, the store is kept; a larger quantity adds the previous quantity and a smaller one subtracts the new one |
| PurchaseController.Update | backend/src/api/controllers/purchase.ts:152-244 | a missing purchase fails with 'Purchase not found'; a success names an existing purchase and product and answers with the row as read before (the full effect is UpdateWrites) |
| PurchaseController.Destroy | backend/src/api/controllers/purchase.ts:246-249 | the named keys are gone and no other; the count is at most the number of ids, and count + rows left = rows before |
| PurchaseController.CreateOutcome | backend/src/api/controllers/purchase.ts:41-134 | a missing product answers 'Product not found'; create succeeds exactly when the product exists, the key and the next invoice number are free, the supplier exists and the new store is not negative |
| PurchaseController.CreateLocationIsStore | backend/src/api/controllers/purchase.ts:53 | whatever location the body sends, the created purchase is at 'store' |
| PurchaseController.CreateFailsOnlyInDatabase | backend/src/api/controllers/purchase.ts:69-130 | for an existing supplier and product, a quantity of at least 1 and a non-negative store, create fails only on a taken key or invoice number |
| PurchaseController.CreateWrites | backend/src/api/controllers/purchase.ts:69-130 | a successful create inserts exactly the row with the request's keys, quantity, cost and price, totalPrice = unitCost × quantity, location 'store' and invoice count+1. The product keeps its name, category and description and takes the new cost, price and store (quantity for a new product, store + quantity otherwise); other products, other purchases, sales and suppliers stay as they were |
| PurchaseController.CreateRejectsNegativeStore | backend/src/api/controllers/purchase.ts:102-115 | a create whose new store would be negative writes nothing |
| PurchaseController.CreatePreservesValid | backend/src/api/controllers/purchase.ts:69-130 | a successful create keeps primary keys, foreign keys and both unique indexes intact |
| PurchaseController.UpdateStoreRule | backend/src/api/controllers/purchase.ts:193-207 | case by case: at 'store' a negative store fails. A larger quantity adds the previous quantity, a smaller one subtracts the new one, an equal one or a location other than 'store' leaves the store as it is; update succeeds exactly when the supplier exists and the negative case does not arise |
| PurchaseController.UpdateWrites | backend/src/api/controllers/purchase.ts:209-236 | a successful update answers with the purchase as read before. The row takes the new supplier, product, quantity, cost, price, the location if one is sent, the description if one is sent, totalPrice = unitCost × quantity and keeps its invoice number; the product takes the store of the update rule and the new cost and price; other purchases, other products, sales and suppliers stay as they were |
| PurchaseController.UpdateDoesNotApplyDelta | backend/src/api/controllers/purchase.ts:200-206 | the store rule is not "add the difference": 10 with 5→7 gives 15 (not 12), and 10 with 7→5 gives 5 (not 8) |
| PurchaseController.UpdatePreservesValid | backend/src/api/controllers/purchase.ts:186-240 | a successful update keeps the database invariants |
| PurchaseController.DestroyKeepsStock | backend/src/api/controllers/purchase.ts:246-263 | destroy removes exactly the named existing rows, reports how many, leaves every other purchase as it was, and leaves products, sales and suppliers untouched |
| PurchaseController.DestroyPreservesValid | backend/src/api/controllers/purchase.ts:246-249 | destroy keeps the database invariants |
| PurchaseController.CreateThenDestroyKeepsStock | backend/src/api/controllers/purchase.ts:102-123 | deleting a purchase that added stock does not take the stock back |
| PurchaseController.DenseNextInvoiceFree | backend/src/api/controllers/purchase.ts:72-85 | while the invoice numbers are 1..count, the number count+1 is free |
| PurchaseController.CreateKeepsDense | backend/src/api/controllers/purchase.ts:72-100 | a create keeps the invoice numbers dense |
| PurchaseController.UpdateKeepsDense | backend/src/api/controllers/purchase.ts:210-225 | an update keeps the invoice numbers dense |
| PurchaseController.CollisionAfterDestroy | backend/src/api/controllers/purchase.ts:72-85 | after a delete, when count+1 names an invoice still stored, the next create fails on the unique index |
| PurchaseController.CollisionReachable | backend/src/api/controllers/purchase.ts:72-100 | from a dense table holding invoices 1 and 2, destroying the first makes the next create fail on the unique index |
| PurchaseController.AsWrittenInvoiceIsDefault | backend/src/api/controllers/purchase.ts:87-100 | with the attribute spelled `invoice_no`, every built row has the column default "0" |
| PurchaseController.AsWrittenSecondInsertCollides | backend/src/api/controllers/purchase.ts:87-100 | as written, once one purchase exists every further insert clashes with the unique index |
| PurchaseController.CorrectedInvoiceStored | backend/src/api/controllers/purchase.ts:85-97 | with the number under `invoiceNo`, the row carries count+1, and that number is free while no row has been deleted |
| SaleController.InsertError | backend/src/api/controllers/sale.ts:47-61 | the insert is refused exactly when the key is taken, the invoice number is in use or the product names no row, and only with one of the three database errors; a taken key is reported first |
| SaleController.Create | backend/src/api/controllers/sale.ts:33-81 | a missing product fails with 'Product not found'; a success had enough stock and inserts one row under the generated key, which was free |
| SaleController.Cancel | backend/src/api/controllers/sale.ts:83-125 | a missing sale fails with 'Sale not found'; a success carries the cancelled sale and the new tables, in which exactly its row is gone |
| SaleController.Read | backend/src/api/controllers/sale.ts:127-141 | the stored sale exactly when the id exists, and 'Sale not found' otherwise |
| SaleController.List | backend/src/api/controllers/sale.ts:7-31 | all sales exactly when there is one, and 'No sales found' otherwise |
| SaleController.Update | backend/src/api/controllers/sale.ts:143-197 | a missing sale fails with 'Sale not found'; a success answers with the sale as read before |
| SaleController.Destroy | backend/src/api/controllers/sale.ts:199-202 | the named keys are gone and no other; the count is at most the number of ids, and count + rows left = rows before |
| SaleController.CreateInsufficientStock | backend/src/api/controllers/sale.ts:41-44 | asking for more than the store holds is refused with the store count, and writes nothing |
| SaleController.CreateOutcome | backend/src/api/controllers/sale.ts:33-81 | a missing product or a short store fails first; create succeeds exactly when the product exists with enough stock and the key and next invoice number are free |
| SaleController.CreateWrites | backend/src/api/controllers/sale.ts:47-70 | a successful create inserts one row, priced product unitPrice × quantity and numbered count+1; the store drops by the quantity and stays non-negative; nothing else changes |
| SaleController.CreatePreservesValid | backend/src/api/controllers/sale.ts:47-70 | a successful sale keeps the database invariants |
| SaleController.CancelWrites | backend/src/api/controllers/sale.ts:83-125 | cancel fails on a missing sale or product; otherwise the result carries the cancelled sale and the new tables: its quantity is added back to its product's store with the product's other fields kept, the row is deleted, and other products, purchases and suppliers are as they were |
| SaleController.CancelPreservesValid | backend/src/api/controllers/sale.ts:99-121 | cancel keeps the database invariants |
| SaleController.CreateThenCancelRestores | backend/src/api/controllers/sale.ts:33-125 | creating a sale and then cancelling it gives back exactly the original tables |
| SaleController.UpdateWrites | backend/src/api/controllers/sale.ts:143-197 | update fails on a missing sale or on its previous product missing, and a productId naming no product fails on the foreign key. Otherwise the previous product's store becomes store + old quantity − new quantity; the row takes the new quantity, the description if one is sent, the productId if one is sent and totalPrice = unitPrice × quantity; other sales, other products, purchases and suppliers stay as they were |
| SaleController.UpdateAdjustsPreviousProduct | backend/src/api/controllers/sale.ts:154-186 | when the update moves a sale to another product, only the previous product's store changes; the new one keeps its store |
| SaleController.UpdateCanGoNegative | backend/src/api/controllers/sale.ts:167-171 | the update has no store check: raising a sale by 1 on an empty store leaves −1 |
| SaleController.UpdatePreservesValid | backend/src/api/controllers/sale.ts:167-193 | a successful update keeps the database invariants |
| SaleController.DestroyKeepsStock | backend/src/api/controllers/sale.ts:199-216 | destroy removes exactly the named existing rows, leaves every other sale as it was, reports how many were removed, and gives no quantity back to any product |
| SaleController.CreateThenDestroyLosesStock | backend/src/api/controllers/sale.ts:199-216 | a sale that is deleted rather than cancelled leaves its quantity deducted |
| SaleController.DestroyPreservesValid | backend/src/api/controllers/sale.ts:199-202 | destroy keeps the database invariants |
| SaleController.CollisionAfterCancel | backend/src/api/controllers/sale.ts:49-61 | after a cancel, when the new count+1 names a sale still stored, the next sale fails on the unique column |
| SaleController.CollisionReachable | backend/src/api/controllers/sale.ts:47-70 | from a dense table holding sales 1 and 2, cancelling the first makes the next sale fail on the unique column |
| Ledger.Ledger.constructor | backend/src/api/controllers/purchase.ts:6-7 | the ledger starts with the given valid tables |
| Ledger.Ledger.CreatePurchase | backend/src/api/controllers/purchase.ts:41-134 | the tables after the call are the purchase create's result, or unchanged on failure; the response is its row or its error |
| Ledger.Ledger.ReadPurchase | backend/src/api/controllers/purchase.ts:136-150 | the answer is the stored row exactly when the id exists, and 'Purchase not found' otherwise |
| Ledger.Ledger.ListPurchases | backend/src/api/controllers/purchase.ts:9-39 | the answer is all purchases exactly when there is one, and 'No purchases found' otherwise |
| Ledger.Ledger.UpdatePurchase | backend/src/api/controllers/purchase.ts:152-244 | the tables after the call are the purchase update's result, or unchanged on failure |
| Ledger.Ledger.DestroyPurchases | backend/src/api/controllers/purchase.ts:246-268 | the named rows are gone, the count is returned, and success means the count equals `id.length` |
| Ledger.Ledger.CreateSale | backend/src/api/controllers/sale.ts:33-81 | the tables after the call are the sale create's result, or unchanged on failure |
| Ledger.Ledger.CancelSale | backend/src/api/controllers/sale.ts:83-125 | the tables after the call are the cancel's result, or unchanged on failure |
| Ledger.Ledger.ReadSale | backend/src/api/controllers/sale.ts:127-141 | the answer is the stored sale exactly when the id exists, and 'Sale not found' otherwise |
| Ledger.Ledger.ListSales | backend/src/api/controllers/sale.ts:7-31 | the answer is all sales exactly when there is one, and 'No sales found' otherwise |
| Ledger.Ledger.UpdateSale | backend/src/api/controllers/sale.ts:143-197 | the tables after the call are the sale update's result, or unchanged on failure |
| Ledger.Ledger.DestroySales | backend/src/api/controllers/sale.ts:199-221 | the named rows are gone, the count is returned, and success means the count equals `id.length` |
| Ledger.SellAndCancel | backend/src/api/controllers/sale.ts:33-125 | a client selling 3 of 10 gets back 7 left in store and a price of 3 × unitPrice; cancelling the sale brings the ledger back to where it began |
| StockAccounting.SoldRemove | backend/src/api/controllers/sale.ts:58-63 | the total sold from a product can be split at any sale row |
| StockAccounting.SoldInsert | backend/src/api/controllers/sale.ts:58-61 | a new sale row adds its quantity to its product's total sold |
| StockAccounting.SoldReplace | backend/src/api/controllers/sale.ts:180-186 | rewriting a sale row swaps its share of the total sold |
| StockAccounting.SaleCreateConserves | backend/src/api/controllers/sale.ts:47-70 | a sale moves stock from the store into the sale row: store + sold stays the same for every product |
| StockAccounting.SaleCancelConserves | backend/src/api/controllers/sale.ts:99-112 | a cancel moves the quantity back: store + sold stays the same for every product |
| StockAccounting.SaleUpdateConserves | backend/src/api/controllers/sale.ts:167-186 | an update that keeps the sale on its product keeps store + sold for every product |
| StockAccounting.SaleUpdateMovesCommitment | backend/src/api/controllers/sale.ts:173-186 | when an update moves a sale to another product, the old product's store becomes store + old quantity − new quantity and the new product's store is not debited: the new quantity's worth of committed stock (store + sold) moves from the old product to the new one, and the total is conserved |
| StockAccounting.PurchaseCreateAdds | backend/src/api/controllers/purchase.ts:102-123 | a purchase of an existing product adds its quantity to the store; no other product changes |
| StockAccounting.SaleDestroyLoses | backend/src/api/controllers/sale.ts:199-202 | deleting a sale row lowers its product's store + sold by the sale's quantity |
| StockAccounting.PurchaseDestroyKeeps | backend/src/api/controllers/purchase.ts:246-249 | deleting purchase rows changes no product's store + sold |
| Checks.TrimStart | backend/src/middlewares/validators/rules/purchase.ts:15 | the result is a suffix of the input that does not start with white space, and every character removed is white space |
| Checks.TrimEnd | backend/src/middlewares/validators/rules/purchase.ts:15 | the result is a prefix of the input that does not end with white space, and every character removed is white space |
| Checks.Trim | backend/src/middlewares/validators/rules/purchase.ts:15 | the result is no longer than the input, neither starts nor ends with white space, and a text without white space is left as it is |
| Checks.TrimSlice | backend/src/middlewares/validators/rules/purchase.ts:15 | the result is a slice of the input, and only white space is cut off on either side |
| Checks.Escape | backend/src/middlewares/validators/rules/purchase.ts:16 | escaping never shortens the text and leaves none of the characters `"`, `'`, `<`, `>`, `/`, `\` and backquote |
| Checks.UnescapeEscape | backend/src/middlewares/validators/rules/purchase.ts:16 | reading the eight entities of `escape()` back gives the input: each character becomes its own entity per validator.js's map, so escaping loses nothing |
| Checks.UnescapeEscapeChar | backend/src/middlewares/validators/rules/purchase.ts:16 | one escaped character is read back as itself, whatever text follows it |
| Checks.EscapeConcat | backend/src/middlewares/validators/rules/purchase.ts:16 | escaping works character by character: it distributes over concatenation |
| Checks.IsInt | backend/src/middlewares/validators/rules/purchase.ts:47 | a non-empty string of digits is an integer text, and an integer text starts with a sign or a digit |
| Checks.IntValue | backend/src/middlewares/validators/rules/purchase.ts:49 | the value is negative only after a minus sign and is the digits' value for a plain numeral |
| Checks.IntValueOfNumeral | backend/src/middlewares/validators/rules/purchase.ts:47-49 | an integer's numeral passes `isInt()` and `toInt()` reads the integer back |
| Checks.IsFloat | backend/src/middlewares/validators/rules/purchase.ts:56 | the empty text is never a decimal |
| Checks.FloatValue | backend/src/middlewares/validators/rules/purchase.ts:58 | the value is negative only after a minus sign |
| Checks.IsAlpha | backend/src/middlewares/validators/rules/purchase.ts:80 | an alphabetic text is not an integer and has no white space for `trim()` to strip |
| Checks.IsIn | backend/src/middlewares/validators/rules/purchase.ts:82 | the text is accepted exactly when some listed value equals it |
| Checks.IsLength | backend/src/middlewares/validators/rules/product.ts:37 | an empty range accepts nothing, and the empty text passes only a minimum of 0 |
| Checks.EscapePlain | backend/src/middlewares/validators/rules/purchase.ts:16 | escaping leaves text without HTML-special characters unchanged |
| Checks.CleanDigits | backend/src/middlewares/validators/rules/purchase.ts:14-16 | trimming and escaping leave a string of digits unchanged |
| Checks.CleanLetters | backend/src/middlewares/validators/rules/product.ts:32-34 | trimming and escaping leave a string of letters unchanged |
| Checks.IntIsFloat | backend/src/middlewares/validators/rules/purchase.ts:47-56 | every integer text is a decimal text with the same value |
| PurchaseRules.SupplierIdErrors | backend/src/middlewares/validators/rules/purchase.ts:14-26 | no message exactly when the cleaned id names a supplier; an empty id gives only 'Supplier id is required' |
| PurchaseRules.ProductIdErrors | backend/src/middlewares/validators/rules/purchase.ts:28-40 | no message exactly when the cleaned id names a product; an empty id gives only 'Product id is required' |
| PurchaseRules.QuantityErrors | backend/src/middlewares/validators/rules/purchase.ts:42-49 | no message exactly when the cleaned text is an integer of at least 1 |
| PurchaseRules.UnitCostErrors | backend/src/middlewares/validators/rules/purchase.ts:51-58 | no message exactly when the cleaned text is a decimal of at least 1 |
| PurchaseRules.UnitPriceErrors | backend/src/middlewares/validators/rules/purchase.ts:60-73 | no message exactly when the price is a decimal of at least 1 and not below a decimal cost; a cost that is not a decimal never triggers the comparison |
| PurchaseRules.LocationErrors | backend/src/middlewares/validators/rules/purchase.ts:75-83 | no message exactly when the cleaned text is 'store'; every failing check adds its message |
| PurchaseRules.IdErrors | backend/src/middlewares/validators/rules/purchase.ts:118-130 | no message exactly when the cleaned id names a purchase |
| PurchaseRules.CreateErrors | backend/src/middlewares/validators/rules/purchase.ts:13-86 | a create body is accepted exactly when every field meets its rule |
| PurchaseRules.UpdateErrors | backend/src/middlewares/validators/rules/purchase.ts:117-133 | an update body is accepted exactly when it names a purchase and passes the create rules |
| PurchaseRules.EmptyBodyMessages | backend/src/middlewares/validators/rules/purchase.ts:13-86 | an empty body reports the eleven messages of the chains, in field order |
| PurchaseRules.AcceptedCreateFailsOnlyInDatabase | backend/src/middlewares/validators/rules/purchase.ts:113 | after the validators accept a create body for a product with a non-negative store, create can fail only on a taken key or invoice number |
| PurchaseRules.AcceptableCreateFailsOnlyInDatabase | backend/src/middlewares/validators/rules/purchase.ts:113 | a body the validators accept, for a product with a non-negative store, can fail in create only on a taken key or invoice number |
| PurchaseRules.AcceptedUpdateFailsOnlyOnNegativeStore | backend/src/middlewares/validators/rules/purchase.ts:117-133 | after the validators accept an update body, the update fails only when the product's store is already negative |
| SaleRules.QuantityErrors | backend/src/middlewares/validators/rules/sale.ts:13-20 | no message exactly when the cleaned text is an integer of at least 1 |
| SaleRules.ProductIdErrors | backend/src/middlewares/validators/rules/sale.ts:38-50 | no message exactly when the cleaned id names a product |
| SaleRules.IdErrors | backend/src/middlewares/validators/rules/sale.ts:75-87 | no message exactly when the cleaned id names a sale |
| SaleRules.CreateErrors | backend/src/middlewares/validators/rules/sale.ts:37-70 | a create body is accepted exactly when its product exists and its quantity is an integer of at least 1 |
| SaleRules.UpdateErrors | backend/src/middlewares/validators/rules/sale.ts:74-90 | an update body is accepted exactly when its sale exists and its quantity is an integer of at least 1 |
| SaleRules.UpdateIgnoresProductAndDescription | backend/src/middlewares/validators/rules/sale.ts:74-90 | the update's verdict does not depend on the productId or the description |
| SaleRules.UpdateAcceptsMissingProduct | backend/src/middlewares/validators/rules/sale.ts:74-90 | an update naming a product that does not exist passes the validators and then fails on the foreign key |
| SaleRules.AcceptedCreateFailures | backend/src/middlewares/validators/rules/sale.ts:37-70 | an accepted create reads a quantity of at least 1 and fails only on a short store or a taken key or invoice number |
| SaleRules.AcceptedUpdateFailures | backend/src/middlewares/validators/rules/sale.ts:74-90 | an accepted update on valid tables fails only when it names a product that does not exist |
| SaleRules.EmptyQueryMatchesAll | backend/src/middlewares/validators/rules/sale.ts:24-32 | an empty product-name query matches every product |
| SaleRules.LongerQueryNarrows | backend/src/middlewares/validators/rules/sale.ts:24-32 | lengthening the query can only shrink the matches |
| SaleRules.ExactNameMatches | backend/src/middlewares/validators/rules/sale.ts:24-32 | a product's own name always matches it |
| SaleRules.ProductsNamed | backend/src/middlewares/validators/rules/sale.ts:24-32 | the matches are product keys, and a matching name is at least as long as the query |
| ProductRules.CategoryIdErrors | backend/src/middlewares/validators/rules/product.ts:18-30 | no message exactly when the cleaned id names a category |
| ProductRules.NameErrors | backend/src/middlewares/validators/rules/product.ts:32-46 | no message exactly when the cleaned name has 2 to 50 characters and no product other than the body's own has it; an empty name reports both the required and the length message, and no lookup |
| ProductRules.NameTakenByPick | backend/src/middlewares/validators/rules/product.ts:40-46 | when at most one product carries the name, the check agrees with testing the single row `findOne` returns against the body's id |
| ProductRules.UnitCostErrors | backend/src/middlewares/validators/rules/product.ts:53-60 | no message exactly when the cleaned text is a decimal of at least 1 |
| ProductRules.UnitPriceErrors | backend/src/middlewares/validators/rules/product.ts:62-75 | no message exactly when the price is a decimal of at least 1 and not below a decimal cost |
| ProductRules.StoreErrors | backend/src/middlewares/validators/rules/product.ts:77-84 | no message exactly when the cleaned text is an integer of at least 1 |
| ProductRules.IdErrors | backend/src/middlewares/validators/rules/product.ts:115-126 | no message exactly when the cleaned id names a product |
| ProductRules.CreateErrors | backend/src/middlewares/validators/rules/product.ts:17-85 | a create body is accepted exactly when its name is free and every field meets its rule |
| ProductRules.UpdateErrors | backend/src/middlewares/validators/rules/product.ts:114-129 | an update body is accepted exactly when its id names a product and the other fields pass, with that product's own name allowed |
| ProductRules.EmptyIdReportsTwice | backend/src/middlewares/validators/rules/product.ts:115-126 | an empty update id reports both 'Product id is required' and 'Product not found', because the chain has no bail |
| ProductRules.TitleCase | backend/src/middlewares/validators/rules/product.ts:47-49 | title-casing keeps the length; each character is upper case at a word start and lower case elsewhere |
| ProductRules.StoredNameLength | backend/src/middlewares/validators/rules/product.ts:32-49 | an accepted name is stored with its length unchanged, so still 2 to 50 characters |
| ProductRules.TitleCaseIdempotent | backend/src/middlewares/validators/rules/product.ts:47-49 | title-casing twice is the same as title-casing once |
| ProductRules.TitleCaseKeepsLetters | backend/src/middlewares/validators/rules/product.ts:47-49 | title-casing changes only letter case |
| ProductRules.LowerCaseDuplicatePasses | backend/src/middlewares/validators/rules/product.ts:40-49 | with 'Apel' stored, the name 'apel' passes the uniqueness check and is then stored as 'Apel' |
| ProductRules.CaseVariantPasses | backend/src/middlewares/validators/rules/product.ts:40-49 | a letters-only name that differs from a stored name but title-cases to it passes the uniqueness check and is stored as the stored name |
| ProductFilter.ProductConditions | backend/src/middlewares/filters/product.ts:7-26 | nothing is pushed when neither query is given; the name is pushed first as `%name%` and the category last; the length is the number of queries given |
| ProductFilter.ConditionsSelect | backend/src/middlewares/filters/product.ts:7-26 | a product meets all conditions exactly when its lower-cased name contains the lower-cased query (if one is given) and its category is the one asked for (if one is given) |
| Currency.ToRupiah | frontend/src/utils/currency.ts:1-16 | the price is returned unchanged exactly when it is 0; otherwise the text starts with 'Rp' (its digits are ToRupiahGroups and ToRupiahDigits) |
| Currency.Grouped | frontend/src/utils/currency.ts:7-15 | the grouping is never shorter than the numeral, and with an empty separator it is the numeral |
| Currency.FoldGroups | frontend/src/utils/currency.ts:7-15 | the reduce over the reversed digits gives the reference grouping with a separator every three digits |
| Currency.ToRupiahGroups | frontend/src/utils/currency.ts:1-16 | a non-zero price is shown as 'Rp' followed by its numeral grouped in threes, and 0 is returned unchanged |
| Currency.DropDots | frontend/src/utils/currency.ts:13 | deleting the dots never lengthens the text and leaves no dot |
| Currency.DropDotsOfDotFree | frontend/src/utils/currency.ts:13 | a text without dots is left as it is |
| Currency.DropDotsKeeps | frontend/src/utils/currency.ts:13 | every character other than a dot is kept, as often as it occurs |
| Currency.DropDotsOfGrouped | frontend/src/utils/currency.ts:7-15 | removing the separators from the grouping gives back the numeral |
| Currency.ToRupiahDigits | frontend/src/utils/currency.ts:1-16 | the text starts with 'Rp', and removing the dots from the rest gives the integer's numeral |
| Currency.GroupedEnds | frontend/src/utils/currency.ts:7-15 | the grouping starts and ends with the numeral's first and last characters: never a separator at either end |
| Currency.NoDotAfterMinus | frontend/src/utils/currency.ts:13 | no separator follows a minus sign |
| Currency.ZeroUnchanged | frontend/src/utils/currency.ts:2 | a price of 0 is returned unchanged |
| Currency.GroupedThousands | frontend/src/utils/currency.ts:9-14 | '1234' is grouped as '1.234' |
| Currency.GroupedNegative | frontend/src/utils/currency.ts:13 | '-123' gets no separator after the minus, and '-1234' is grouped as '-1.234' |
| Currency.AverageNum | frontend/src/utils/currency.ts:25-31 | for a positive length, average × length is the total; otherwise the total is returned |
| CsvParser.Lookup | frontend/src/app/libs/csvParser.ts:20-23 | a key has a value exactly when it was assigned |
| CsvParser.PutLookup | frontend/src/app/libs/csvParser.ts:20-23 | after an assignment the key holds the new value and every other key holds what it held |
| CsvParser.PutKeySet | frontend/src/app/libs/csvParser.ts:20-23 | an assignment adds its key to the keys and no other |
| CsvParser.PutDistinct | frontend/src/app/libs/csvParser.ts:20-23 | an assignment keeps every key occurring once |
| CsvParser.CopyNested | frontend/src/app/libs/csvParser.ts:17-21 | the inner loop copies every key x of the nested result to `i.x`, in order |
| CsvParser.Flatten | frontend/src/app/libs/csvParser.ts:9-27 | an empty object or array flattens to nothing (its content is FlattenObject, FlattenKeys and FlattenIsPrimitive) |
| CsvParser.FlattenObject | frontend/src/app/libs/csvParser.ts:9-27 | the loops build exactly the recursive flattening |
| CsvParser.FlattenIsPrimitive | frontend/src/app/libs/csvParser.ts:9-27 | the flattened object holds no object or array values |
| CsvParser.FlattenPrefixDistinct | frontend/src/app/libs/csvParser.ts:9-27 | every key of the flattened object occurs once |
| CsvParser.FlattenKeys | frontend/src/app/libs/csvParser.ts:12-25 | the keys are exactly each primitive property's own key and `i.x` for each key x of each nested property i |
| CsvParser.EmptyNestedAddsNothing | frontend/src/app/libs/csvParser.ts:15-21 | an empty nested object or array contributes no key |
| CsvParser.ArraysWellKeyed | frontend/src/app/libs/csvParser.ts:12 | array indices are distinct numerals without a dot |
| CsvParser.StepKeeps | frontend/src/app/libs/csvParser.ts:12-25 | visiting one property leaves alone every dot-free key other than the property's own |
| CsvParser.LaterStepsKeep | frontend/src/app/libs/csvParser.ts:12-25 | a dot-free key that no later property names keeps its value to the end of the loop |
| CsvParser.StepKeepsDotted | frontend/src/app/libs/csvParser.ts:15-21 | visiting one property leaves alone the dotted keys under another dot-free key |
| CsvParser.LaterStepsKeepDotted | frontend/src/app/libs/csvParser.ts:12-25 | the dotted keys under a key that no later property names keep their values to the end of the loop |
| CsvParser.PrimitiveCopied | frontend/src/app/libs/csvParser.ts:22-24 | a primitive or null property keeps its key and value in the result |
| CsvParser.NestedKeyDotted | frontend/src/app/libs/csvParser.ts:15-21 | each key x of a nested property i is found under `i.x` with its nested value |
| CsvParser.Replacer | frontend/src/app/libs/csvParser.ts:29-30 | undefined and null become '' and every other value is kept |
| CsvParser.Stringify | frontend/src/app/libs/csvParser.ts:45 | null is written as `null`, and a string comes out between double quotes |
| CsvParser.MissingFieldIsBlank | frontend/src/app/libs/csvParser.ts:45 | a field the row lacks, or holds as null, is written as `""` |
| CsvParser.Field | frontend/src/app/libs/csvParser.ts:45 | a value the row holds, other than null, is written as `JSON.stringify` writes it |
| CsvParser.StringifyShape | frontend/src/app/libs/csvParser.ts:45 | `JSON.stringify` of a value other than null writes no line break and does not start with 'n' or 'u' |
| CsvParser.FieldShape | frontend/src/app/libs/csvParser.ts:45 | a field never holds a raw line break and is never 'null' or 'undefined' |
| CsvParser.FlatRows | frontend/src/app/libs/csvParser.ts:37 | there is one row per record, each free of nested values |
| CsvParser.FlatRowsFlatten | frontend/src/app/libs/csvParser.ts:37 | the i-th row is the flattening of the i-th record |
| CsvParser.HeaderIsWidest | frontend/src/app/libs/csvParser.ts:38-40 | the header row has the most keys, and on a tie it is the later row |
| CsvParser.HeaderIndex | frontend/src/app/libs/csvParser.ts:38-40 | the index picked lies among the rows scanned |
| CsvParser.RowFields | frontend/src/app/libs/csvParser.ts:43-47 | there is one field per header key, in header order |
| CsvParser.BodyLines | frontend/src/app/libs/csvParser.ts:43-47 | there is one line per row: its fields under the header joined by ', ' |
| CsvParser.RowLines | frontend/src/app/libs/csvParser.ts:43-48 | the header line comes first, then one line per row |
| CsvParser.CsvLines | frontend/src/app/libs/csvParser.ts:42-48 | the file has one line more than there are records: the header joined by ', ', then each row's fields joined by ', ' |
| CsvParser.CsvDownload | frontend/src/app/libs/csvParser.ts:32-49 | there is no file exactly when the dataset is empty |
| CsvParser.HeaderRowComplete | frontend/src/app/libs/csvParser.ts:38-45 | the header row has every header key |
| CsvParser.CsvLineCount | frontend/src/app/libs/csvParser.ts:43-49 | when the header keys hold no line break, the file has exactly one line break per record |
| CsvParser.RowLinesLine | frontend/src/app/libs/csvParser.ts:43-48 | no line of the file holds a line break of its own when the header keys hold none |
| CsvParser.RowLinesCount | frontend/src/app/libs/csvParser.ts:43-49 | joining the lines with '\n' gives exactly one break per row |
| CsvParser.FilterHeader | frontend/src/app/libs/csvParser.ts:76-80 | a key is kept exactly when it is selected and its last dotted segment is not excluded |
| CsvParser.NothingSelected | frontend/src/app/libs/csvParser.ts:66-80 | with no selected header, the filter keeps nothing |
| CsvParser.DownloadList | frontend/src/app/libs/csvParser.ts:62-93 | there is no file exactly when there are no records |
| CsvParser.DownloadListIsBlank | frontend/src/app/libs/csvParser.ts:62-93 | as configured, `downloadList` gives no file for no records, and otherwise one line break per record and nothing else |

## Left out

- Input and output are not modelled: HTTP responses, logging, the `next()` 500 path, the Blob/DOM download in `csvDownload` and `downloadList`, and the file names built from the clock.
- Concurrency is not modelled. Each handler is one atomic step on the tables, which stands for its transaction. The two reads that `create` makes before the transaction are taken from the same state.
- The purchase and sale list handlers ignore filters and pagination. `processFilters`, `queryWithFilter`, the shared `filters`, `read` and `destroy` validator libraries and `description.js` are not part of this model.
- The purchase filters by supplier name and by product name are not modelled: suppliers are kept only as a set of ids. The sale filter by product name is modelled as plain containment.
- `toTitleCase.js` is not part of this model. `ProductRules.TitleCase` assumes it upper-cases the first letter of each space-separated word and lower-cases the rest.
- `itemExists.js` is not part of this model. `ProductRules.NameTaken` assumes it reports a product found under the name whose id differs from the body's id.
- ProductRules.NameTaken / ProductRules.NameErrors: `findOne` returns one row and only that row's id is compared with the body's id; the model asks whether any product other than the body's own has the name. The two agree when at most one product carries the name (`ProductRules.NameTakenByPick`); with two products of the same name, which one `findOne` returns depends on the database and is not modelled.
- `models/product.ts` is not part of this model. A product is the fields the handlers and validators use: id, name, categoryId, unitCost, unitPrice, store and description. Its column constraints are not modelled.
- `PurchaseModel.ValidRow`, via the `quantity` column's UNSIGNED type: not enforced on write, because no handler relies on the database refusing a negative quantity, and the validators already demand at least 1.
- Floating point is not modelled exactly. The validator's `isFloat` reads plain decimals without an exponent, and the controllers' money values are integers. So `toFloat` feeding `unitCost * quantity` is integer arithmetic here.
- Input types are narrowed: `isNewProduct` is a boolean here, while purchase.ts:50 and :104 test the body field for JavaScript truthiness (so a text such as 'false' counts as true there); and ProductFilter takes each query value as one string, while express can also deliver an array for a repeated parameter.
- Checks.TrimStart / Checks.TrimEnd: only the six ASCII white-space characters (space, tab, line feed, vertical tab, form feed, carriage return) are trimmed. JavaScript's `trim()` also removes U+00A0, U+FEFF, U+1680, U+2000-U+200A, U+2028, U+2029, U+202F, U+205F and U+3000; those are kept here.
- PurchaseController.Create / Ledger.Ledger.CreatePurchase: model the corrected create of the Findings row, which stores `String(count + 1)` as the invoice number. The create as written, which stores the default 0, is modelled only by `PurchaseController.AsWrittenInvoiceIsDefault` and `PurchaseController.AsWrittenSecondInsertCollides`.
- `Checks.IsFloat`: does not accept exponent forms such as '1e3', which express-validator would accept. Such a value passes `min: 1` in the source but is refused here.
- The validator chains are assumed to run field after field, so that `req.body.unitCost` is already converted by `toFloat` when the unit price rule compares with it. A cost that is not a number gives NaN, and the comparison is then false.
- `Currency.ToRupiah`: `toFixed(2)` is modelled on integers only. Fractions and values too large for a plain numeral are not modelled. Only prices of 0 take the `!price` branch, because NaN and undefined are not part of the number type here.
- `numberFormat` in currency.ts is not modelled: it calls `toLocaleString`, which is locale data.
- The key order of `for...in` follows insertion, for objects and for arrays. JavaScript's rule that integer-like keys come first in an object is not modelled, and neither is the `hasOwnProperty` guard (there are no inherited properties here).
- The `created_at` date formatting in `downloadList` is never reached, because no header is selected. It is not modelled.
- `LIKE`/`ILIKE` wildcards inside the query text (`%` and `_` typed by a user) are not modelled. The name filter is containment on ASCII-lower-cased text.
- The texts of database errors (unique, foreign-key and primary-key violations) are not modelled. They are distinct `Inventory.Error` values whose message is None.
- The dashboard controller, the Yup schemas of the front end and the migrations are outside this model.

## Findings

| source | as written | input that shows it | evidently intended | confidence | as-written member | corrected member |
|---|---|---|---|---|---|---|
| backend/src/api/controllers/purchase.ts:97 | `create` passes the invoice number as `invoice_no`, which is not an attribute of the Purchase model (backend/src/models/purchase.ts:146-150 declares `invoiceNo`). So every row takes the column default 0 | purchases table holding one row with invoice "0"; any further create request | the row stores `String(count + 1)` in `invoiceNo` | not executed | PurchaseController.AsWrittenSecondInsertCollides | PurchaseController.CorrectedInvoiceStored |
