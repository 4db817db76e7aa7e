/**
 * The tables the purchase and sale handlers read and write, the errors they
 * answer with, and the invariants the database keeps between requests.
 * The product model (backend/src/models/product.ts) is not part of this
 * model; its row carries the fields the handlers and validators use.
 */
module Inventory {
  import opened Wrappers
  import opened Text
  import PurchaseModel
  import SaleModel

  type Id = string

  /** A row of the products table; `store` is the on-hand quantity. */
  datatype Product = Product(
    id: Id,
    name: string,
    categoryId: Id,
    unitCost: int,
    unitPrice: int,
    store: int,
    description: Option<string>)

  /** The database as the handlers see it. Suppliers are only read here. */
  datatype Tables = Tables(
    products: map<Id, Product>,
    purchases: map<Id, PurchaseModel.Purchase>,
    sales: map<Id, SaleModel.Sale>,
    suppliers: set<Id>)

  /** Why a request was answered with an error (HTTP 400); nothing was written. */
  datatype Error =
    | ProductNotFound
    | PurchaseNotFound
    | SaleNotFound
    | NoPurchasesFound
    | NoSalesFound
    | OnlyLeftInStore(store: int)
    | PurchaseCreateNegative
    | PurchaseUpdateNegative
      /** the insert clashed with the unique index on invoiceNo */
    | UniqueViolation
      /** the generated primary key is already taken */
    | PrimaryKeyViolation
      /** the row names a supplier or product that does not exist */
    | ForeignKeyViolation

  /** The `error` text of the response; None where the text comes from the database driver. */
  function Message(e: Error): (r: Option<string>)
    ensures r.None? <==> e in {UniqueViolation, PrimaryKeyViolation, ForeignKeyViolation}
    ensures r.Some? ==> r.value != ""
  {
    match e
    case ProductNotFound => Some("Product not found")
    case PurchaseNotFound => Some("Purchase not found")
    case SaleNotFound => Some("Sale not found")
    case NoPurchasesFound => Some("No purchases found")
    case NoSalesFound => Some("No sales found")
    case OnlyLeftInStore(n) => Some("Only " + IntToString(n) + " items are left in store")
    case PurchaseCreateNegative => Some("Purchase creation will result in a negative value for items in store")
    case PurchaseUpdateNegative => Some("Purchase update will result in a negative value for items in store")
    case UniqueViolation => None
    case PrimaryKeyViolation => None
    case ForeignKeyViolation => None
  }

  datatype Result<T> = Success(value: T) | Failure(error: Error)

  /** A successful write: the row the response carries and the tables after the commit. */
  datatype Change<T> = Change(row: T, after: Tables)

  /** Every row is stored under its own primary key. */
  predicate KeysMatch(t: Tables)
  {
    && (forall k :: k in t.products ==> t.products[k].id == k)
    && (forall k :: k in t.purchases ==> t.purchases[k].id == k)
    && (forall k :: k in t.sales ==> t.sales[k].id == k)
  }

  /** The foreign keys of purchases and sales name existing rows. */
  predicate ReferencesExist(t: Tables)
  {
    && (forall k :: k in t.purchases ==> t.purchases[k].productId in t.products)
    && (forall k :: k in t.purchases ==> t.purchases[k].supplierId in t.suppliers)
    && (forall k :: k in t.sales ==> t.sales[k].productId in t.products)
  }

  /** What the database guarantees between requests: keys, foreign keys and both unique indexes. */
  predicate Valid(t: Tables)
  {
    && KeysMatch(t)
    && ReferencesExist(t)
    && PurchaseModel.UniqueInvoices(t.purchases)
    && SaleModel.UniqueInvoices(t.sales)
  }
}
