/**
 * backend/src/api/controllers/purchase.ts as functions of the tables.
 * Each write handler runs inside one database transaction: a Failure means
 * the transaction rolled back (or never began) and the tables are
 * unchanged; a Success carries the tables after the commit. The ledger
 * class in ledger.dfy performs the same steps in place.
 */
module PurchaseController {
  import opened Wrappers
  import opened Text
  import opened Inventory
  import Common
  import PurchaseModel

  type Purchase = PurchaseModel.Purchase

  /** The body of a create request, after the validator's sanitisers. */
  datatype CreateRequest = CreateRequest(
    supplierId: Id,
    productId: Id,
    quantity: int,
    unitCost: int,
    unitPrice: int,
    description: Option<string>,
    isNewProduct: bool,
    location: Option<string>)

  /** The body of an update request; an absent location or description is None. */
  datatype UpdateRequest = UpdateRequest(
    id: Id,
    supplierId: Id,
    productId: Id,
    quantity: int,
    unitCost: int,
    unitPrice: int,
    location: Option<string>,
    description: Option<string>)

  /** `String(count + 1)`, where count is the number of purchase rows. */
  function NextInvoiceNo(t: Tables): string
  {
    NatToString(|t.purchases| + 1)
  }

  /** `enumFromStringValue(Location, req.body.location) ?? Location.STORE` */
  function CreateLocation(req: CreateRequest): string
  {
    Common.EnumFromStringValue(PurchaseModel.LocationValues, req.location)
      .GetOr(PurchaseModel.LocationValue(PurchaseModel.Store))
  }

  /**
   * The attributes the handler intends to insert, with the invoice number
   * stored in the invoiceNo column.
   */
  function Creation(req: CreateRequest, location: string, totalPrice: int, invoiceNo: string)
    : PurchaseModel.PurchaseCreation
  {
    PurchaseModel.PurchaseCreation(
      req.productId, req.supplierId, Some(req.quantity), Some(req.unitCost), Some(req.unitPrice),
      Some(totalPrice), Some(location), Some(invoiceNo), req.description)
  }

  /**
   * The attributes as the source writes them: the number goes under the key
   * `invoice_no`, which is not a model attribute, so the ORM leaves
   * invoiceNo unset and its column default applies.
   */
  function CreationAsWritten(req: CreateRequest, location: string, totalPrice: int, invoiceNo: string)
    : PurchaseModel.PurchaseCreation
  {
    Creation(req, location, totalPrice, invoiceNo).(invoiceNo := None)
  }

  /** The store count a create writes: `store = quantity` for a new product, `store += quantity` otherwise. */
  function StoreAfterCreate(store: int, location: string, isNewProduct: bool, quantity: int): (r: int)
    ensures location != "store" ==> r == store
    ensures location == "store" && isNewProduct ==> r == quantity
    ensures location == "store" && !isNewProduct ==> r - store == quantity
  {
    if location == "store" then
      if isNewProduct then quantity else store + quantity
    else store
  }

  /** What the database refuses when the row is inserted: a taken key, a taken invoice number, a missing foreign row. */
  function InsertError(t: Tables, row: Purchase): (r: Option<Error>)
    ensures r.None? <==> row.id !in t.purchases && row.invoiceNo !in PurchaseModel.InvoiceNumbers(t.purchases)
                         && row.supplierId in t.suppliers && row.productId in t.products
    ensures r.Some? ==> r.value in {PrimaryKeyViolation, UniqueViolation, ForeignKeyViolation}
    ensures row.id in t.purchases ==> r == Some(PrimaryKeyViolation)
  {
    if row.id in t.purchases then Some(PrimaryKeyViolation)
    else if row.invoiceNo in PurchaseModel.InvoiceNumbers(t.purchases) then Some(UniqueViolation)
    else if row.supplierId !in t.suppliers || row.productId !in t.products then Some(ForeignKeyViolation)
    else None
  }

  /** The row `create` inserts under the generated key newId. */
  function NewRow(t: Tables, req: CreateRequest, newId: Id): Purchase
  {
    PurchaseModel.Build(newId, Creation(req, CreateLocation(req), req.unitCost * req.quantity, NextInvoiceNo(t)))
  }

  /**
   * `create`. The supplier lookup is never awaited, so it cannot fail; the
   * product must exist. Inside the transaction the row is inserted, the new
   * store is computed, a negative store throws, and the product's unitCost,
   * unitPrice and store are overwritten.
   */
  function Create(t: Tables, req: CreateRequest, newId: Id): (r: Result<Change<Purchase>>)
    ensures req.productId !in t.products ==> r == Failure(ProductNotFound)
    ensures r.Success? ==> newId !in t.purchases && r.value.row.id == newId
                           && r.value.after.purchases == t.purchases[newId := r.value.row]
  {
    if req.productId !in t.products then Failure(ProductNotFound)
    else
      var product := t.products[req.productId];
      var row := NewRow(t, req, newId);
      var err := InsertError(t, row);
      if err.Some? then Failure(err.value)
      else
        var store := StoreAfterCreate(product.store, row.location, req.isNewProduct, req.quantity);
        if store < 0 then Failure(PurchaseCreateNegative)
        else
          Success(Change(row, t.(
            purchases := t.purchases[newId := row],
            products := t.products[req.productId :=
              product.(unitCost := req.unitCost, unitPrice := req.unitPrice, store := store)])))
  }

  /** `read` */
  function Read(t: Tables, id: Id): (r: Result<Purchase>)
    ensures r.Success? <==> id in t.purchases
    ensures r.Success? ==> r.value == t.purchases[id]
    ensures r.Failure? ==> r.error == PurchaseNotFound
  {
    if id in t.purchases then Success(t.purchases[id]) else Failure(PurchaseNotFound)
  }

  /** `purchases`, without the unseen filters and pagination. */
  function List(t: Tables): (r: Result<map<Id, Purchase>>)
    ensures r.Success? <==> t.purchases != map[]
    ensures r.Success? ==> r.value == t.purchases
    ensures r.Failure? ==> r.error == NoPurchasesFound
  {
    if |t.purchases| > 0 then Success(t.purchases) else Failure(NoPurchasesFound)
  }

  /**
   * The store count an update writes when location is 'store': the previous
   * quantity is added when the quantity grows, the new quantity subtracted
   * when it shrinks, and nothing changes when it stays.
   */
  function StoreAfterUpdate(store: int, atStore: bool, prevQuantity: int, quantity: int): (r: int)
    ensures !atStore || quantity == prevQuantity ==> r == store
    ensures atStore && quantity > prevQuantity ==> r - store == prevQuantity
    ensures atStore && quantity < prevQuantity ==> store - r == quantity
  {
    if !atStore then store
    else if quantity > prevQuantity then store + prevQuantity
    else if quantity < prevQuantity then store - quantity
    else store
  }

  /**
   * `update`. The purchase and the (new) product must exist; with location
   * 'store' a product whose store is already negative throws. Undefined
   * attributes are left as they are. The response carries the purchase as
   * read before the update.
   */
  function Update(t: Tables, req: UpdateRequest): (r: Result<Change<Purchase>>)
    ensures req.id !in t.purchases ==> r == Failure(PurchaseNotFound)
    ensures r.Success? ==> req.id in t.purchases && req.productId in t.products && r.value.row == t.purchases[req.id]
  {
    if req.id !in t.purchases then Failure(PurchaseNotFound)
    else if req.productId !in t.products then Failure(ProductNotFound)
    else
      var purchase := t.purchases[req.id];
      var product := t.products[req.productId];
      var atStore := req.location == Some("store");
      if atStore && product.store < 0 then Failure(PurchaseUpdateNegative)
      else
        var store := StoreAfterUpdate(product.store, atStore, purchase.quantity, req.quantity);
        var row := purchase.(
          supplierId := req.supplierId, productId := req.productId, quantity := req.quantity,
          unitCost := req.unitCost, unitPrice := req.unitPrice,
          location := req.location.GetOr(purchase.location),
          description := if req.description.Some? then req.description else purchase.description,
          totalPrice := req.unitCost * req.quantity);
        if row.supplierId !in t.suppliers then Failure(ForeignKeyViolation)
        else
          Success(Change(purchase, t.(
            purchases := t.purchases[req.id := row],
            products := t.products[req.productId :=
              product.(store := store, unitCost := req.unitCost, unitPrice := req.unitPrice)])))
  }

  /** `destroy`: deletes the named rows; the row of the change is the number deleted. */
  function Destroy(t: Tables, ids: set<Id>): (c: Change<nat>)
    ensures c.after.purchases.Keys == t.purchases.Keys - ids
    ensures c.row <= |ids| && c.row + |c.after.purchases| == |t.purchases|
  {
    var gone := ids * t.purchases.Keys;
    assert t.purchases.Keys == (t.purchases - ids).Keys + gone;
    assert (t.purchases - ids).Keys * gone == {};
    Change(|gone|, t.(purchases := t.purchases - ids))
  }

  /** The response is a success exactly when the deleted count equals `id.length` of the raw parameter. */
  predicate DestroyReportsSuccess(affected: nat, idLength: nat)
  {
    affected == idLength
  }

  // ---------------------------------------------------------------- create

  /** When create succeeds and when it fails, and with which error first. */
  lemma CreateOutcome(t: Tables, req: CreateRequest, newId: Id)
    ensures var r := Create(t, req, newId);
            && (req.productId !in t.products ==> r == Failure(ProductNotFound))
            && (r.Success? <==>
                  && req.productId in t.products
                  && newId !in t.purchases
                  && NextInvoiceNo(t) !in PurchaseModel.InvoiceNumbers(t.purchases)
                  && req.supplierId in t.suppliers
                  && StoreAfterCreate(t.products[req.productId].store, "store", req.isNewProduct, req.quantity) >= 0)
  {
    CreateLocationIsStore(req);
  }

  /** With the supplier and product present, a positive quantity and a non-negative store, only the database can refuse the insert. */
  lemma CreateFailsOnlyInDatabase(t: Tables, req: CreateRequest, newId: Id)
    requires req.supplierId in t.suppliers && req.productId in t.products
    requires req.quantity >= 1 && t.products[req.productId].store >= 0
    ensures Create(t, req, newId).Failure? ==>
              Create(t, req, newId).error in {PrimaryKeyViolation, UniqueViolation}
  {
    CreateLocationIsStore(req);
  }

  /** Whatever the request says, a created purchase is at 'store'. */
  lemma CreateLocationIsStore(req: CreateRequest)
    ensures CreateLocation(req) == "store"
  {
  }

  /** What a successful create writes, and that it writes nothing else. */
  lemma CreateWrites(t: Tables, req: CreateRequest, newId: Id)
    requires Create(t, req, newId).Success?
    ensures var c := Create(t, req, newId).value;
            var prev := t.products[req.productId];
            var store := if req.isNewProduct then req.quantity else prev.store + req.quantity;
            && c.row == PurchaseModel.Purchase(
                 newId, req.productId, req.supplierId, req.quantity, req.unitCost, req.unitPrice,
                 req.unitCost * req.quantity, "store", NatToString(|t.purchases| + 1), req.description)
            && c.after.purchases == t.purchases[newId := c.row]
            && |c.after.purchases| == |t.purchases| + 1
            && c.after.products.Keys == t.products.Keys
            && c.after.products[req.productId]
               == prev.(unitCost := req.unitCost, unitPrice := req.unitPrice, store := store)
            && store >= 0
            && (forall k :: k in t.products && k != req.productId ==> c.after.products[k] == t.products[k])
            && c.after.sales == t.sales && c.after.suppliers == t.suppliers
  {
    CreateLocationIsStore(req);
  }

  /** A create whose resulting store would be negative writes nothing. */
  lemma CreateRejectsNegativeStore(t: Tables, req: CreateRequest, newId: Id)
    requires req.productId in t.products
    requires StoreAfterCreate(t.products[req.productId].store, "store", req.isNewProduct, req.quantity) < 0
    ensures Create(t, req, newId).Failure?
  {
    CreateLocationIsStore(req);
  }

  /** A create keeps the database's invariants. */
  lemma CreatePreservesValid(t: Tables, req: CreateRequest, newId: Id)
    requires Valid(t) && Create(t, req, newId).Success?
    ensures Valid(Create(t, req, newId).value.after)
  {
    var c := Create(t, req, newId).value;
    PurchaseModel.InsertKeepsUniqueIff(t.purchases, newId, c.row);
  }

  // ---------------------------------------------------------------- update

  /** The rule update applies to the product's store, case by case. */
  lemma UpdateStoreRule(t: Tables, req: UpdateRequest)
    requires req.id in t.purchases && req.productId in t.products
    ensures var r := Update(t, req);
            var store := t.products[req.productId].store;
            var prev := t.purchases[req.id].quantity;
            && (req.location == Some("store") && store < 0 ==> r == Failure(PurchaseUpdateNegative))
            && (r.Success? ==>
                  var s := r.value.after.products[req.productId].store;
                  && (req.location != Some("store") ==> s == store)
                  && (req.location == Some("store") && req.quantity > prev ==> s == store + prev)
                  && (req.location == Some("store") && req.quantity < prev ==> s == store - req.quantity)
                  && (req.quantity == prev ==> s == store))
            && (r.Success? <==> req.supplierId in t.suppliers && !(req.location == Some("store") && store < 0))
  {
  }

  /** What a successful update writes: the row, the product's cost, price and store, and nothing else. */
  lemma UpdateWrites(t: Tables, req: UpdateRequest)
    requires Update(t, req).Success?
    ensures var c := Update(t, req).value;
            var p := t.purchases[req.id];
            var product := t.products[req.productId];
            && c.row == p
            && c.after.purchases == t.purchases[req.id := p.(
                 supplierId := req.supplierId, productId := req.productId, quantity := req.quantity,
                 unitCost := req.unitCost, unitPrice := req.unitPrice,
                 location := req.location.GetOr(p.location),
                 description := if req.description.Some? then req.description else p.description,
                 totalPrice := req.unitCost * req.quantity)]
            && c.after.purchases.Keys == t.purchases.Keys
            && c.after.purchases[req.id].invoiceNo == p.invoiceNo
            && (forall k :: k in t.purchases && k != req.id ==> c.after.purchases[k] == t.purchases[k])
            && c.after.products.Keys == t.products.Keys
            && c.after.products[req.productId] == product.(
                 store := StoreAfterUpdate(product.store, req.location == Some("store"), p.quantity, req.quantity),
                 unitCost := req.unitCost, unitPrice := req.unitPrice)
            && (forall k :: k in t.products && k != req.productId ==> c.after.products[k] == t.products[k])
            && c.after.sales == t.sales && c.after.suppliers == t.suppliers
  {
  }

  /**
   * The rule is not "apply the difference": raising a quantity from 5 to 7
   * on a product holding 10 leaves 15, not 12; lowering it from 7 to 5 leaves 5, not 8.
   */
  lemma UpdateDoesNotApplyDelta()
    ensures StoreAfterUpdate(10, true, 5, 7) == 15 && 10 + (7 - 5) == 12
    ensures StoreAfterUpdate(10, true, 7, 5) == 5 && 10 + (5 - 7) == 8
  {
  }

  /** An update keeps the database's invariants. */
  lemma UpdatePreservesValid(t: Tables, req: UpdateRequest)
    requires Valid(t) && Update(t, req).Success?
    ensures Valid(Update(t, req).value.after)
  {
    var c := Update(t, req).value;
    PurchaseModel.UpdateKeepsUnique(t.purchases, req.id, c.after.purchases[req.id]);
  }

  // ---------------------------------------------------------------- destroy

  /** Destroy deletes exactly the named rows and never touches a product's store. */
  lemma DestroyKeepsStock(t: Tables, ids: set<Id>)
    ensures var c := Destroy(t, ids);
            && c.after.products == t.products
            && c.after.sales == t.sales && c.after.suppliers == t.suppliers
            && c.after.purchases.Keys == t.purchases.Keys - ids
            && (forall k :: k in c.after.purchases ==> c.after.purchases[k] == t.purchases[k])
            && c.row == |ids * t.purchases.Keys|
  {
  }

  /** Destroy keeps the database's invariants. */
  lemma DestroyPreservesValid(t: Tables, ids: set<Id>)
    requires Valid(t)
    ensures Valid(Destroy(t, ids).after)
  {
  }

  /** Deleting a purchase that added stock leaves the added stock in place. */
  lemma CreateThenDestroyKeepsStock(t: Tables, req: CreateRequest, newId: Id)
    requires Create(t, req, newId).Success? && !req.isNewProduct && req.quantity != 0
    ensures var after := Destroy(Create(t, req, newId).value.after, {newId}).after;
            && after.purchases == t.purchases
            && after.products[req.productId].store == t.products[req.productId].store + req.quantity
            && after.products[req.productId].store != t.products[req.productId].store
  {
    var c := Create(t, req, newId).value;
    CreateWrites(t, req, newId);
    assert c.after.purchases - {newId} == t.purchases;
  }

  // ---------------------------------------------------------------- invoice numbers

  /** Every invoice number is the numeral of some n in 1..|purchases|: what count+1 numbering gives without deletions. */
  predicate DenseInvoices(t: Tables)
  {
    forall k :: k in t.purchases ==>
      exists n :: 1 <= n <= |t.purchases| && t.purchases[k].invoiceNo == NatToString(n)
  }

  /** Without deletions, the next number is never taken. */
  lemma DenseNextInvoiceFree(t: Tables)
    requires DenseInvoices(t)
    ensures NextInvoiceNo(t) !in PurchaseModel.InvoiceNumbers(t.purchases)
  {
    if NextInvoiceNo(t) in PurchaseModel.InvoiceNumbers(t.purchases) {
      var k :| k in t.purchases && t.purchases[k].invoiceNo == NextInvoiceNo(t);
      var n :| 1 <= n <= |t.purchases| && t.purchases[k].invoiceNo == NatToString(n);
      NatToStringInjective(n, |t.purchases| + 1);
    }
  }

  /** Creates and updates keep the numbering dense; an empty table is dense. */
  lemma CreateKeepsDense(t: Tables, req: CreateRequest, newId: Id)
    requires DenseInvoices(t) && Create(t, req, newId).Success?
    ensures DenseInvoices(Create(t, req, newId).value.after)
  {
    var c := Create(t, req, newId).value;
    var p := c.after.purchases;
    assert |p| == |t.purchases| + 1;
    forall k | k in p
      ensures exists n :: 1 <= n <= |p| && p[k].invoiceNo == NatToString(n)
    {
      if k == newId {
        assert p[k].invoiceNo == NatToString(|t.purchases| + 1);
      } else {
        var n :| 1 <= n <= |t.purchases| && t.purchases[k].invoiceNo == NatToString(n);
        assert p[k].invoiceNo == NatToString(n);
      }
    }
  }

  lemma UpdateKeepsDense(t: Tables, req: UpdateRequest)
    requires DenseInvoices(t) && Update(t, req).Success?
    ensures DenseInvoices(Update(t, req).value.after)
  {
    var p := Update(t, req).value.after.purchases;
    assert |p| == |t.purchases| by { assert p.Keys == t.purchases.Keys; }
    forall k | k in p
      ensures exists n :: 1 <= n <= |p| && p[k].invoiceNo == NatToString(n)
    {
      var n :| 1 <= n <= |t.purchases| && t.purchases[k].invoiceNo == NatToString(n);
      assert p[k].invoiceNo == NatToString(n);
    }
  }

  /**
   * Once rows have been deleted, count+1 numbering can hand out a number
   * that is still in use, and the unique index refuses the next create.
   * With invoices "1" and "2", deleting the first makes the next number "2".
   */
  lemma CollisionAfterDestroy(t: Tables, ids: set<Id>, req: CreateRequest, newId: Id)
    requires req.productId in t.products
    requires newId in ids || newId !in t.purchases
    requires NatToString(|t.purchases - ids| + 1) in PurchaseModel.InvoiceNumbers(t.purchases - ids)
    ensures Create(Destroy(t, ids).after, req, newId) == Failure(UniqueViolation)
  {
    var t1 := Destroy(t, ids).after;
    assert t1.purchases == t.purchases - ids;
    var row := NewRow(t1, req, newId);
    assert row.invoiceNo == NatToString(|t.purchases - ids| + 1) && row.id == newId;
    assert InsertError(t1, row) == Some(UniqueViolation);
  }

  /**
   * The premise above is reachable from a dense table: with two purchases
   * numbered 1 and 2, destroying the first makes the next create collide.
   */
  lemma CollisionReachable(t: Tables, a: Id, b: Id, req: CreateRequest, newId: Id)
    requires a != b && t.purchases.Keys == {a, b}
    requires t.purchases[a].invoiceNo == NatToString(1) && t.purchases[b].invoiceNo == NatToString(2)
    requires req.productId in t.products && newId !in t.purchases
    ensures DenseInvoices(t)
    ensures Create(Destroy(t, {a}).after, req, newId) == Failure(UniqueViolation)
  {
    assert |t.purchases| == 2 by { assert |t.purchases.Keys| == |{a, b}| == 2; }
    var rest := t.purchases - {a};
    assert rest.Keys == {b};
    assert |rest| == 1 by { assert |rest.Keys| == |{b}| == 1; }
    assert b in rest && rest[b].invoiceNo == NatToString(2);
    CollisionAfterDestroy(t, {a}, req, newId);
  }

  /** As written, every created row gets the invoiceNo column default "0". */
  lemma AsWrittenInvoiceIsDefault(req: CreateRequest, newId: Id, location: string, totalPrice: int, invoiceNo: string)
    ensures PurchaseModel.Build(newId, CreationAsWritten(req, location, totalPrice, invoiceNo)).invoiceNo == "0"
  {
  }

  /** As written, once one purchase exists every further insert clashes with the unique index. */
  lemma AsWrittenSecondInsertCollides(t: Tables, req: CreateRequest, first: Id, newId: Id)
    requires first in t.purchases && newId !in t.purchases
    requires t.purchases[first].invoiceNo == "0"
    ensures var row := PurchaseModel.Build(newId,
              CreationAsWritten(req, CreateLocation(req), req.unitCost * req.quantity, NextInvoiceNo(t)));
            InsertError(t, row) == Some(UniqueViolation)
  {
  }

  /** With the number stored, the row carries it, and it never clashes while nothing has been deleted. */
  lemma CorrectedInvoiceStored(t: Tables, req: CreateRequest, newId: Id)
    requires DenseInvoices(t)
    ensures NewRow(t, req, newId).invoiceNo == NextInvoiceNo(t)
    ensures NewRow(t, req, newId).invoiceNo !in PurchaseModel.InvoiceNumbers(t.purchases)
  {
    DenseNextInvoiceFree(t);
  }
}
