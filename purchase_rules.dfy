/**
 * The request validators of backend/src/middlewares/validators/rules/purchase.ts.
 * Each field's chain sanitises the raw text (trim, escape) and then runs its
 * checks in order, adding its message for each check that fails and
 * stopping at a `bail()` once an earlier check of the chain has failed. A
 * request is accepted when no chain reports a message. An absent field
 * arrives as "".
 */
module PurchaseRules {
  import opened Wrappers
  import opened Checks
  import opened Inventory
  import PC = PurchaseController

  /** The raw text of the body fields the rules look at. */
  datatype Body = Body(
    id: string,
    supplierId: string,
    productId: string,
    quantity: string,
    unitCost: string,
    unitPrice: string,
    location: string)

  /** `supplierId`: required, then (after `bail`) an existing supplier. */
  function SupplierIdErrors(raw: string, suppliers: set<Id>): (r: seq<string>)
    ensures r == [] <==> Clean(raw) != "" && Clean(raw) in suppliers
    ensures Clean(raw) == "" ==> r == ["Supplier id is required"]
  {
    var v := Clean(raw);
    if v == "" then ["Supplier id is required"]
    else if v !in suppliers then ["Supplier not found"]
    else []
  }

  /** `productId`: required, then (after `bail`) an existing product. */
  function ProductIdErrors(raw: string, products: map<Id, Product>): (r: seq<string>)
    ensures r == [] <==> Clean(raw) != "" && Clean(raw) in products
    ensures Clean(raw) == "" ==> r == ["Product id is required"]
  {
    var v := Clean(raw);
    if v == "" then ["Product id is required"]
    else if v !in products then ["Product not found"]
    else []
  }

  /** `quantity`: required, and an integer of at least 1. */
  function QuantityErrors(raw: string): (r: seq<string>)
    ensures r == [] <==> IsIntMin(Clean(raw), 1)
    ensures Clean(raw) == "" ==> r == ["Quantity of items purchased is required", "Quantity of items purchased must be greater than 0"]
  {
    var v := Clean(raw);
    (if v == "" then ["Quantity of items purchased is required"] else [])
    + (if !IsIntMin(v, 1) then ["Quantity of items purchased must be greater than 0"] else [])
  }

  /** `unitCost`: required, and a decimal of at least 1. */
  function UnitCostErrors(raw: string): (r: seq<string>)
    ensures r == [] <==> IsFloatMin(Clean(raw), 1.0)
  {
    var v := Clean(raw);
    (if v == "" then ["Unit cost is required"] else [])
    + (if !IsFloatMin(v, 1.0) then ["Unit cost must be greater than 1.00"] else [])
  }

  /** `unitPrice`: required, a decimal of at least 1, and not below the unit cost. */
  function UnitPriceErrors(raw: string, rawCost: string): (r: seq<string>)
    ensures r == [] <==> IsFloatMin(Clean(raw), 1.0) && !FloatLess(Clean(raw), Clean(rawCost))
  {
    var v := Clean(raw);
    var atLeastOne := IsFloatMin(v, 1.0);
    var belowCost := FloatLess(v, Clean(rawCost));
    EmptyIsNotFloat();
    (if v == "" then ["Unit price is required"] else [])
    + (if !atLeastOne then ["Unit price must be greater than 1.00"] else [])
    + (if belowCost then ["Harga jual harus lebih besar dari harga beli"] else [])
  }

  /** `location`: required, alphabetic, and one of ['store']; every failing check reports. */
  function LocationErrors(raw: string): (r: seq<string>)
    ensures r == [] <==> Clean(raw) == "store"
    ensures Clean(raw) == "" ==> r == ["Location is required", "Location must be alphabetic", "Valid locations are 'store'"]
  {
    var v := Clean(raw);
    assert IsAlpha("store") by {
      assert forall i :: 0 <= i < 5 ==> "store"[i] in "store";
    }
    (if !NotEmpty(v) then ["Location is required"] else [])
    + (if !IsAlpha(v) then ["Location must be alphabetic"] else [])
    + (if !IsIn(v, ["store"]) then ["Valid locations are 'store'"] else [])
  }

  /** `commonRules`, in declaration order. */
  function CommonErrors(b: Body, t: Tables): seq<string>
  {
    SupplierIdErrors(b.supplierId, t.suppliers)
    + ProductIdErrors(b.productId, t.products)
    + QuantityErrors(b.quantity)
    + UnitCostErrors(b.unitCost)
    + UnitPriceErrors(b.unitPrice, b.unitCost)
    + LocationErrors(b.location)
  }

  /** `purchaseRules.create` */
  function CreateErrors(b: Body, t: Tables): (r: seq<string>)
    ensures r == [] <==> AcceptableCreate(b, t)
  {
    CommonErrors(b, t)
  }

  /** The update's `id`: required, then (after `bail`) an existing purchase. */
  function IdErrors(raw: string, purchases: map<Id, PC.Purchase>): (r: seq<string>)
    ensures r == [] <==> Clean(raw) != "" && Clean(raw) in purchases
  {
    var v := Clean(raw);
    if v == "" then ["Purchase id is required"]
    else if v !in purchases then ["Purchase not found"]
    else []
  }

  /** `purchaseRules.update`: the id first, then the common rules. */
  function UpdateErrors(b: Body, t: Tables): (r: seq<string>)
    ensures r == [] <==> Clean(b.id) != "" && Clean(b.id) in t.purchases && AcceptableCreate(b, t)
  {
    IdErrors(b.id, t.purchases) + CommonErrors(b, t)
  }

  /** What an accepted create body is, stated field by field. */
  predicate AcceptableCreate(b: Body, t: Tables)
  {
    var cost := Clean(b.unitCost);
    var price := Clean(b.unitPrice);
    && Clean(b.supplierId) != "" && Clean(b.supplierId) in t.suppliers
    && Clean(b.productId) != "" && Clean(b.productId) in t.products
    && IsIntMin(Clean(b.quantity), 1)
    && IsFloatMin(cost, 1.0)
    && IsFloatMin(price, 1.0)
    && FloatValue(price) >= FloatValue(cost)
    && Clean(b.location) == "store"
  }

  /** An empty body reports every required-field message, in field order. */
  lemma EmptyBodyMessages(t: Tables)
    ensures var b := Body("", "", "", "", "", "", "");
            CreateErrors(b, t) == [
              "Supplier id is required",
              "Product id is required",
              "Quantity of items purchased is required",
              "Quantity of items purchased must be greater than 0",
              "Unit cost is required",
              "Unit cost must be greater than 1.00",
              "Unit price is required",
              "Unit price must be greater than 1.00",
              "Location is required",
              "Location must be alphabetic",
              "Valid locations are 'store'"]
  {
    assert Clean("") == "";
    assert !IsFloat("");
    assert SupplierIdErrors("", t.suppliers) == ["Supplier id is required"];
    assert ProductIdErrors("", t.products) == ["Product id is required"];
    assert UnitCostErrors("") == ["Unit cost is required", "Unit cost must be greater than 1.00"];
    assert UnitPriceErrors("", "") == ["Unit price is required", "Unit price must be greater than 1.00"];
  }

  /** The create request the handler reads from an accepted body; cost and price are the handler's integers. */
  predicate ReadsCreate(b: Body, req: PC.CreateRequest)
  {
    && req.supplierId == Clean(b.supplierId)
    && req.productId == Clean(b.productId)
    && IsInt(Clean(b.quantity)) && req.quantity == IntValue(Clean(b.quantity))
  }

  /**
   * After the validators accept a body, create can only fail on the
   * primary key or the invoice-number index, provided the product's store
   * is not already negative.
   */
  lemma AcceptedCreateFailsOnlyInDatabase(b: Body, t: Tables, req: PC.CreateRequest, newId: Id)
    requires CreateErrors(b, t) == [] && ReadsCreate(b, req)
    requires Clean(b.productId) in t.products && t.products[Clean(b.productId)].store >= 0
    ensures PC.Create(t, req, newId).Failure? ==>
              PC.Create(t, req, newId).error in {PrimaryKeyViolation, UniqueViolation}
  {
    AcceptableCreateFailsOnlyInDatabase(b, t, req, newId);
  }

  /** The same, for a body that meets every field rule. */
  lemma AcceptableCreateFailsOnlyInDatabase(b: Body, t: Tables, req: PC.CreateRequest, newId: Id)
    requires AcceptableCreate(b, t) && ReadsCreate(b, req)
    requires Clean(b.productId) in t.products && t.products[Clean(b.productId)].store >= 0
    ensures PC.Create(t, req, newId).Failure? ==>
              PC.Create(t, req, newId).error in {PrimaryKeyViolation, UniqueViolation}
  {
    PC.CreateFailsOnlyInDatabase(t, req, newId);
  }

  /** The update request the handler reads from an accepted body. */
  predicate ReadsUpdate(b: Body, req: PC.UpdateRequest)
  {
    && req.id == Clean(b.id)
    && req.supplierId == Clean(b.supplierId)
    && req.productId == Clean(b.productId)
    && IsInt(Clean(b.quantity)) && req.quantity == IntValue(Clean(b.quantity))
    && req.location == Some(Clean(b.location))
  }

  /** After the validators accept an update body, the update fails only on a product whose store is already negative. */
  lemma AcceptedUpdateFailsOnlyOnNegativeStore(b: Body, t: Tables, req: PC.UpdateRequest)
    requires UpdateErrors(b, t) == [] && ReadsUpdate(b, req)
    ensures PC.Update(t, req).Failure? ==>
              && PC.Update(t, req).error == PurchaseUpdateNegative
              && t.products[req.productId].store < 0
  {
  }
}
