/**
 * The request validators of backend/src/middlewares/validators/rules/sale.ts,
 * read as in purchase_rules.dfy: each chain sanitises, checks in order and
 * reports a message per failing check; an absent field arrives as "".
 */
module SaleRules {
  import opened Wrappers
  import opened Text
  import opened Checks
  import opened Inventory
  import SC = SaleController

  /** The raw text of the body fields a sale request carries. */
  datatype Body = Body(id: string, productId: string, quantity: string, description: string)

  /** The shared `quantity` chain: required, and an integer of at least 1. */
  function QuantityErrors(raw: string): (r: seq<string>)
    ensures r == [] <==> IsIntMin(Clean(raw), 1)
    ensures Clean(raw) == "" ==> r == ["Quantity of items sold is required", "Quantity of items sold must be greater than 0"]
  {
    var v := Clean(raw);
    (if v == "" then ["Quantity of items sold is required"] else [])
    + (if !IsIntMin(v, 1) then ["Quantity of items sold must be greater than 0"] else [])
  }

  /** The create's `productId`: required, then (after `bail`) an existing product. */
  function ProductIdErrors(raw: string, products: map<Id, Product>): (r: seq<string>)
    ensures r == [] <==> Clean(raw) != "" && Clean(raw) in products
    ensures Clean(raw) == "" ==> r == ["Product id is required"]
  {
    var v := Clean(raw);
    if v == "" then ["Product id is required"]
    else if v !in products then ["Product not found"]
    else []
  }

  /** The update's `id`: required, then (after `bail`) an existing sale. */
  function IdErrors(raw: string, sales: map<Id, SC.Sale>): (r: seq<string>)
    ensures r == [] <==> Clean(raw) != "" && Clean(raw) in sales
  {
    var v := Clean(raw);
    if v == "" then ["Sale id is required"]
    else if v !in sales then ["Sale not found"]
    else []
  }

  /** `saleRules.create`: productId, then quantity. */
  function CreateErrors(b: Body, t: Tables): (r: seq<string>)
    ensures r == [] <==>
              Clean(b.productId) != "" && Clean(b.productId) in t.products && IsIntMin(Clean(b.quantity), 1)
  {
    ProductIdErrors(b.productId, t.products) + QuantityErrors(b.quantity)
  }

  /** `saleRules.update`: id, then quantity; nothing else is looked at. */
  function UpdateErrors(b: Body, t: Tables): (r: seq<string>)
    ensures r == [] <==>
              Clean(b.id) != "" && Clean(b.id) in t.sales && IsIntMin(Clean(b.quantity), 1)
  {
    IdErrors(b.id, t.sales) + QuantityErrors(b.quantity)
  }

  /** The update's verdict does not depend on the productId or the description sent. */
  lemma UpdateIgnoresProductAndDescription(b: Body, productId: string, description: string, t: Tables)
    ensures UpdateErrors(b.(productId := productId, description := description), t) == UpdateErrors(b, t)
  {
  }

  /**
   * So an update naming a product that does not exist passes the
   * validators and reaches the handler, which the database then refuses.
   */
  lemma UpdateAcceptsMissingProduct(t: Tables, b: Body, q: Id)
    requires Clean(b.id) != "" && Clean(b.id) in t.sales && t.sales[Clean(b.id)].productId in t.products
    requires IsIntMin(Clean(b.quantity), 1) && q !in t.products
    ensures UpdateErrors(b, t) == []
    ensures SC.Update(t, SC.UpdateRequest(Clean(b.id), IntValue(Clean(b.quantity)), None, Some(q)))
            == Failure(ForeignKeyViolation)
  {
  }

  /** The create request the handler reads from an accepted body. */
  predicate ReadsCreate(b: Body, req: SC.CreateRequest)
  {
    req.productId == Clean(b.productId) && IsInt(Clean(b.quantity)) && req.quantity == IntValue(Clean(b.quantity))
  }

  /**
   * After the validators accept a body, create fails only for want of
   * stock or on the primary key or the invoice-number index.
   */
  lemma AcceptedCreateFailures(b: Body, t: Tables, req: SC.CreateRequest, newId: Id)
    requires CreateErrors(b, t) == [] && ReadsCreate(b, req)
    ensures var r := SC.Create(t, req, newId);
            && req.quantity >= 1
            && (r.Failure? ==>
                  || r.error == OnlyLeftInStore(t.products[req.productId].store)
                  || r.error == PrimaryKeyViolation
                  || r.error == UniqueViolation)
  {
    assert req.productId in t.products && req.quantity >= 1;
    var p := t.products[req.productId];
    if p.store >= req.quantity {
      var row := SC.NewRow(t, req, newId);
      assert row.productId in t.products;
      var err := SC.InsertError(t, row);
      assert err.Some? ==> err.value in {PrimaryKeyViolation, UniqueViolation};
    }
  }

  /** After the validators accept an update body, the sale exists, so only the productId can make it fail. */
  lemma AcceptedUpdateFailures(b: Body, t: Tables, req: SC.UpdateRequest)
    requires UpdateErrors(b, t) == [] && req.id == Clean(b.id)
    requires ReferencesExist(t)
    ensures SC.Update(t, req).Failure? ==>
              && SC.Update(t, req).error == ForeignKeyViolation
              && req.productId.Some? && req.productId.value !in t.products
  {
  }

  /** The `product` list filter: the products whose name contains the query (`LIKE '%q%'`). */
  function ProductsNamed(products: map<Id, Product>, q: string): (r: set<Id>)
    ensures r <= products.Keys
    ensures forall id :: id in r ==> |products[id].name| >= |q|
  {
    set id | id in products && Contains(products[id].name, q)
  }

  /** An empty query matches every product. */
  lemma EmptyQueryMatchesAll(products: map<Id, Product>)
    ensures ProductsNamed(products, "") == products.Keys
  {
    forall id | id in products ensures Contains(products[id].name, "") {
      assert OccursAt(products[id].name, "", 0);
    }
  }

  /** Lengthening the query can only narrow the match. */
  lemma LongerQueryNarrows(products: map<Id, Product>, q: string, more: string)
    ensures ProductsNamed(products, q + more) <= ProductsNamed(products, q)
  {
    forall id | id in ProductsNamed(products, q + more) ensures Contains(products[id].name, q) {
      var s := products[id].name;
      var i :| 0 <= i <= |s| && OccursAt(s, q + more, i);
      assert s[i..i + |q|] == (q + more)[..|q|] == q;
      assert OccursAt(s, q, i);
    }
  }

  /** A product whose name is the query itself always matches. */
  lemma ExactNameMatches(products: map<Id, Product>, id: Id)
    requires id in products
    ensures id in ProductsNamed(products, products[id].name)
  {
    var s := products[id].name;
    assert s[0..|s|] == s;
    assert OccursAt(s, s, 0);
  }
}
