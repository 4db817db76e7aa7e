/**
 * backend/src/api/controllers/sale.ts as functions of the tables. As for
 * purchases, a Failure means that nothing was written and a Success carries
 * the tables after the commit; ledger.dfy performs the same steps in place.
 */
module SaleController {
  import opened Wrappers
  import opened Text
  import opened Inventory
  import SaleModel

  type Sale = SaleModel.Sale

  /** The body of a create request, after the validator's sanitisers. */
  datatype CreateRequest = CreateRequest(productId: Id, quantity: int, description: Option<string>)

  /** The body of an update request; an absent description or productId is None. */
  datatype UpdateRequest = UpdateRequest(id: Id, quantity: int, description: Option<string>, productId: Option<Id>)

  /** `String(count + 1)`, where count is the number of sale rows. */
  function NextInvoiceNo(t: Tables): string
  {
    NatToString(|t.sales| + 1)
  }

  /** What the database refuses when a sale row is inserted. */
  function InsertError(t: Tables, row: Sale): (r: Option<Error>)
    ensures r.None? <==> row.id !in t.sales && row.invoiceNo !in SaleModel.InvoiceNumbers(t.sales) && row.productId in t.products
    ensures r.Some? ==> r.value in {PrimaryKeyViolation, UniqueViolation, ForeignKeyViolation}
    ensures row.id in t.sales ==> r == Some(PrimaryKeyViolation)
  {
    if row.id in t.sales then Some(PrimaryKeyViolation)
    else if row.invoiceNo in SaleModel.InvoiceNumbers(t.sales) then Some(UniqueViolation)
    else if row.productId !in t.products then Some(ForeignKeyViolation)
    else None
  }

  /** The row `create` inserts under the generated key newId. */
  function NewRow(t: Tables, req: CreateRequest, newId: Id): Sale
    requires req.productId in t.products
  {
    SaleModel.Build(newId, SaleModel.SaleCreation(
      req.productId, Some(req.quantity),
      Some(t.products[req.productId].unitPrice * req.quantity),
      Some(NextInvoiceNo(t)), req.description))
  }

  /**
   * `create`. The product must exist and hold at least the quantity asked
   * for; inside the transaction the row is inserted and the quantity is
   * deducted from the product's store.
   */
  function Create(t: Tables, req: CreateRequest, newId: Id): (r: Result<Change<Sale>>)
    ensures req.productId !in t.products ==> r == Failure(ProductNotFound)
    ensures r.Success? ==> req.productId in t.products && t.products[req.productId].store >= req.quantity
    ensures r.Success? ==> newId !in t.sales && r.value.row.id == newId && r.value.after.sales == t.sales[newId := r.value.row]
  {
    if req.productId !in t.products then Failure(ProductNotFound)
    else
      var product := t.products[req.productId];
      if product.store < req.quantity then Failure(OnlyLeftInStore(product.store))
      else
        var row := NewRow(t, req, newId);
        var err := InsertError(t, row);
        if err.Some? then Failure(err.value)
        else
          Success(Change(row, t.(
            sales := t.sales[newId := row],
            products := t.products[req.productId := product.(store := product.store - req.quantity)])))
  }

  /** `cancelSale`: the sale's quantity goes back to its product, and the row is deleted. */
  function Cancel(t: Tables, id: Id): (r: Result<Change<Sale>>)
    ensures id !in t.sales ==> r == Failure(SaleNotFound)
    ensures r.Success? ==> id in t.sales && r.value.row == t.sales[id] && r.value.after.sales == t.sales - {id}
  {
    if id !in t.sales then Failure(SaleNotFound)
    else
      var sale := t.sales[id];
      if sale.productId !in t.products then Failure(ProductNotFound)
      else
        var product := t.products[sale.productId];
        Success(Change(sale, t.(
          products := t.products[sale.productId := product.(store := product.store + sale.quantity)],
          sales := t.sales - {id})))
  }

  /** `read` */
  function Read(t: Tables, id: Id): (r: Result<Sale>)
    ensures r.Success? <==> id in t.sales
    ensures r.Success? ==> r.value == t.sales[id]
    ensures r.Failure? ==> r.error == SaleNotFound
  {
    if id in t.sales then Success(t.sales[id]) else Failure(SaleNotFound)
  }

  /** `sales`, without the unseen filters and pagination. */
  function List(t: Tables): (r: Result<map<Id, Sale>>)
    ensures r.Success? <==> t.sales != map[]
    ensures r.Success? ==> r.value == t.sales
    ensures r.Failure? ==> r.error == NoSalesFound
  {
    if |t.sales| > 0 then Success(t.sales) else Failure(NoSalesFound)
  }

  /**
   * `update`. The product adjusted is the one the sale named before the
   * update; its store becomes store + old quantity - new quantity, with no
   * check for a negative result. A productId in the request is written to
   * the sale row, and must name an existing product. The response carries
   * the sale as read before the update.
   */
  function Update(t: Tables, req: UpdateRequest): (r: Result<Change<Sale>>)
    ensures req.id !in t.sales ==> r == Failure(SaleNotFound)
    ensures r.Success? ==> req.id in t.sales && r.value.row == t.sales[req.id]
  {
    if req.id !in t.sales then Failure(SaleNotFound)
    else
      var sale := t.sales[req.id];
      if sale.productId !in t.products then Failure(ProductNotFound)
      else
        var product := t.products[sale.productId];
        var store := product.store + sale.quantity - req.quantity;
        var row := sale.(
          quantity := req.quantity,
          description := if req.description.Some? then req.description else sale.description,
          totalPrice := product.unitPrice * req.quantity,
          productId := req.productId.GetOr(sale.productId));
        if row.productId !in t.products then Failure(ForeignKeyViolation)
        else
          Success(Change(sale, t.(
            products := t.products[sale.productId := product.(store := store)],
            sales := t.sales[req.id := row])))
  }

  /** `destroy`: deletes the named rows; the row of the change is the number deleted. */
  function Destroy(t: Tables, ids: set<Id>): (c: Change<nat>)
    ensures c.after.sales.Keys == t.sales.Keys - ids
    ensures c.row <= |ids| && c.row + |c.after.sales| == |t.sales|
  {
    var gone := ids * t.sales.Keys;
    assert t.sales.Keys == (t.sales - ids).Keys + gone;
    assert (t.sales - ids).Keys * gone == {};
    Change(|gone|, t.(sales := t.sales - ids))
  }

  // ---------------------------------------------------------------- create

  /** A sale asking for more than the store holds is refused with the store count, and writes nothing. */
  lemma CreateInsufficientStock(t: Tables, req: CreateRequest, newId: Id)
    requires req.productId in t.products && t.products[req.productId].store < req.quantity
    ensures var n := t.products[req.productId].store;
            && Create(t, req, newId) == Failure(OnlyLeftInStore(n))
            && Message(Create(t, req, newId).error) == Some("Only " + IntToString(n) + " items are left in store")
  {
  }

  /** When create succeeds: the product exists, holds enough, and the row can be inserted. */
  lemma CreateOutcome(t: Tables, req: CreateRequest, newId: Id)
    ensures var r := Create(t, req, newId);
            && (req.productId !in t.products ==> r == Failure(ProductNotFound))
            && (r.Success? <==>
                  && req.productId in t.products
                  && req.quantity <= t.products[req.productId].store
                  && newId !in t.sales
                  && NextInvoiceNo(t) !in SaleModel.InvoiceNumbers(t.sales))
  {
  }

  /** A successful create inserts exactly one row, prices it, numbers it, and leaves a non-negative store. */
  lemma CreateWrites(t: Tables, req: CreateRequest, newId: Id)
    requires Create(t, req, newId).Success?
    ensures var c := Create(t, req, newId).value;
            var product := t.products[req.productId];
            && c.row.totalPrice == product.unitPrice * req.quantity
            && c.row.invoiceNo == NatToString(|t.sales| + 1)
            && c.row.quantity == req.quantity && c.row.productId == req.productId
            && c.after.sales == t.sales[newId := c.row]
            && newId !in t.sales && |c.after.sales| == |t.sales| + 1
            && c.after.products[req.productId] == product.(store := product.store - req.quantity)
            && c.after.products[req.productId].store >= 0
            && c.after.products.Keys == t.products.Keys
            && (forall k :: k in t.products && k != req.productId ==> c.after.products[k] == t.products[k])
            && c.after.purchases == t.purchases && c.after.suppliers == t.suppliers
  {
  }

  lemma CreatePreservesValid(t: Tables, req: CreateRequest, newId: Id)
    requires Valid(t) && Create(t, req, newId).Success?
    ensures Valid(Create(t, req, newId).value.after)
  {
    var c := Create(t, req, newId).value;
    SaleModel.InsertKeepsUniqueIff(t.sales, newId, c.row);
  }

  // ---------------------------------------------------------------- cancel

  /** Cancel puts the quantity back and removes the row, or does neither; nothing else changes. */
  lemma CancelWrites(t: Tables, id: Id)
    ensures var r := Cancel(t, id);
            && (id !in t.sales ==> r == Failure(SaleNotFound))
            && (r.Success? <==> id in t.sales && t.sales[id].productId in t.products)
            && (r.Success? ==>
                  var sale := t.sales[id];
                  var product := t.products[sale.productId];
                  && r.value.row == sale
                  && r.value.after.sales == t.sales - {id}
                  && r.value.after.products == t.products[sale.productId := product.(store := product.store + sale.quantity)]
                  && (forall k :: k in t.products && k != sale.productId ==>
                        r.value.after.products[k] == t.products[k])
                  && r.value.after.purchases == t.purchases
                  && r.value.after.suppliers == t.suppliers)
  {
  }

  lemma CancelPreservesValid(t: Tables, id: Id)
    requires Valid(t) && Cancel(t, id).Success?
    ensures Valid(Cancel(t, id).value.after)
  {
  }

  /** Creating a sale and cancelling it gives back exactly the tables it started from. */
  lemma CreateThenCancelRestores(t: Tables, req: CreateRequest, newId: Id)
    requires Create(t, req, newId).Success?
    ensures var after := Create(t, req, newId).value.after;
            && Cancel(after, newId).Success?
            && Cancel(after, newId).value.after == t
  {
    var c := Create(t, req, newId).value;
    var p := t.products[req.productId];
    assert c.after.products == t.products[req.productId := p.(store := p.store - req.quantity)];
    assert c.after.sales == t.sales[newId := c.row] && newId !in t.sales && c.row.productId == req.productId;
    var back := Cancel(c.after, newId).value.after;
    assert back.sales == t.sales[newId := c.row] - {newId} == t.sales;
    assert back.products == t.products[req.productId := p] == t.products;
  }

  // ---------------------------------------------------------------- update

  /** What update writes: the row, and the store of the product the sale named before; nothing else. */
  lemma UpdateWrites(t: Tables, req: UpdateRequest)
    ensures var r := Update(t, req);
            && (req.id !in t.sales ==> r == Failure(SaleNotFound))
            && (r.Success? <==>
                  && req.id in t.sales && t.sales[req.id].productId in t.products
                  && (req.productId.Some? ==> req.productId.value in t.products))
            && (r.Success? ==>
                  var sale := t.sales[req.id];
                  var product := t.products[sale.productId];
                  var after := r.value.after;
                  && r.value.row == sale
                  && after.products == t.products[sale.productId := product.(store := product.store + sale.quantity - req.quantity)]
                  && after.sales == t.sales[req.id := sale.(
                       quantity := req.quantity,
                       description := if req.description.Some? then req.description else sale.description,
                       totalPrice := product.unitPrice * req.quantity,
                       productId := req.productId.GetOr(sale.productId))]
                  && after.sales[req.id].invoiceNo == sale.invoiceNo
                  && (forall k :: k in t.sales && k != req.id ==> after.sales[k] == t.sales[k])
                  && (forall k :: k in t.products && k != sale.productId ==> after.products[k] == t.products[k])
                  && after.purchases == t.purchases && after.suppliers == t.suppliers)
  {
  }

  /**
   * Moving a sale to another product adjusts the old product only: the new
   * product's store is untouched.
   */
  lemma UpdateAdjustsPreviousProduct(t: Tables, req: UpdateRequest)
    requires Update(t, req).Success?
    requires req.productId.Some? && req.productId.value != t.sales[req.id].productId
    ensures var after := Update(t, req).value.after;
            && after.products[req.productId.value] == t.products[req.productId.value]
            && after.sales[req.id].productId == req.productId.value
  {
  }

  /** With no store check, an update can drive the store below zero. */
  lemma UpdateCanGoNegative(product: Product)
    requires product.store == 0
    ensures var s := SaleModel.Sale("x", product.id, 1, 0, "1", None);
            var t := Tables(map[product.id := product], map[], map["x" := s], {});
            var r := Update(t, UpdateRequest("x", 2, None, None));
            r.Success? && r.value.after.products[product.id].store == -1
  {
  }

  lemma UpdatePreservesValid(t: Tables, req: UpdateRequest)
    requires Valid(t) && Update(t, req).Success?
    ensures Valid(Update(t, req).value.after)
  {
    var c := Update(t, req).value;
    SaleModel.UpdateKeepsUnique(t.sales, req.id, c.after.sales[req.id]);
  }

  // ---------------------------------------------------------------- destroy

  /** Destroy deletes the rows without giving their quantities back. */
  lemma DestroyKeepsStock(t: Tables, ids: set<Id>)
    ensures var c := Destroy(t, ids);
            && c.after.products == t.products
            && c.after.purchases == t.purchases
            && c.after.suppliers == t.suppliers
            && c.after.sales.Keys == t.sales.Keys - ids
            && (forall k :: k in c.after.sales ==> c.after.sales[k] == t.sales[k])
            && c.row == |ids * t.sales.Keys|
  {
  }

  /** A sale that is destroyed rather than cancelled leaves its quantity deducted. */
  lemma CreateThenDestroyLosesStock(t: Tables, req: CreateRequest, newId: Id)
    requires Create(t, req, newId).Success? && req.quantity != 0
    ensures var after := Destroy(Create(t, req, newId).value.after, {newId}).after;
            && after.sales == t.sales
            && after.products[req.productId].store == t.products[req.productId].store - req.quantity
            && after.products[req.productId].store != t.products[req.productId].store
  {
    var c := Create(t, req, newId).value;
    CreateWrites(t, req, newId);
    assert c.after.sales - {newId} == t.sales;
  }

  lemma DestroyPreservesValid(t: Tables, ids: set<Id>)
    requires Valid(t)
    ensures Valid(Destroy(t, ids).after)
  {
  }

  /**
   * Cancelling frees a row but not its number: once the count has dropped,
   * count+1 can name a sale that is still there, and the unique column
   * refuses the next create. With sales numbered "1" and "2", cancelling the
   * first makes the next number "2".
   */
  lemma CollisionAfterCancel(t: Tables, id: Id, req: CreateRequest, newId: Id)
    requires id in t.sales && t.sales[id].productId in t.products && t.sales[id].quantity >= 0
    requires req.productId in t.products && t.products[req.productId].store >= req.quantity
    requires newId == id || newId !in t.sales
    requires NatToString(|t.sales|) in SaleModel.InvoiceNumbers(t.sales - {id})
    ensures Cancel(t, id).Success?
    ensures Create(Cancel(t, id).value.after, req, newId) == Failure(UniqueViolation)
  {
    var t1 := Cancel(t, id).value.after;
    assert t1.sales == t.sales - {id};
    assert t1.sales.Keys == t.sales.Keys - {id};
    assert |t1.sales| + 1 == |t.sales|;
    assert NextInvoiceNo(t1) == NatToString(|t.sales|);
    assert t1.products[req.productId].store >= req.quantity;
    var row := NewRow(t1, req, newId);
    assert row.invoiceNo == NatToString(|t.sales|) && row.id == newId;
    assert InsertError(t1, row) == Some(UniqueViolation);
  }

  /**
   * The premise above is reachable from a dense table: with two sales
   * numbered 1 and 2, cancelling the first makes the next create collide.
   */
  lemma CollisionReachable(t: Tables, a: Id, b: Id, req: CreateRequest, newId: Id)
    requires a != b && t.sales.Keys == {a, b}
    requires t.sales[a].invoiceNo == NatToString(1) && t.sales[b].invoiceNo == NatToString(2)
    requires t.sales[a].productId in t.products && t.sales[a].quantity >= 0
    requires req.productId in t.products && t.products[req.productId].store >= req.quantity
    requires newId == a || newId !in t.sales
    ensures forall k :: k in t.sales ==> exists n :: 1 <= n <= |t.sales| && t.sales[k].invoiceNo == NatToString(n)
    ensures Create(Cancel(t, a).value.after, req, newId) == Failure(UniqueViolation)
  {
    assert |t.sales| == 2 by { assert |t.sales.Keys| == |{a, b}| == 2; }
    var rest := t.sales - {a};
    assert b in rest && rest[b].invoiceNo == NatToString(2);
    CollisionAfterCancel(t, a, req, newId);
  }
}
