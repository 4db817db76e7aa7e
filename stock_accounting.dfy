/**
 * Stock accounting across the handlers. For a product, the committed stock
 * is its store count plus the quantities of the sales that name it. Sale
 * create, cancel and update keep it; a purchase create adds its quantity; a
 * sale or purchase row that is destroyed takes nothing back from the store.
 */
module StockAccounting {
  import opened Inventory
  import SaleModel
  import PC = PurchaseController
  import SC = SaleController

  type Sale = SaleModel.Sale

  /** The quantity a sale takes from product p. */
  function Share(s: Sale, p: Id): int
  {
    if s.productId == p then s.quantity else 0
  }

  /** The total quantity the sales in the table take from product p. */
  ghost function Sold(sales: map<Id, Sale>, p: Id): int
    decreases |sales|
  {
    if sales == map[] then 0
    else
      var k :| k in sales;
      assert |sales - {k}| < |sales| by { assert (sales - {k}).Keys < sales.Keys; }
      Share(sales[k], p) + Sold(sales - {k}, p)
  }

  /** Sold can be taken apart at any row, not only at the one its definition picks. */
  lemma {:induction false} SoldRemove(sales: map<Id, Sale>, k: Id, p: Id)
    requires k in sales
    ensures Sold(sales, p) == Share(sales[k], p) + Sold(sales - {k}, p)
    decreases |sales|
  {
    var j :| j in sales && Sold(sales, p) == Share(sales[j], p) + Sold(sales - {j}, p);
    if j != k {
      assert (sales - {j}).Keys < sales.Keys;
      assert (sales - {k}).Keys < sales.Keys;
      SoldRemove(sales - {j}, k, p);
      SoldRemove(sales - {k}, j, p);
      assert sales - {j} - {k} == sales - {k} - {j};
    }
  }

  /** Adding a row under a fresh key adds its share. */
  lemma SoldInsert(sales: map<Id, Sale>, k: Id, s: Sale, p: Id)
    requires k !in sales
    ensures Sold(sales[k := s], p) == Share(s, p) + Sold(sales, p)
  {
    SoldRemove(sales[k := s], k, p);
    assert sales[k := s] - {k} == sales;
  }

  /** Replacing a row swaps its share. */
  lemma SoldReplace(sales: map<Id, Sale>, k: Id, s: Sale, p: Id)
    requires k in sales
    ensures Sold(sales[k := s], p) == Sold(sales, p) - Share(sales[k], p) + Share(s, p)
  {
    SoldRemove(sales[k := s], k, p);
    SoldRemove(sales, k, p);
    assert sales[k := s] - {k} == sales - {k};
  }

  /** The store count of p plus everything sold from it. */
  ghost function Committed(t: Tables, p: Id): int
    requires p in t.products
  {
    t.products[p].store + Sold(t.sales, p)
  }

  /** Selling moves stock from the store into a sale row: nothing is created or lost. */
  lemma SaleCreateConserves(t: Tables, req: SC.CreateRequest, newId: Id)
    requires SC.Create(t, req, newId).Success?
    ensures var after := SC.Create(t, req, newId).value.after;
            forall p :: p in t.products ==> p in after.products && Committed(after, p) == Committed(t, p)
  {
    var c := SC.Create(t, req, newId).value;
    SC.CreateWrites(t, req, newId);
    forall p | p in t.products
      ensures p in c.after.products && Committed(c.after, p) == Committed(t, p)
    {
      SoldInsert(t.sales, newId, c.row, p);
    }
  }

  /** Cancelling moves the quantity back from the sale row into the store. */
  lemma SaleCancelConserves(t: Tables, id: Id)
    requires SC.Cancel(t, id).Success?
    ensures var after := SC.Cancel(t, id).value.after;
            forall p :: p in t.products ==> p in after.products && Committed(after, p) == Committed(t, p)
  {
    var after := SC.Cancel(t, id).value.after;
    forall p | p in t.products
      ensures p in after.products && Committed(after, p) == Committed(t, p)
    {
      SoldRemove(t.sales, id, p);
    }
  }

  /** An update that keeps the sale on its product keeps that product's committed stock. */
  lemma SaleUpdateConserves(t: Tables, req: SC.UpdateRequest)
    requires SC.Update(t, req).Success?
    requires req.productId.None? || req.productId.value == t.sales[req.id].productId
    ensures var after := SC.Update(t, req).value.after;
            forall p :: p in t.products ==> p in after.products && Committed(after, p) == Committed(t, p)
  {
    var after := SC.Update(t, req).value.after;
    forall p | p in t.products
      ensures p in after.products && Committed(after, p) == Committed(t, p)
    {
      SoldReplace(t.sales, req.id, after.sales[req.id], p);
    }
  }

  /**
   * An update that moves the sale to product q credits the old product's
   * store with the old quantity and debits it the new one, while q's store
   * is not touched: the new quantity's worth of committed stock moves from
   * the old product to q.
   */
  lemma SaleUpdateMovesCommitment(t: Tables, req: SC.UpdateRequest)
    requires SC.Update(t, req).Success?
    requires req.productId.Some? && req.productId.value != t.sales[req.id].productId
    ensures var after := SC.Update(t, req).value.after;
            var from := t.sales[req.id].productId;
            var to := req.productId.value;
            && from in t.products && to in t.products
            && Committed(after, from) == Committed(t, from) - req.quantity
            && Committed(after, to) == Committed(t, to) + req.quantity
  {
    var after := SC.Update(t, req).value.after;
    SoldReplace(t.sales, req.id, after.sales[req.id], t.sales[req.id].productId);
    SoldReplace(t.sales, req.id, after.sales[req.id], req.productId.value);
  }

  /** A purchase of an existing product adds its quantity; no other product changes. */
  lemma PurchaseCreateAdds(t: Tables, req: PC.CreateRequest, newId: Id)
    requires PC.Create(t, req, newId).Success?
    ensures var after := PC.Create(t, req, newId).value.after;
            && req.productId in t.products
            && Committed(after, req.productId)
               == (if req.isNewProduct then req.quantity + Sold(t.sales, req.productId)
                   else Committed(t, req.productId) + req.quantity)
            && forall p :: p in t.products && p != req.productId ==>
                 p in after.products && Committed(after, p) == Committed(t, p)
  {
    PC.CreateWrites(t, req, newId);
  }

  /** Destroying a sale row loses its quantity: the store is not credited. */
  lemma SaleDestroyLoses(t: Tables, id: Id)
    requires id in t.sales
    ensures var after := SC.Destroy(t, {id}).after;
            forall p :: p in t.products ==>
              p in after.products && Committed(after, p) == Committed(t, p) - Share(t.sales[id], p)
  {
    var after := SC.Destroy(t, {id}).after;
    forall p | p in t.products
      ensures p in after.products && Committed(after, p) == Committed(t, p) - Share(t.sales[id], p)
    {
      SoldRemove(t.sales, id, p);
    }
  }

  /** Destroying purchase rows changes no product's committed stock. */
  lemma PurchaseDestroyKeeps(t: Tables, ids: set<Id>)
    ensures var after := PC.Destroy(t, ids).after;
            forall p :: p in t.products ==> p in after.products && Committed(after, p) == Committed(t, p)
  {
  }
}
