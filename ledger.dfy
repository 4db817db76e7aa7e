/**
 * The purchase and sale request handlers as methods on one object that
 * holds the tables. Each write handler follows the source step by step:
 * the early lookups, then the transaction, whose writes are undone when a
 * later step throws. Every method is proved to leave exactly the state, and
 * return exactly the answer, that its function in PurchaseController or
 * SaleController gives, and to keep the database's invariants.
 */
module Ledger {
  import opened Wrappers
  import opened Text
  import opened Inventory
  import Common
  import PurchaseModel
  import SaleModel
  import PC = PurchaseController
  import SC = SaleController

  class Ledger {
    var products: map<Id, Product>
    var purchases: map<Id, PurchaseModel.Purchase>
    var sales: map<Id, SaleModel.Sale>
    var suppliers: set<Id>

    function Tables(): Tables
      reads this
    {
      Inventory.Tables(products, purchases, sales, suppliers)
    }

    ghost predicate Valid()
      reads this
    {
      Inventory.Valid(Tables())
    }

    constructor (t: Inventory.Tables)
      requires Inventory.Valid(t)
      ensures Valid() && Tables() == t
    {
      products, purchases, sales, suppliers := t.products, t.purchases, t.sales, t.suppliers;
    }

    // ------------------------------------------------------------ purchases

    /** purchase.ts `create` */
    method CreatePurchase(req: PC.CreateRequest, newId: Id) returns (r: Result<PurchaseModel.Purchase>)
      requires Valid()
      modifies this
      ensures Valid()
      ensures var spec := PC.Create(old(Tables()), req, newId);
              if spec.Success? then r == Success(spec.value.row) && Tables() == spec.value.after
              else r == Failure(spec.error) && Tables() == old(Tables())
    {
      ghost var t := Tables();
      var location := Common.EnumFromStringValue(PurchaseModel.LocationValues, req.location)
                        .GetOr(PurchaseModel.LocationValue(PurchaseModel.Store));
      // The supplier lookup is not awaited: it yields a pending promise, never null.
      if req.productId !in products {
        return Failure(ProductNotFound);
      }
      var product := products[req.productId];

      // sequelize.transaction
      var savedPurchases, savedProducts := purchases, products;
      var totalPrice := req.unitCost * req.quantity;
      var count := |purchases|;
      var invoiceNo := NatToString(count + 1);
      var row := PurchaseModel.Build(newId, PC.Creation(req, location, totalPrice, invoiceNo));
      assert row == PC.NewRow(t, req, newId);
      var err := PC.InsertError(Tables(), row);
      if err.Some? {
        return Failure(err.value);
      }
      purchases := purchases[newId := row];

      var store := product.store;
      if location == "store" {
        if req.isNewProduct {
          store := req.quantity;
        } else {
          store := store + req.quantity;
        }
      }
      if store < 0 {
        purchases, products := savedPurchases, savedProducts;  // rollback
        return Failure(PurchaseCreateNegative);
      }
      assert PC.Create(t, req, newId) == Success(Change(row, t.(purchases := purchases,
        products := products[req.productId :=
          product.(unitCost := req.unitCost, unitPrice := req.unitPrice, store := store)])));
      products := products[req.productId :=
        product.(unitCost := req.unitCost, unitPrice := req.unitPrice, store := store)];
      r := Success(row);
      PC.CreatePreservesValid(t, req, newId);
    }

    /** purchase.ts `read` */
    method ReadPurchase(id: Id) returns (r: Result<PurchaseModel.Purchase>)
      ensures r.Success? <==> id in purchases
      ensures r.Success? ==> r.value == purchases[id]
      ensures r.Failure? ==> r.error == PurchaseNotFound
    {
      if id in purchases {
        r := Success(purchases[id]);
      } else {
        r := Failure(PurchaseNotFound);
      }
    }

    /** purchase.ts `purchases`, without filters and pagination */
    method ListPurchases() returns (r: Result<map<Id, PurchaseModel.Purchase>>)
      ensures r.Success? <==> purchases != map[]
      ensures r.Success? ==> r.value == purchases
      ensures r.Failure? ==> r.error == NoPurchasesFound
    {
      var count := |purchases|;
      if count > 0 {
        r := Success(purchases);
      } else {
        r := Failure(NoPurchasesFound);
      }
    }

    /** purchase.ts `update` */
    method UpdatePurchase(req: PC.UpdateRequest) returns (r: Result<PurchaseModel.Purchase>)
      requires Valid()
      modifies this
      ensures Valid()
      ensures var spec := PC.Update(old(Tables()), req);
              if spec.Success? then r == Success(spec.value.row) && Tables() == spec.value.after
              else r == Failure(spec.error) && Tables() == old(Tables())
    {
      ghost var t := Tables();
      if req.id !in purchases {
        return Failure(PurchaseNotFound);
      }
      var purchase := purchases[req.id];
      // The supplier lookup is not awaited: it yields a pending promise, never null.
      if req.productId !in products {
        return Failure(ProductNotFound);
      }
      var product := products[req.productId];

      // sequelize.transaction
      var store := product.store;
      var prevQuantity := purchase.quantity;
      if req.location == Some("store") {
        if store < 0 {
          return Failure(PurchaseUpdateNegative);
        }
        if req.quantity > prevQuantity {
          store := store + prevQuantity;
        }
        if req.quantity < prevQuantity {
          store := store - req.quantity;
        }
      }
      var totalPrice := req.unitCost * req.quantity;
      var row := purchase.(
        supplierId := req.supplierId, productId := req.productId, quantity := req.quantity,
        unitCost := req.unitCost, unitPrice := req.unitPrice,
        location := req.location.GetOr(purchase.location),
        description := if req.description.Some? then req.description else purchase.description,
        totalPrice := totalPrice);
      assert store == PC.StoreAfterUpdate(product.store, req.location == Some("store"), prevQuantity, req.quantity);
      if row.supplierId !in suppliers {
        assert PC.Update(t, req) == Failure(ForeignKeyViolation);
        return Failure(ForeignKeyViolation);
      }
      assert PC.Update(t, req) == Success(Change(purchase, t.(
        purchases := purchases[req.id := row],
        products := products[req.productId := product.(store := store, unitCost := req.unitCost, unitPrice := req.unitPrice)])));
      purchases := purchases[req.id := row];
      products := products[req.productId :=
        product.(store := store, unitCost := req.unitCost, unitPrice := req.unitPrice)];
      r := Success(purchase);
      PC.UpdatePreservesValid(t, req);
    }

    /** purchase.ts `destroy`: ok is the response's verdict, comparing with `id.length`. */
    method DestroyPurchases(ids: set<Id>, idLength: nat) returns (affected: nat, ok: bool)
      requires Valid()
      modifies this
      ensures Valid()
      ensures Tables() == PC.Destroy(old(Tables()), ids).after
      ensures affected == PC.Destroy(old(Tables()), ids).row
      ensures ok == PC.DestroyReportsSuccess(affected, idLength)
    {
      PC.DestroyPreservesValid(Tables(), ids);
      affected := |ids * purchases.Keys|;
      purchases := purchases - ids;
      ok := affected == idLength;
    }

    // ------------------------------------------------------------ sales

    /** sale.ts `create` */
    method CreateSale(req: SC.CreateRequest, newId: Id) returns (r: Result<SaleModel.Sale>)
      requires Valid()
      modifies this
      ensures Valid()
      ensures var spec := SC.Create(old(Tables()), req, newId);
              if spec.Success? then r == Success(spec.value.row) && Tables() == spec.value.after
              else r == Failure(spec.error) && Tables() == old(Tables())
    {
      ghost var t := Tables();
      if req.productId !in products {
        return Failure(ProductNotFound);
      }
      var product := products[req.productId];
      if product.store < req.quantity {
        return Failure(OnlyLeftInStore(product.store));
      }

      // sequelize.transaction
      var totalPrice := product.unitPrice * req.quantity;
      var count := |sales|;
      var invoiceNo := NatToString(count + 1);
      var row := SaleModel.Build(newId, SaleModel.SaleCreation(
        req.productId, Some(req.quantity), Some(totalPrice), Some(invoiceNo), req.description));
      assert row == SC.NewRow(t, req, newId);
      var err := SC.InsertError(Tables(), row);
      if err.Some? {
        return Failure(err.value);
      }
      var spec := SC.Create(t, req, newId);
      assert spec == Success(Change(row, t.(sales := sales[newId := row],
        products := products[req.productId := product.(store := product.store - req.quantity)])));
      sales := sales[newId := row];
      var store := product.store - req.quantity;
      products := products[req.productId := product.(store := store)];
      r := Success(row);
      SC.CreatePreservesValid(t, req, newId);
    }

    /** sale.ts `cancelSale` */
    method CancelSale(id: Id) returns (r: Result<SaleModel.Sale>)
      requires Valid()
      modifies this
      ensures Valid()
      ensures var spec := SC.Cancel(old(Tables()), id);
              if spec.Success? then r == Success(spec.value.row) && Tables() == spec.value.after
              else r == Failure(spec.error) && Tables() == old(Tables())
    {
      ghost var t := Tables();
      if id !in sales {
        return Failure(SaleNotFound);
      }
      var sale := sales[id];
      if sale.productId !in products {
        return Failure(ProductNotFound);
      }
      var product := products[sale.productId];

      // sequelize.transaction
      var store := product.store + sale.quantity;
      products := products[sale.productId := product.(store := store)];
      sales := sales - {id};
      r := Success(sale);
      SC.CancelPreservesValid(t, id);
    }

    /** sale.ts `read` */
    method ReadSale(id: Id) returns (r: Result<SaleModel.Sale>)
      ensures r.Success? <==> id in sales
      ensures r.Success? ==> r.value == sales[id]
      ensures r.Failure? ==> r.error == SaleNotFound
    {
      if id in sales {
        r := Success(sales[id]);
      } else {
        r := Failure(SaleNotFound);
      }
    }

    /** sale.ts `sales`, without filters and pagination */
    method ListSales() returns (r: Result<map<Id, SaleModel.Sale>>)
      ensures r.Success? <==> sales != map[]
      ensures r.Success? ==> r.value == sales
      ensures r.Failure? ==> r.error == NoSalesFound
    {
      var count := |sales|;
      if count > 0 {
        r := Success(sales);
      } else {
        r := Failure(NoSalesFound);
      }
    }

    /** sale.ts `update` */
    method UpdateSale(req: SC.UpdateRequest) returns (r: Result<SaleModel.Sale>)
      requires Valid()
      modifies this
      ensures Valid()
      ensures var spec := SC.Update(old(Tables()), req);
              if spec.Success? then r == Success(spec.value.row) && Tables() == spec.value.after
              else r == Failure(spec.error) && Tables() == old(Tables())
    {
      ghost var t := Tables();
      if req.id !in sales {
        return Failure(SaleNotFound);
      }
      var sale := sales[req.id];
      if sale.productId !in products {
        return Failure(ProductNotFound);
      }
      var product := products[sale.productId];

      // sequelize.transaction
      var savedProducts := products;
      var store := product.store + sale.quantity - req.quantity;
      var totalPrice := product.unitPrice * req.quantity;
      products := products[sale.productId := product.(store := store)];
      var row := sale.(
        quantity := req.quantity,
        description := if req.description.Some? then req.description else sale.description,
        totalPrice := totalPrice,
        productId := req.productId.GetOr(sale.productId));
      assert products.Keys == savedProducts.Keys;
      if row.productId !in products {
        products := savedProducts;  // rollback
        assert SC.Update(t, req) == Failure(ForeignKeyViolation);
        return Failure(ForeignKeyViolation);
      }
      assert SC.Update(t, req) == Success(Change(sale, t.(products := products, sales := sales[req.id := row])));
      sales := sales[req.id := row];
      r := Success(sale);
      SC.UpdatePreservesValid(t, req);
    }

    /** sale.ts `destroy`: ok is the response's verdict, comparing with `id.length`. */
    method DestroySales(ids: set<Id>, idLength: nat) returns (affected: nat, ok: bool)
      requires Valid()
      modifies this
      ensures Valid()
      ensures Tables() == SC.Destroy(old(Tables()), ids).after
      ensures affected == SC.Destroy(old(Tables()), ids).row
      ensures ok == (affected == idLength)
    {
      SC.DestroyPreservesValid(Tables(), ids);
      affected := |ids * sales.Keys|;
      sales := sales - ids;
      ok := affected == idLength;
    }
  }

  /** A client: a sale of 3 from a store of 10 leaves 7 and is priced at 3 units; cancelling it restores 10. */
  method SellAndCancel(ledger: Ledger, productId: Id, newId: Id) returns (left: int, price: int)
    requires ledger.Valid()
    requires productId in ledger.products && ledger.products[productId].store == 10
    requires newId !in ledger.sales && SC.NextInvoiceNo(ledger.Tables()) !in SaleModel.InvoiceNumbers(ledger.sales)
    modifies ledger
    ensures left == 7
    ensures price == old(ledger.products[productId].unitPrice) * 3
    ensures ledger.Tables() == old(ledger.Tables())
  {
    ghost var t := ledger.Tables();
    var req := SC.CreateRequest(productId, 3, None);
    SC.CreateOutcome(t, req, newId);
    SC.CreateWrites(t, req, newId);
    SC.CreateThenCancelRestores(t, req, newId);
    var r := ledger.CreateSale(req, newId);
    assert r.Success? && r.value.totalPrice == t.products[productId].unitPrice * 3;
    price := r.value.totalPrice;
    left := ledger.products[productId].store;
    var c := ledger.CancelSale(newId);
    assert c.Success?;
  }
}
