/**
 * backend/src/models/sale.ts: the sale record, the defaults the ORM applies
 * when a row is built, and the unique invoiceNo column.
 */
module SaleModel {
  import opened Wrappers
  import Collections

  type Id = string

  /** A row of the sales table; productId is a non-null foreign key to products. */
  datatype Sale = Sale(
    id: Id,
    productId: Id,
    quantity: int,
    totalPrice: int,
    invoiceNo: string,
    description: Option<string>)

  /** The attributes handed to `Sale.create`; an attribute not supplied is None. */
  datatype SaleCreation = SaleCreation(
    productId: Id,
    quantity: Option<int>,
    totalPrice: Option<int>,
    invoiceNo: Option<string>,
    description: Option<string>)

  /** Column defaults; invoiceNo is a STRING column whose default is the number 0. */
  const DefaultQuantity: int := 0
  const DefaultTotalPrice: int := 0
  const DefaultInvoiceNo: string := "0"

  /** The row the ORM inserts for the given attributes: each missing one takes its column default. */
  function Build(id: Id, c: SaleCreation): (s: Sale)
    ensures s.id == id && s.productId == c.productId && s.description == c.description
    ensures s.quantity == (if c.quantity.Some? then c.quantity.value else DefaultQuantity)
    ensures s.totalPrice == (if c.totalPrice.Some? then c.totalPrice.value else DefaultTotalPrice)
    ensures s.invoiceNo == (if c.invoiceNo.Some? then c.invoiceNo.value else DefaultInvoiceNo)
  {
    Sale(id, c.productId,
         c.quantity.GetOr(DefaultQuantity),
         c.totalPrice.GetOr(DefaultTotalPrice),
         c.invoiceNo.GetOr(DefaultInvoiceNo),
         c.description)
  }

  /** A row built from the foreign key alone has quantity 0, totalPrice 0 and invoice "0". */
  lemma DefaultsApply(id: Id, productId: Id)
    ensures var s := Build(id, SaleCreation(productId, None, None, None, None));
            s.quantity == 0 && s.totalPrice == 0 && s.invoiceNo == "0" && s.productId == productId
  {
  }

  /** The invoice numbers present in the table. */
  function InvoiceNumbers(rows: map<Id, Sale>): (s: set<string>)
    ensures forall k :: k in rows ==> rows[k].invoiceNo in s
    ensures forall n :: n in s ==> exists k :: k in rows && rows[k].invoiceNo == n
  {
    set k | k in rows :: rows[k].invoiceNo
  }

  /** `unique: true` on invoiceNo: no two rows share an invoice number. */
  predicate UniqueInvoices(rows: map<Id, Sale>)
  {
    forall a, b :: a in rows && b in rows && a != b ==> rows[a].invoiceNo != rows[b].invoiceNo
  }

  /** Taking one row out of the table leaves the other rows' numbers. */
  lemma InvoiceNumbersRemove(rows: map<Id, Sale>, k: Id)
    requires k in rows
    ensures InvoiceNumbers(rows) == InvoiceNumbers(rows - {k}) + {rows[k].invoiceNo}
  {
    var rest := rows - {k};
    forall n | n in InvoiceNumbers(rows) ensures n in InvoiceNumbers(rest) + {rows[k].invoiceNo} {
      var j :| j in rows && rows[j].invoiceNo == n;
      if j != k {
        assert j in rest && rest[j].invoiceNo == n;
      }
    }
  }

  /** Under the unique index there are exactly as many invoice numbers as rows. */
  lemma {:induction false} InvoiceCount(rows: map<Id, Sale>)
    requires UniqueInvoices(rows)
    ensures |InvoiceNumbers(rows)| == |rows|
    decreases |rows|
  {
    if rows != map[] {
      var k :| k in rows;
      var rest := rows - {k};
      assert UniqueInvoices(rest);
      InvoiceCount(rest);
      var x := rows[k].invoiceNo;
      InvoiceNumbersRemove(rows, k);
      forall j | j in rest ensures rest[j].invoiceNo != x {
        assert j in rows && j != k;
      }
      Collections.CardAddFresh(InvoiceNumbers(rest), x);
      Collections.CardRemoveKey(rows, k);
    }
  }

  /** Inserting a row under a fresh id keeps the column unique exactly when its invoice number is unused. */
  lemma InsertKeepsUniqueIff(rows: map<Id, Sale>, id: Id, s: Sale)
    requires UniqueInvoices(rows) && id !in rows
    ensures UniqueInvoices(rows[id := s]) <==> s.invoiceNo !in InvoiceNumbers(rows)
  {
    var r := rows[id := s];
    if s.invoiceNo in InvoiceNumbers(rows) {
      var k :| k in rows && rows[k].invoiceNo == s.invoiceNo;
      assert k != id && r[k].invoiceNo == r[id].invoiceNo;
    }
  }

  /** Rewriting a row without touching its invoice number keeps the column unique. */
  lemma UpdateKeepsUnique(rows: map<Id, Sale>, id: Id, s: Sale)
    requires UniqueInvoices(rows) && id in rows && s.invoiceNo == rows[id].invoiceNo
    ensures UniqueInvoices(rows[id := s])
  {
  }
}
