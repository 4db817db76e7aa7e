/**
 * backend/src/models/purchase.ts: the Location enumeration, the purchase
 * record, the defaults the ORM applies when a row is built, the column
 * constraints and the unique index on invoiceNo.
 */
module PurchaseModel {
  import opened Wrappers
  import Collections

  type Id = string

  /** `enum Location { STORE = 'store' }` */
  datatype Location = Store

  function LocationValue(l: Location): string
  {
    match l
    case Store => "store"
  }

  /** `Object.values(Location)` */
  const LocationValues: seq<string> := ["store"]

  /** The enumeration has exactly one member, spelled 'store'. */
  lemma LocationValuesAreMembers()
    ensures forall s :: s in LocationValues <==> exists l: Location :: LocationValue(l) == s
    ensures LocationValues == [LocationValue(Store)]
  {
    assert LocationValue(Store) == "store";
  }

  /** A row of the purchases table. */
  datatype Purchase = Purchase(
    id: Id,
    productId: Id,
    supplierId: Id,
    quantity: int,
    unitCost: int,
    unitPrice: int,
    totalPrice: int,
    location: string,
    invoiceNo: string,
    description: Option<string>)

  /**
   * The attributes handed to `Purchase.create`. An attribute that is not
   * supplied, or supplied under a name that is not a model attribute, is None.
   */
  datatype PurchaseCreation = PurchaseCreation(
    productId: Id,
    supplierId: Id,
    quantity: Option<int>,
    unitCost: Option<int>,
    unitPrice: Option<int>,
    totalPrice: Option<int>,
    location: Option<string>,
    invoiceNo: Option<string>,
    description: Option<string>)

  /** Column defaults (`defaultValue`); invoiceNo is a STRING column whose default is the number 0. */
  const DefaultQuantity: int := 0
  const DefaultUnitCost: int := 0
  const DefaultUnitPrice: int := 0
  const DefaultTotalPrice: int := 0
  const DefaultLocation: string := "store"
  const DefaultInvoiceNo: string := "0"

  /** The row the ORM inserts for the given attributes: each missing one takes its column default. */
  function Build(id: Id, c: PurchaseCreation): (p: Purchase)
    ensures p.id == id && p.productId == c.productId && p.supplierId == c.supplierId && p.description == c.description
    ensures p.quantity == (if c.quantity.Some? then c.quantity.value else DefaultQuantity)
    ensures p.unitCost == (if c.unitCost.Some? then c.unitCost.value else DefaultUnitCost)
    ensures p.unitPrice == (if c.unitPrice.Some? then c.unitPrice.value else DefaultUnitPrice)
    ensures p.totalPrice == (if c.totalPrice.Some? then c.totalPrice.value else DefaultTotalPrice)
    ensures p.invoiceNo == (if c.invoiceNo.Some? then c.invoiceNo.value else DefaultInvoiceNo)
    ensures p.location == (if c.location.Some? then c.location.value else DefaultLocation)
  {
    Purchase(id, c.productId, c.supplierId,
             c.quantity.GetOr(DefaultQuantity),
             c.unitCost.GetOr(DefaultUnitCost),
             c.unitPrice.GetOr(DefaultUnitPrice),
             c.totalPrice.GetOr(DefaultTotalPrice),
             c.location.GetOr(DefaultLocation),
             c.invoiceNo.GetOr(DefaultInvoiceNo),
             c.description)
  }

  /**
   * The declared column constraints a row should meet beyond its Dafny
   * types: quantity is UNSIGNED and location holds a Location value.
   */
  predicate ValidRow(p: Purchase)
  {
    p.quantity >= 0 && p.location in LocationValues
  }

  /** A row built from nothing but the two foreign keys carries every default and meets the constraints. */
  lemma DefaultsMeetConstraints(id: Id, productId: Id, supplierId: Id)
    ensures var p := Build(id, PurchaseCreation(productId, supplierId, None, None, None, None, None, None, None));
            ValidRow(p) && p.quantity == 0 && p.totalPrice == 0 && p.location == "store" && p.invoiceNo == "0"
  {
  }

  /** The invoice numbers present in the table. */
  function InvoiceNumbers(rows: map<Id, Purchase>): (s: set<string>)
    ensures forall k :: k in rows ==> rows[k].invoiceNo in s
    ensures forall n :: n in s ==> exists k :: k in rows && rows[k].invoiceNo == n
  {
    set k | k in rows :: rows[k].invoiceNo
  }

  /** The unique index on invoiceNo: no two rows share an invoice number. */
  predicate UniqueInvoices(rows: map<Id, Purchase>)
  {
    forall a, b :: a in rows && b in rows && a != b ==> rows[a].invoiceNo != rows[b].invoiceNo
  }

  /** Taking one row out of the table leaves the other rows' numbers. */
  lemma InvoiceNumbersRemove(rows: map<Id, Purchase>, k: Id)
    requires k in rows
    ensures InvoiceNumbers(rows) == InvoiceNumbers(rows - {k}) + {rows[k].invoiceNo}
  {
    var rest := rows - {k};
    forall n | n in InvoiceNumbers(rows) ensures n in InvoiceNumbers(rest) + {rows[k].invoiceNo} {
      var j :| j in rows && rows[j].invoiceNo == n;
      if j != k {
        assert j in rest && rest[j].invoiceNo == n;
      }
    }
  }

  /** Under the unique index there are exactly as many invoice numbers as rows. */
  lemma {:induction false} InvoiceCount(rows: map<Id, Purchase>)
    requires UniqueInvoices(rows)
    ensures |InvoiceNumbers(rows)| == |rows|
    decreases |rows|
  {
    if rows != map[] {
      var k :| k in rows;
      var rest := rows - {k};
      assert UniqueInvoices(rest);
      InvoiceCount(rest);
      var x := rows[k].invoiceNo;
      InvoiceNumbersRemove(rows, k);
      forall j | j in rest ensures rest[j].invoiceNo != x {
        assert j in rows && j != k;
      }
      Collections.CardAddFresh(InvoiceNumbers(rest), x);
      Collections.CardRemoveKey(rows, k);
    }
  }

  /** Inserting a row under a fresh id keeps the index unique exactly when its invoice number is unused. */
  lemma InsertKeepsUniqueIff(rows: map<Id, Purchase>, id: Id, p: Purchase)
    requires UniqueInvoices(rows) && id !in rows
    ensures UniqueInvoices(rows[id := p]) <==> p.invoiceNo !in InvoiceNumbers(rows)
  {
    var r := rows[id := p];
    if p.invoiceNo in InvoiceNumbers(rows) {
      var k :| k in rows && rows[k].invoiceNo == p.invoiceNo;
      assert k != id && r[k].invoiceNo == r[id].invoiceNo;
    }
  }

  /** Rewriting a row without touching its invoice number keeps the index unique. */
  lemma UpdateKeepsUnique(rows: map<Id, Purchase>, id: Id, p: Purchase)
    requires UniqueInvoices(rows) && id in rows && p.invoiceNo == rows[id].invoiceNo
    ensures UniqueInvoices(rows[id := p])
  {
  }
}
