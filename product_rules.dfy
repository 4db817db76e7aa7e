/**
 * The request validators of backend/src/middlewares/validators/rules/product.ts,
 * read as in purchase_rules.dfy: each chain sanitises, checks in order and
 * reports a message per failing check, and an absent field arrives as "".
 * The category table is only read, as a set of keys.
 */
module ProductRules {
  import opened Wrappers
  import opened Text
  import opened Checks
  import opened Inventory

  /** The raw text of the body fields the rules look at. */
  datatype Body = Body(
    id: string,
    categoryId: string,
    name: string,
    unitCost: string,
    unitPrice: string,
    store: string)

  /** `categoryId`: required, then (after `bail`) an existing category. */
  function CategoryIdErrors(raw: string, categories: set<Id>): (r: seq<string>)
    ensures r == [] <==> Clean(raw) != "" && Clean(raw) in categories
  {
    var v := Clean(raw);
    if v == "" then ["Category id is required"]
    else if v !in categories then ["Category not found"]
    else []
  }

  /**
   * `itemExists(product, req.body.id)` for the product `findOne` returns:
   * a product with this name exists and it is not the one being updated.
   * A create body carries no id (self is None).
   */
  predicate NameTaken(products: map<Id, Product>, name: string, self: Option<Id>)
  {
    exists k :: k in products && products[k].name == name && Some(k) != self
  }

  /**
   * `findOne` returns a single row. When at most one product carries the
   * name, whichever row it returns, the check agrees with testing that row
   * against the body's id.
   */
  lemma NameTakenByPick(products: map<Id, Product>, name: string, self: Option<Id>, pick: Id)
    requires pick in products && products[pick].name == name
    requires forall k :: k in products && products[k].name == name ==> k == pick
    ensures NameTaken(products, name, self) <==> Some(pick) != self
  {
  }

  /**
   * `name`: required and 2 to 50 characters long (counted after escaping);
   * only when both hold (`bail`) is the name looked up.
   */
  function NameErrors(raw: string, products: map<Id, Product>, self: Option<Id>): (r: seq<string>)
    ensures r == [] <==> IsLength(Clean(raw), 2, 50) && !NameTaken(products, Clean(raw), self)
    ensures Clean(raw) == "" ==> r == ["Product name is required", "Product name must be between 2 and 50 characters"]
  {
    var v := Clean(raw);
    var checks := (if v == "" then ["Product name is required"] else [])
      + (if !IsLength(v, 2, 50) then ["Product name must be between 2 and 50 characters"] else []);
    if checks != [] then checks
    else if NameTaken(products, v, self) then ["A product with this name already exists"]
    else []
  }

  /** `unitCost`: required, and a decimal of at least 1. */
  function UnitCostErrors(raw: string): (r: seq<string>)
    ensures r == [] <==> IsFloatMin(Clean(raw), 1.0)
  {
    var v := Clean(raw);
    (if v == "" then ["Unit cost is required"] else [])
    + (if !IsFloatMin(v, 1.0) then ["Unit cost must be greater than 1.00"] else [])
  }

  /** `unitPrice`: required, a decimal of at least 1, and not below the unit cost. */
  function UnitPriceErrors(raw: string, rawCost: string): (r: seq<string>)
    ensures r == [] <==> IsFloatMin(Clean(raw), 1.0) && !FloatLess(Clean(raw), Clean(rawCost))
  {
    var v := Clean(raw);
    var atLeastOne := IsFloatMin(v, 1.0);
    var belowCost := FloatLess(v, Clean(rawCost));
    EmptyIsNotFloat();
    (if v == "" then ["Unit price is required"] else [])
    + (if !atLeastOne then ["Unit price must be greater than 1.00"] else [])
    + (if belowCost then ["Unit price must not be less than unit cost"] else [])
  }

  /** `store`: required, and an integer of at least 1. */
  function StoreErrors(raw: string): (r: seq<string>)
    ensures r == [] <==> IsIntMin(Clean(raw), 1)
  {
    var v := Clean(raw);
    (if v == "" then ["Number of items in store is required"] else [])
    + (if !IsIntMin(v, 1) then ["Number of items in store must be greater than 0"] else [])
  }

  /** `commonRules`, in declaration order; the unseen description rule is not part of this model. */
  function CommonErrors(b: Body, products: map<Id, Product>, categories: set<Id>, self: Option<Id>): seq<string>
  {
    CategoryIdErrors(b.categoryId, categories)
    + NameErrors(b.name, products, self)
    + UnitCostErrors(b.unitCost)
    + UnitPriceErrors(b.unitPrice, b.unitCost)
    + StoreErrors(b.store)
  }

  /** `productRules.create` */
  function CreateErrors(b: Body, products: map<Id, Product>, categories: set<Id>): (r: seq<string>)
    ensures r == [] <==> Acceptable(b, products, categories, None)
  {
    CommonErrors(b, products, categories, None)
  }

  /**
   * The update's `id`: required, and an existing product. There is no
   * `bail`, so an empty id reports both messages.
   */
  function IdErrors(raw: string, products: map<Id, Product>): (r: seq<string>)
    ensures r == [] <==> Clean(raw) != "" && Clean(raw) in products
  {
    var v := Clean(raw);
    (if v == "" then ["Product id is required"] else [])
    + (if v !in products then ["Product not found"] else [])
  }

  /** `productRules.update`: the id first, then the common rules, with the sanitised id as the product's own. */
  function UpdateErrors(b: Body, products: map<Id, Product>, categories: set<Id>): (r: seq<string>)
    ensures r == [] <==> && Clean(b.id) != "" && Clean(b.id) in products
                         && Acceptable(b, products, categories, Some(Clean(b.id)))
  {
    IdErrors(b.id, products) + CommonErrors(b, products, categories, Some(Clean(b.id)))
  }

  /** What an accepted product body is, stated field by field. */
  predicate Acceptable(b: Body, products: map<Id, Product>, categories: set<Id>, self: Option<Id>)
  {
    var cost := Clean(b.unitCost);
    var price := Clean(b.unitPrice);
    && Clean(b.categoryId) != "" && Clean(b.categoryId) in categories
    && 2 <= |Clean(b.name)| <= 50
    && (forall k :: k in products && products[k].name == Clean(b.name) ==> Some(k) == self)
    && IsFloatMin(cost, 1.0)
    && IsFloatMin(price, 1.0)
    && FloatValue(price) >= FloatValue(cost)
    && IsIntMin(Clean(b.store), 1)
  }

  /** An empty update id reports both id messages: the chain has no `bail`. */
  lemma EmptyIdReportsTwice(products: map<Id, Product>)
    requires "" !in products
    ensures IdErrors("", products) == ["Product id is required", "Product not found"]
  {
    assert Clean("") == "";
  }

  // ---------------------------------------------------------------- title case

  /**
   * The sanitiser applied to an accepted name. backend/src/libs/toTitleCase.js
   * is not part of this model; this is the usual reading: a letter that
   * begins a word (the first character, or one after whitespace) is
   * upper-cased and every other letter lower-cased.
   */
  function TitleCase(s: string): (r: string)
    ensures |r| == |s|
    ensures forall i :: 0 <= i < |s| ==> r[i] == Cased(s, i)
  {
    seq(|s|, i requires 0 <= i < |s| => Cased(s, i))
  }

  /** The character title-casing puts at index i. */
  function Cased(s: string, i: nat): char
    requires i < |s|
  {
    if i == 0 || IsSpace(s[i - 1]) then Upper(s[i]) else Lower(s[i])
  }

  /** The name the product is stored under. */
  function StoredName(b: Body): string
  {
    TitleCase(Clean(b.name))
  }

  /** An accepted name is stored with the same length, so still 2 to 50 characters. */
  lemma StoredNameLength(b: Body, products: map<Id, Product>, categories: set<Id>, self: Option<Id>)
    requires CommonErrors(b, products, categories, self) == []
    ensures 2 <= |StoredName(b)| <= 50
  {
    assert NameErrors(b.name, products, self) == [];
  }

  /** Title-casing a title-cased name changes nothing. */
  lemma TitleCaseIdempotent(s: string)
    ensures TitleCase(TitleCase(s)) == TitleCase(s)
  {
    var t := TitleCase(s);
    forall i | 0 <= i < |s| ensures TitleCase(t)[i] == t[i] {
      assert t[i] == Cased(s, i);
      if i > 0 {
        assert t[i - 1] == Cased(s, i - 1);
      }
    }
  }

  /** Title-casing only changes the case of letters: lower-casing both sides gives the same character. */
  lemma TitleCaseKeepsLetters(s: string, i: nat)
    requires i < |s|
    ensures Lower(TitleCase(s)[i]) == Lower(s[i])
    ensures !IsLetter(s[i]) ==> TitleCase(s)[i] == s[i]
  {
    assert TitleCase(s)[i] == Cased(s, i);
  }

  /**
   * The name is looked up as sent (escaped, before title-casing), while the
   * stored names are title-cased: a differently cased spelling of a stored
   * name passes the name rule and is then stored under that same name.
   */
  lemma CaseVariantPasses(product: Product, name: string)
    requires forall i :: 0 <= i < |name| ==> IsLetter(name[i])
    requires 2 <= |name| <= 50 && name != product.name && TitleCase(name) == product.name
    ensures var products := map[product.id := product];
            && NameErrors(name, products, None) == []
            && TitleCase(Clean(name)) == product.name
  {
    CleanLetters(name);
  }

  /** With "Apel" stored, a create named "apel" passes the name rule and would be stored as a second "Apel". */
  lemma LowerCaseDuplicatePasses(product: Product)
    requires product.name == "Apel"
    ensures var products := map[product.id := product];
            && NameErrors("apel", products, None) == []
            && TitleCase("apel") == product.name
  {
    var name := "apel";
    var t := TitleCase(name);
    assert t[0] == Cased(name, 0) == 'A';
    assert t[1] == Cased(name, 1) == 'p';
    assert t[2] == Cased(name, 2) == 'e';
    assert t[3] == Cased(name, 3) == 'l';
    assert name[0] != product.name[0];
    CaseVariantPasses(product, name);
  }
}
