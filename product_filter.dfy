/**
 * The `product` list filter of backend/src/middlewares/filters/product.ts:
 * the query's name and category become a list of conditions on the
 * products table, which the unseen `processFilters` combines.
 */
module ProductFilter {
  import opened Wrappers
  import opened Text
  import opened Inventory

  /** One `where` condition. */
  datatype Condition =
      /** `{ name: { [Op.iLike]: pattern } }` */
    | NameILike(pattern: string)
      /** `{ categoryId: category }` */
    | CategoryIs(categoryId: string)

  /** A query parameter is truthy when it is present and not "". */
  predicate Given(v: Option<string>)
  {
    v.Some? && v.value != ""
  }

  /**
   * The conditions for the query parameters name and category, pushed in
   * that order.
   */
  method ProductConditions(name: Option<string>, category: Option<string>) returns (conditions: seq<Condition>)
    ensures !Given(name) && !Given(category) ==> conditions == []
    ensures |conditions| == (if Given(name) then 1 else 0) + (if Given(category) then 1 else 0)
    ensures Given(name) ==> conditions[0] == NameILike("%" + name.value + "%")
    ensures Given(category) ==> conditions[|conditions| - 1] == CategoryIs(category.value)
    ensures forall i :: 0 <= i < |conditions| ==> (conditions[i].NameILike? <==> i == 0 && Given(name))
  {
    conditions := [];
    if Given(name) {
      conditions := conditions + [NameILike("%" + name.value + "%")];
    }
    if Given(category) {
      conditions := conditions + [CategoryIs(category.value)];
    }
  }

  /**
   * What a condition selects. `ILIKE` ignores case; a pattern of the shape
   * `%text%` selects the names that contain text. Wildcards inside the
   * text are not part of this model.
   */
  predicate Holds(c: Condition, p: Product)
  {
    match c
    case NameILike(pattern) =>
      |pattern| >= 2 && pattern[0] == '%' && pattern[|pattern| - 1] == '%'
      && Contains(LowerAll(p.name), LowerAll(pattern[1..|pattern| - 1]))
    case CategoryIs(id) => p.categoryId == id
  }

  /** The products every condition selects. */
  predicate Selects(conditions: seq<Condition>, p: Product)
  {
    forall i :: 0 <= i < |conditions| ==> Holds(conditions[i], p)
  }

  /**
   * The conditions built for a query select exactly the products whose
   * name contains the given name, ignoring case, and whose category is the
   * given category.
   */
  lemma ConditionsSelect(name: Option<string>, category: Option<string>, conditions: seq<Condition>, p: Product)
    requires |conditions| == (if Given(name) then 1 else 0) + (if Given(category) then 1 else 0)
    requires Given(name) ==> conditions[0] == NameILike("%" + name.value + "%")
    requires Given(category) ==> conditions[|conditions| - 1] == CategoryIs(category.value)
    ensures Selects(conditions, p) <==>
              && (Given(name) ==> Contains(LowerAll(p.name), LowerAll(name.value)))
              && (Given(category) ==> p.categoryId == category.value)
  {
    if Given(name) {
      var pattern := "%" + name.value + "%";
      assert pattern[1..|pattern| - 1] == name.value;
    }
  }
}
