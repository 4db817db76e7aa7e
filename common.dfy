/** backend/src/libs/common.ts */
module Common {
  import opened Wrappers

  /**
   * `enumFromStringValue(enumeration, value)`: the enumeration is given by
   * its `Object.values`, and an absent request value (`undefined`) is None.
   * The value itself is returned when it is one of the enumeration's values.
   */
  function EnumFromStringValue(values: seq<string>, value: Option<string>): (r: Option<string>)
    ensures r.Some? <==> value.Some? && value.value in values
    ensures r.Some? ==> r == value && r.value in values
  {
    if value.Some? && value.value in values then value else None
  }

  /** Looking up a member that the lookup already returned gives it back. */
  lemma EnumFromStringValueIdempotent(values: seq<string>, value: Option<string>)
    ensures var r := EnumFromStringValue(values, value);
            r.Some? ==> EnumFromStringValue(values, r) == r
  {
  }
}
