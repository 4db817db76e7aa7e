/** Option, the stand-in for JavaScript's `undefined`, used across the model. */
module Wrappers {

  datatype Option<+T> = None | Some(value: T) {

    /** `x ?? fallback` */
    function GetOr(fallback: T): T
    {
      match this
      case Some(v) => v
      case None => fallback
    }
  }
}
