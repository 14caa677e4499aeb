/** Optional values, standing for Python's `None` / value. */
module Wrappers {

  datatype Option<+T> = None | Some(value: T) {

    /** The value, or `default` when there is none (Python's `x or default` on optionals). */
    function GetOr(default: T): T {
      match this
      case Some(v) => v
      case None => default
    }
  }

  /** Python truthiness of an optional string: `None` and `""` are falsy. */
  predicate Truthy(o: Option<string>) {
    o.Some? && o.value != ""
  }
}
