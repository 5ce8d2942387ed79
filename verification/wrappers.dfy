/** Nullable references of the search request (the order column, the
    parameter map, the property whitelist) become values of `Option`. */
module Wrappers {

  /** `None` stands for a null reference, `Some(v)` for a reference to `v`. */
  datatype Option<T> = None | Some(value: T) {

    /** The referenced value, or `fallback` in place of a null reference. */
    function GetOr(fallback: T): T {
      if Some? then value else fallback
    }
  }
}
