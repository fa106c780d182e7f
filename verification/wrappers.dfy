/**
 * A field that may be missing from a parsed word, which the visualiser
 * reads as `undefined`.
 */
module Wrappers {

  datatype Option<+T> = None | Some(value: T) {

    /** The field's value when present; `fallback` stands in for `undefined`. */
    function GetOr(fallback: T): T {
      if Some? then value else fallback
    }
  }
}
