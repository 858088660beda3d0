/** A value that JavaScript may leave `null` or `undefined`. */
module Wrappers {

  datatype Option<+T> = None | Some(value: T) {

    /** The value, or `default` when there is none. */
    function GetOr(default: T): T {
      match this
      case Some(v) => v
      case None => default
    }
  }

  /** A JavaScript string in a condition: missing and "" are false. */
  predicate Present(s: Option<string>) {
    s.Some? && s.value != ""
  }
}
