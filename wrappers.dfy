/** Option, the stand-in for the source's `null` / `undefined` results and optional fields. */
module Wrappers {

  datatype Option<+T> = None | Some(value: T) {

    /** The wrapped value, or `default` when there is none (the source's `x ?? default`). */
    function GetOr(default: T): T {
      match this
      case Some(v) => v
      case None => default
    }

    /** This option if it holds a value, otherwise `other` (a spread `{...other, ...this}` of one field). */
    function Or(other: Option<T>): Option<T> {
      if Some? then this else other
    }
  }
}
