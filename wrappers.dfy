module Wrappers {

  /** A value that may be missing: pandas' NaN after a failed numeric coercion. */
  datatype Option<+T> = None | Some(value: T) {

    function GetOr(default: T): T {
      match this
      case Some(v) => v
      case None => default
    }
  }
}
