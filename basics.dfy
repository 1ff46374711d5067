/** Shared helper types. */
module Basics {

  /** A value that may be missing (Rust's `Option`). */
  datatype Option<+T> = None | Some(value: T) {

    /** The value, or `default` when there is none (`unwrap_or`). */
    function GetOr(default: T): T
    {
      match this
      case Some(v) => v
      case None => default
    }
  }
}
