/** Option and Result values shared by the modules of this model, named after Rust's
    `Option` and `Result`. */
module Wrappers {

  datatype Option<+T> = None | Some(value: T) {
    /** The contained value, or `default` for None (Rust's `unwrap_or`). */
    function UnwrapOr(default: T): T {
      match this
      case Some(v) => v
      case None => default
    }
  }

  /** A result of an operation that can fail with an error of type E. */
  datatype Result<+R, +E> = Ok(value: R) | Err(error: E)

  /** How a Rust call ends: it returns a value, or it panics (an `expect`, an `assert!`,
      an out-of-range slice or index). */
  datatype Outcome<+T> = Returns(value: T) | Panics
}
