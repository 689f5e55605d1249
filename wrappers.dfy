/** Failure-carrying values shared by the other modules. */
module Wrappers {

  /** A value that may be missing (Rust's `Option`). */
  datatype Option<+T> = None | Some(value: T)

  /** A value or an error (Rust's `Result`). */
  datatype Result<+T, +E> = Ok(value: T) | Err(error: E)
}
