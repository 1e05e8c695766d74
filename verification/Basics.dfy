/** Shared result types. */
module Basics {
  datatype Option<+T> = None | Some(value: T)

  /** A thrown `Error` becomes an `Err`. */
  datatype Result<+T, +E> = Ok(value: T) | Err(error: E)
}
