/** Option and Result, used where the source returns null/undefined or throws. */
module Wrappers {

  datatype Option<+T> = None | Some(value: T)

  /** Success carries the value; Failure carries the kind of error the source throws. */
  datatype Result<+T, +E> = Ok(value: T) | Err(error: E)
}
