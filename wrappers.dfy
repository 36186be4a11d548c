/** Option and Result: the values that carry an absent value or a failure. */
module Wrappers {
  datatype Option<+T> = None | Some(value: T)

  datatype Result<+T, +E> = Ok(value: T) | Err(error: E)
}
