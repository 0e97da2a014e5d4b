/** Option and Result: the model's stand-ins for Go's nil pointers and
    `(value, error)` return pairs. */
module Wrappers {

  /** A nullable value: `None` plays the part of a nil pointer. */
  datatype Option<+T> = None | Some(value: T)

  /** A Go `(value, err)` pair where exactly one side is meaningful. */
  datatype Result<+T, +E> = Ok(value: T) | Err(error: E)
}
