/** The usual carriers for an absent value and for a Go `(value, error)` pair. */
module Wrappers {
  datatype Option<+T> = None | Some(value: T)

  datatype Result<+R, +E> = Success(value: R) | Failure(error: E)
}
