/** Option and Result, the two failure-carrying shapes the model uses for Go's
    nil-able values and `(T, error)` returns. */
module Wrappers {

  datatype Option<+T> = None | Some(value: T)

  datatype Result<+T, +E> = Success(value: T) | Failure(error: E)
}
