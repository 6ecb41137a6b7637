/** Option and Result, used for the JavaScript values that may be falsy and for the exceptions render can throw. */
module Wrappers {
  datatype Option<+T> = None | Some(value: T)

  datatype Result<+T, +E> = Success(value: T) | Failure(error: E)
}
