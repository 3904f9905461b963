/** Option and Result, the two wrappers every module of the model uses:
    Option stands for a Go pointer that may be nil, Result for a computation
    that may panic or return an error instead of a value. */
module Wrappers {

  datatype Option<+T> = None | Some(value: T)

  datatype Result<+R, +E> = Success(value: R) | Failure(error: E)
}
