/** Option and Result, the two failure-carrying datatypes the rest of the model uses:
    a Python `None`/missing value becomes `None`, a raised exception becomes `Failure`. */
module Wrappers {

  datatype Option<+T> = None | Some(value: T)

  datatype Result<+R, +E> = Success(value: R) | Failure(error: E)
}
