/** Option and Result, the two failure-carrying shapes the model uses for
    nullable columns, NaN results and rejected backend calls. */
module Wrappers {

  datatype Option<+T> = None | Some(value: T)

  datatype Result<+R, +E> = Success(value: R) | Failure(error: E)
}
