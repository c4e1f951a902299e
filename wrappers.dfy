/** Option and Result, the two failure-carrying datatypes the model uses for
    partial operations (date parsing) and for the handlers' error returns. */
module Wrappers {

  datatype Option<+T> = None | Some(value: T)

  datatype Result<+R, +E> = Success(value: R) | Failure(error: E)
}
