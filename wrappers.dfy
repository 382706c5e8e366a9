/** Option and Result, the shapes the service's nullable returns and thrown errors take. */
module Wrappers {
  datatype Option<+T> = None | Some(value: T)

  datatype Result<+T, +E> = Success(value: T) | Failure(error: E)
}
