/** Option and Result: the null value and the raised exception of the scrapers, as data. */
module Wrappers {

  /** A value that may be missing (Python's `None`). */
  datatype Option<+T> = None | Some(value: T)

  /** Either the value a call returned or the error it raised. */
  datatype Result<+R, +E> = Success(value: R) | Failure(error: E)
}
