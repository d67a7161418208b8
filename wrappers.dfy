/** Option and Result: Java's null and thrown exceptions, as values. */
module Wrappers {

  /** A reference that may be null. */
  datatype Option<+T> = None | Some(value: T)

  /** Either a normal return value or the exception that ended the call. */
  datatype Result<+R, +E> = Success(value: R) | Failure(error: E)
}
