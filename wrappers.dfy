/** The two failure-carrying wrappers the model uses. */
module Wrappers {

  /** A value that may be absent: a nullable column or an optional form field. */
  datatype Option<+T> = None | Some(value: T)

  /** A value or the error that stopped it: a form's cleaned value or its validation error. */
  datatype Result<+R, +E> = Success(value: R) | Failure(error: E)
}
