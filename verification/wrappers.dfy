/** The optional-value and value-or-error datatypes used throughout the model. */
module Wrappers {

  /** A value that may be absent. */
  datatype Option<+T> = None | Some(value: T)

  /** Either a value or an error, standing in for a thrown exception. */
  datatype Result<+T, +E> = Success(value: T) | Failure(error: E)
}
