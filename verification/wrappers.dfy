/** The optional-value and value-or-error types shared by the modules of this model. */
module Wrappers {

  /** A value that may be absent (Python's `None`). */
  datatype Option<+T> = None | Some(value: T)

  /** A value or the error a Python call would raise instead. */
  datatype Result<+T, +E> = Success(value: T) | Failure(error: E)
}
