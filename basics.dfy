/** Option and Result values shared by the other modules. */
module Basics {

  /** Python's `None` or a value. */
  datatype Option<+T> = None | Some(value: T)

  /** A value returned normally, or the exception that escaped. */
  datatype Result<+T, +E> = Success(value: T) | Failure(error: E)
}
