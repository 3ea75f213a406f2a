/** Result types shared by the whole model. */
module Wrappers {

  /** A value that may be absent: a nullable column, Python's None. */
  datatype Option<+T> = None | Some(value: T)

  /** A call that returns a value or raises. */
  datatype Result<+T, +E> = Success(value: T) | Failure(error: E)
}
