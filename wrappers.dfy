/** Optional values and results with an error, shared by the other modules. */
module Wrappers {

  /** An optional value; `None` plays the part of Python's `None` (JSON `null`). */
  datatype Option<+T> = None | Some(value: T)

  /** The value of an operation that either succeeds or raises an error. */
  datatype Result<+R, +E> = Success(value: R) | Failure(error: E)
}
