/** Wrappers for Java's `null` and the exceptions the manager throws. */
module Wrappers {

  /** A Java reference that may be `null` (None). */
  datatype Option<+T> = None | Some(value: T)

  /** A value, or the exception that the call throws instead. */
  datatype Result<+R, +E> = Success(value: R) | Failure(error: E)
}
