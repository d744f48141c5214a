/** Option and Result, used where the source returns null or throws. */
module Wrappers {

  /** `None` stands for a Java `null` reference. */
  datatype Option<+T> = None | Some(value: T)

  /** `Failure` stands for an exception thrown by the source. */
  datatype Result<+T, +E> = Success(value: T) | Failure(error: E)
}
