/** Optional values and results with an error path, shared by the other modules. */
module Wrappers {

  /** Python's `Optional[T]`: `None` or a present value. */
  datatype Option<+T> = None | Some(value: T)

  /** A value, or the errors that prevented it from being built. */
  datatype Result<+R, +E> = Success(value: R) | Failure(error: E)
}
