/** Optional values and results with an error, as the rest of the model uses them. */
module Wrappers {

  /** Python's `None` or a present value. */
  datatype Option<+T> = None | Some(value: T)

  /** A value, or the error that the source would raise instead of returning it. */
  datatype Result<+R, +E> = Success(value: R) | Failure(error: E)
}
