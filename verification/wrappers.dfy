/** Optional values and results shared by the blog model. */
module Wrappers {

  /** An optional value: the model's stand-in for a nullable column or parameter. */
  datatype Option<+T> = None | Some(value: T)

  /** A value or the error that prevented computing it. */
  datatype Result<+R, +E> = Success(value: R) | Failure(error: E)
}
