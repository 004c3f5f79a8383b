/** Option and Result, the shapes the service uses for "may be absent" and "may fail". */
module Wrappers {

  /** A value that may be missing (a dictionary key that is absent or mapped to None). */
  datatype Option<+T> = None | Some(value: T)

  /** Either a value or the error envelope the service returns instead. */
  datatype Result<+R, +E> = Success(value: R) | Failure(error: E)
}
