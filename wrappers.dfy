/** Optional values and results, for Python's None and for exceptions that
    leave a function. */
module Wrappers {

  datatype Option<+T> = None | Some(value: T)

  datatype Result<+T, +E> = Success(value: T) | Failure(error: E)
}
