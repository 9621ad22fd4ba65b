/** Optional values and results with an error payload, used for Python's
    `Optional[...]` and for operations that raise. */
module Wrappers {

  datatype Option<+T> = None | Some(value: T)

  datatype Result<+R, +E> = Success(value: R) | Failure(error: E)
}
