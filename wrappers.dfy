/** Optional values and error-carrying results, used where the Go code returns
    a value together with an error or a nil pointer. */
module Wrappers {

  datatype Option<+T> = None | Some(value: T)

  datatype Result<+T, +E> = Success(value: T) | Failure(error: E)
}
