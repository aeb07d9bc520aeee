/** Optional values and results with an error, for nullable fields, NaN parses
    and operations that report a message instead of acting. */
module Wrappers {

  datatype Option<+T> = None | Some(value: T)

  datatype Result<+T, +E> = Success(value: T) | Failure(error: E)
}
