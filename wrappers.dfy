/** Optional values and results with an error, the two shapes the parser's
    return values take (`Optional[str]`, and a value or a raised error). */
module Wrappers {

  datatype Option<+T> = None | Some(value: T)

  datatype Result<+T, +E> = Success(value: T) | Failure(error: E)
}
