/** Optional values and results: `null`/`None` next hops and the error returns of the path resolver. */
module Wrappers {

  datatype Option<+T> = None | Some(value: T)

  datatype Result<+T, +E> = Success(value: T) | Failure(error: E)
}
