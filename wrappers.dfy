/** Optional values (a nullable column) and results of a write (a row id or the constraint it violates). */
module Wrappers {

  datatype Option<+T> = None | Some(value: T)

  datatype Result<+R, +E> = Success(value: R) | Failure(error: E)
}
