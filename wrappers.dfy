/** Optional values and success/failure results, used for JavaScript's
    `null`/`undefined` fields and for the error messages the pages show. */
module Wrappers {

  datatype Option<+T> = None | Some(value: T)

  datatype Result<+R, +E> = Success(value: R) | Failure(error: E)
}
