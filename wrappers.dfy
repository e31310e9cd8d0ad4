/** Optional values and success/failure results, used where the source
    returns `undefined` (Array.prototype.find), `null` (a missing query
    parameter) or rejects an input. */
module Wrappers {

  datatype Option<+T> = None | Some(value: T)

  datatype Result<+R, +E> = Success(value: R) | Failure(error: E)
}
