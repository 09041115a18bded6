/** Optional values, standing for JavaScript's `undefined`/`null` versus a present value. */
module Wrappers {

  datatype Option<+T> = None | Some(value: T)

  /** The settled outcome of an asynchronous call: resolved with a value or rejected with a reason */
  datatype Result<+R, +E> = Success(value: R) | Failure(error: E)
}
