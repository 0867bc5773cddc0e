/** Optional values and return-or-throw outcomes, shared by the whole model:
    an optional value (a JavaScript `null`/`undefined` or a present value)
    and the outcome of an operation that either returns or throws. */
module Wrappers {

  datatype Option<+T> = None | Some(value: T)

  /** `Success` is a normal return; `Failure` carries the thrown value. */
  datatype Result<+R, +E> = Success(value: R) | Failure(error: E)
}
