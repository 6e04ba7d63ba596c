/** Optional values and outcomes with an error message, as the source's
    `undefined` results and caught exceptions. */
module Wrappers {

  /** `None` plays JavaScript's `undefined`: a key that is absent, a `find`
      that found nothing. */
  datatype Option<+T> = None | Some(value: T)

  /** The result of an operation that either returns or throws an error whose
      `message` is `msg`. */
  datatype Result<+T> = Ok(value: T) | Err(msg: string)
}
