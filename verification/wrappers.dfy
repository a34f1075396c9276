/** Optional values and results with an error case, used wherever the
    application works with `undefined`/`null` fields or can fail. */
module Wrappers {

  /** A value that may be absent: `T | undefined` (or `T | null`) in the application. */
  datatype Option<T> = None | Some(value: T)

  /** Either a computed value or the error that prevented computing it. */
  datatype Result<R, E> = Success(value: R) | Failure(error: E)
}
