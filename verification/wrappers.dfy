/** Optional values and results with an error, as the handlers use them. */
module Wrappers {

  /** A value that may be absent (Python's `Optional[...]`). */
  datatype Option<+T> = None | Some(value: T)

  /** Either a value or the error that stopped the computation (a raised exception). */
  datatype Result<+R, +E> = Success(value: R) | Failure(error: E)

  /** The error an endpoint raises as `HTTPException(status_code, detail)`. */
  datatype HttpError = HttpError(status: int, detail: string)
}
