/** Option and Result values used for the source's `None` returns and raised errors. */
module Wrappers {

  datatype Option<+T> = None | Some(value: T)

  datatype Result<+R, +E> = Success(value: R) | Failure(error: E)

  /** An HTTP error as raised with FastAPI's HTTPException: status code and detail text. */
  datatype HttpError = HttpError(status: int, detail: string)
}
