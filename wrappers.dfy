/** Option and Result values, and the HTTP shapes the service exchanges. */
module Wrappers {

  datatype Option<+T> = None | Some(value: T)

  datatype Result<+T, +E> = Ok(value: T) | Err(error: E)

  /** An HTTPException raised by the service: a status code and a detail message. */
  datatype HttpError = HttpError(status: int, detail: string)
}
