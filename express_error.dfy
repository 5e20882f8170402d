/** The errors the job code throws, as values: `BadRequestError` and
    `NotFoundError`, plus the failures the database itself reports. */
module ExpressError {

  datatype Error =
    | BadRequest(message: string)
    | NotFound(message: string)
    | DatabaseError(message: string)

  /** A call either returns a value or throws one of the errors above. */
  datatype Result<T> = Ok(value: T) | Err(error: Error)
}
