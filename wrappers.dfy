/** Failure-carrying results shared by every service of the model. */
module Wrappers {

  /** A value that may be missing (`undefined` / `null` in the backend). */
  datatype Option<+T> = None | Some(value: T)

  /** The kinds of exception the backend throws, each with its message.
      The first four are the NestJS HTTP exceptions; `Failure` is any other
      error (a database constraint, a runtime TypeError). */
  datatype Error =
    | Unauthorized(message: string)
    | NotFound(message: string)
    | Forbidden(message: string)
    | Conflict(message: string)
    | Failure(message: string)

  /** The outcome of an operation that either returns a value or throws. */
  datatype Result<+T> = Ok(value: T) | Err(error: Error)
}
