/** The outcomes shared by every service: an optional value, and a value or an HTTP exception. */
module Outcomes {

  /** A value that may be absent (`null`/`undefined` in the source). */
  datatype Option<+T> = None | Some(value: T)

  /** The NestJS exceptions the services throw, each with its message text. */
  datatype HttpError =
    | BadRequest(message: string)
    | Unauthorized(message: string)
    | Forbidden(message: string)
    | NotFound(message: string)
    | Conflict(message: string)
    | InternalServerError(message: string)

  /** What a service call resolves to: its value, or the exception it throws. */
  datatype Result<+T> = Success(value: T) | Failure(error: HttpError)
}
