/** Option, Result and the exceptions the services raise.

    The services throw NestJS HTTP exceptions (BadRequestException,
    NotFoundException, ...) or a plain Error; a thrown exception becomes
    an `Err` carrying the same kind and message. */
module Wrappers {

  datatype Option<+T> = None | Some(value: T) {
    function GetOr(default: T): T {
      match this
      case Some(v) => v
      case None => default
    }
  }

  /** The exception kinds raised by the modelled code. `Thrown` is a plain
      `Error` (or a database/driver error that reaches the caller). */
  datatype Exception =
    | BadRequest(message: string)
    | NotFound(message: string)
    | Conflict(message: string)
    | Forbidden(message: string)
    | Unauthorized(message: string)
    | Thrown(message: string)

  datatype Result<+T> = Ok(value: T) | Err(error: Exception) {
    predicate IsFailure() {
      Err?
    }

    function PropagateFailure<U>(): Result<U>
      requires Err?
    {
      Err(error)
    }

    function Extract(): T
      requires Ok?
    {
      value
    }
  }
}
