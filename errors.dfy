/** The two error classes of the store (`DBError`, `ParamError`, each carrying a code and a
    message), the JavaScript `TypeError` the runtime raises on its own, and the outcome of an
    operation that may throw one of them. */
module Errors {

  datatype Error =
    | ParamError(code: int, message: string)  // the caller passed a missing or wrong argument
    | DBError(code: int, message: string)     // the stored data could not be read, or no match
    | TypeError                               // raised by the JavaScript runtime, not by the store

  /** What a call that may throw produces: its value, or the error it throws. */
  datatype Result<T> = Success(value: T) | Failure(error: Error)
}
