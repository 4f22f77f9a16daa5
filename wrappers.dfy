/** Optional values, results, thrown values and toasts shared by the
    modules of the model.
    `None` stands for JavaScript's `null`/`undefined` (and for `NaN` where a
    number could not be parsed); `Failure` stands for a thrown error. */
module Wrappers {

  datatype Option<+T> = None | Some(value: T) {
    function GetOr(default: T): T {
      match this
      case Some(v) => v
      case None => default
    }
  }

  datatype Result<+R, +E> = Success(value: R) | Failure(error: E)

  /** A thrown value: an `Error` (or an error object) with its message, or
      anything else. */
  datatype Thrown = ErrorMessage(message: string) | NotAnError

  /** A toast notification; `destructive` is the error styling. */
  datatype Toast = Toast(title: string, description: string, destructive: bool)
}
