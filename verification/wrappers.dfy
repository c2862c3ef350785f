/** Option and Result values used across the model in place of JavaScript's
    `null`/`undefined` and of the `{ success, data | error }` envelopes the
    repository returns from its helpers. */
module Wrappers {

  datatype Option<+T> = None | Some(value: T) {

    /** The carried value, or `default` when there is none. */
    function GetOr(default: T): T {
      match this
      case Some(v) => v
      case None => default
    }
  }

  /** A `{ success: true, data }` or `{ success: false, error }` envelope. */
  datatype Result<+R, +E> = Success(value: R) | Failure(error: E)
}
