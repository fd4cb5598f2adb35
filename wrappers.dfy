/** The optional value used wherever the source has `undefined`, `null` or `NaN`. */
module Wrappers {

  datatype Option<+T> = None | Some(value: T) {

    /** The value, or `default` when there is none (the source's `x || default` on non-falsy values). */
    function GetOr(default: T): T {
      match this
      case Some(v) => v
      case None => default
    }
  }

  /** A result or the name of the JavaScript exception the source would throw. */
  datatype Result<+R> = Success(value: R) | Failure(error: string)
}
