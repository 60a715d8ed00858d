/** Option and Result: absent values and thrown errors of the modelled code. */
module Wrappers {

  /** `null` / `undefined` (None) or a present value. */
  datatype Option<+T> = None | Some(value: T) {
    function GetOr(default: T): T {
      match this
      case Some(v) => v
      case None => default
    }
  }

  /** A returned value or a thrown error. */
  datatype Result<+T, +E> = Success(value: T) | Failure(error: E)
}
