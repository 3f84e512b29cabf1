/**
 * Optional values and results. `Option` stands for Go's nilable `*string`
 * fields and for parses that may fail; `Result` for a JSON body that did or
 * did not bind.
 */
module Wrappers {

  datatype Option<+T> = None | Some(value: T) {

    /** The carried value, or `default` when there is none. */
    function GetOr(default: T): T
    {
      match this
      case Some(v) => v
      case None => default
    }
  }

  datatype Result<+R, +E> = Success(value: R) | Failure(error: E)
}
