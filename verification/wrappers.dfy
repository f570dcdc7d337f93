/** Small failure-carrying datatypes shared by the model. */
module Wrappers {

  /** A value that may be missing; stands for Go's nil or an absent map entry. */
  datatype Option<+T> = None | Some(value: T) {

    /** The carried value, or `default` when there is none. */
    function GetOr(default: T): T {
      match this
      case Some(v) => v
      case None => default
    }
  }

  /** Either a value or the text of a Go `error`. */
  datatype Result<+R> = Success(value: R) | Failure(error: string)
}
