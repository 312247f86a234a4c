/** Option and Result, the failure-compatible wrappers used throughout the model. */
module Wrappers {

  datatype Option<+T> = None | Some(value: T) {
    /** The value, or `default` when there is none. */
    function GetOr(default: T): T {
      match this
      case Some(v) => v
      case None => default
    }
  }

  /** The Python exceptions the modelled code can raise and does not catch. */
  datatype PyError =
    | TypeError(message: string)
    | AttributeError(message: string)
    | KeyError(key: string)

  datatype Result<+R> = Ok(value: R) | Err(error: PyError)
}
