/** Optional values and results with an error, used wherever the system
    returns None or raises instead of producing a value. */
module Wrappers {

  datatype Option<+T> = None | Some(value: T) {
    function GetOr(default: T): T {
      match this
      case Some(v) => v
      case None => default
    }
  }

  /** Python exceptions that the modelled code raises (and does not catch). */
  datatype Raised =
    | ValueError | KeyError | TypeError | AttributeError | StructError
    | ZeroDivisionError | UnboundLocalError

  datatype Result<+T> = Ok(value: T) | Err(error: Raised)
}
