/** Optional values and success/failure results used across the model. */
module Wrappers {

  /** `None` stands for a missing, `null` or `undefined` value. */
  datatype Option<+T> = None | Some(value: T) {
    function GetOr(default: T): T {
      match this
      case Some(v) => v
      case None => default
    }
  }

  /** `Err` stands for a thrown `Error` carrying its message. */
  datatype Result<+T> = Ok(value: T) | Err(message: string)
}
