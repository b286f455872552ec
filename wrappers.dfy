/** Absence markers and error-carrying results shared by every module of the model. */
module Wrappers {

  /** `null`/`undefined` on the client, `Optional`/`null` on the server. */
  datatype Option<+T> = None | Some(value: T) {
    function GetOr(default: T): T {
      match this
      case Some(v) => v
      case None => default
    }
  }

  /** A value, or the exception the source throws instead of returning one. */
  datatype Result<+T, +E> = Ok(value: T) | Err(error: E)
}
