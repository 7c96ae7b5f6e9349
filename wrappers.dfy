/** Option, Result and Outcome: the values and the thrown errors of the
    modelled TypeScript code. `undefined` in an optional position is `None`;
    a thrown `Error` is `Err`/`Fail` carrying its message. */
module Wrappers {

  datatype Option<+T> = None | Some(value: T) {
    function GetOr(default: T): T {
      match this
      case Some(v) => v
      case None => default
    }
  }

  /** A JavaScript `Error`; `new Error()` and `new Error(undefined)` carry "". */
  datatype JsError = JsError(message: string)

  datatype Result<+T> = Ok(value: T) | Err(error: JsError)

  datatype Outcome = Pass | Fail(error: JsError)
}
