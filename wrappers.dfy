/** Option and result values shared by every part of the model. */
module Wrappers {

  /** A JavaScript value that may be `undefined`/`null` (None) or present. */
  datatype Option<T> = None | Some(value: T) {
    function GetOr(default: T): T {
      match this
      case Some(v) => v
      case None => default
    }
  }

  /**
   * What a gateway call hands back: a payload, or the message of the error it
   * caught. It stands for the `{ x, error: null }` / `{ x: null, error }` pairs
   * of the source, exactly one slot of which is populated; it also stands for
   * what a remote call produced (a value, or an exception with a message).
   */
  datatype Outcome<T> = Ok(value: T) | Err(message: string)

  /** The `{ success, error }` pair returned by the mutating gateway calls. */
  datatype Status = Success | Failure(error: string)
}
