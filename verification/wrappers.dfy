/** Optional values and handler outcomes.

    `Option` stands for a JavaScript value that may be `undefined` or `null`;
    `Result` for a computation that either yields a value or an error reply. */
module Wrappers {

  datatype Option<+T> = None | Some(value: T) {

    /** The wrapped value, or `default` when there is none. */
    function GetOr(default: T): T {
      match this
      case Some(v) => v
      case None => default
    }
  }

  datatype Result<+T, +E> = Ok(value: T) | Err(error: E)
}
