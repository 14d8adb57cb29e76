/** Failure-carrying values used throughout the model.
    `Result` stands for a JavaScript call that either returns a value or
    throws an Error whose `message` is the string carried by `Err`. */
module Fallible {

  datatype Option<+T> = None | Some(value: T) {
    function GetOr(default: T): T {
      match this
      case Some(v) => v
      case None => default
    }
  }

  datatype Result<+T> = Ok(value: T) | Err(message: string) {
    function ToOption(): Option<T> {
      match this
      case Ok(v) => Some(v)
      case Err(_) => None
    }
  }
}
