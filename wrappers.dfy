/** Option and Outcome: the absent value (`null`/`undefined`) and the result of
    an asynchronous call that either returns a value or throws. */
module Wrappers {

  datatype Option<+T> = None | Some(value: T) {
    function GetOr(default: T): T {
      match this
      case Some(v) => v
      case None => default
    }
  }

  /** What an awaited call produced: a value, or an exception carrying its message. */
  datatype Outcome<+T> = Returned(value: T) | Threw(message: string)
}
