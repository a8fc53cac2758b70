/** Small value wrappers shared by every module of the model. */
module Wrappers {

  /** JavaScript's `undefined` / Python's `None` next to a present value. */
  datatype Option<+T> = None | Some(value: T) {

    /** The value, or `default` when absent (JavaScript's `x ?? default`). */
    function GetOr(default: T): T {
      match this
      case Some(v) => v
      case None => default
    }
  }
}
