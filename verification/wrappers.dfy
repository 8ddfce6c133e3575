/** The optional value used wherever the handler may or may not have something
    (a missing request body, an unset `reply_to`, a response without an error). */
module Wrappers {

  datatype Option<+T> = None | Some(value: T) {

    /** The value held, or `default` when there is none. */
    function GetOr(default: T): T {
      match this
      case Some(v) => v
      case None => default
    }
  }
}
