/** Failure-carrying values shared by the modules of the match model. */
module Wrappers {

  /** A value that may be absent: an unset document field or a missing record. */
  datatype Option<T> = None | Some(value: T) {

    /** The value held, or `default` when absent. */
    function GetOr(default: T): (r: T)
      ensures Some? ==> r == value
      ensures None? ==> r == default
    {
      match this
      case Some(v) => v
      case None => default
    }
  }

  /** The outcome of a request handler: the new value, or the error it answered with. */
  datatype Result<T, E> = Ok(value: T) | Err(error: E)
}
