/** Failure-compatible helper datatypes shared by every module of the model. */
module Wrappers {

  /** An optional value: a request-body field that may be absent, a lookup that may miss. */
  datatype Option<+T> = None | Some(value: T) {

    /** The value, or `default` when absent. */
    function GetOr(default: T): (r: T)
      ensures Some? ==> r == value
      ensures None? ==> r == default
    {
      match this
      case Some(v) => v
      case None => default
    }
  }

  /** Either a successful value or a typed error, the model of a thrown error class. */
  datatype Result<+R, +E> = Success(value: R) | Failure(error: E)
}
