/** Optional values and pass/fail outcomes, used for the data source's
    optional settings and for the errors its constructor throws. */
module Wrappers {

  datatype Option<T> = None | Some(value: T) {
    function GetOr(default: T): T {
      match this
      case Some(v) => v
      case None => default
    }
  }

  datatype Outcome<E> = Pass | Fail(error: E)
}
