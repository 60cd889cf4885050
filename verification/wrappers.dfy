/** Optional values and results shared by every module of the model. */
module Wrappers {

  /** A value that may be missing: an absent map entry, a null selection. */
  datatype Option<+T> = None | Some(value: T) {

    /** The held value, or `default` when there is none. */
    function GetOr(default: T): T {
      match this
      case Some(v) => v
      case None => default
    }
  }

  /** The outcome of an operation that can be refused. */
  datatype Result<+T, +E> = Ok(value: T) | Err(error: E)
}
