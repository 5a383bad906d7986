/** Option and Result values shared by the modules of this model. */
module Wrappers {

  /** An optional value; `None` stands for Python's `None`. */
  datatype Option<+T> = None | Some(value: T) {
    function GetOr(default: T): T {
      match this
      case Some(v) => v
      case None => default
    }
  }

  /** The outcome of an operation that can raise: `Err` carries the exception. */
  datatype Result<+R, +E> = Ok(value: R) | Err(error: E)
}
