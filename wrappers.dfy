/** Option and Result types shared by the model, plus the Python exceptions
    that the scheduling code can raise while it resolves dates. */
module Wrappers {

  datatype Option<T> = None | Some(value: T)

  /** The exceptions the scheduling code raises (Python 3 semantics):
      comparing a date with None, calling a method on None, indexing an
      empty list, and the "all three anchors given" case of end_date. */
  datatype Exception = TypeError | AttributeError | IndexError | ValueError

  /** A value, or the exception that interrupted its computation. */
  datatype Result<T> = Ok(value: T) | Err(exc: Exception)
}
