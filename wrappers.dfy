/** The exceptions the collections raise, and the result types that carry them. */
module Wrappers {

  /** The Python exception classes the modelled code raises. */
  datatype Error = ValueError | TypeError | KeyError | AttributeError

  datatype Option<T> = None | Some(value: T)

  /** A call that either returns a value or raises. */
  datatype Result<R> = Ok(value: R) | Err(error: Error)

  /** A call that returns nothing or raises. */
  datatype Outcome = Pass | Fail(error: Error)

  function Min(a: int, b: int): int { if a <= b then a else b }

  function Max(a: int, b: int): int { if a <= b then b else a }
}
