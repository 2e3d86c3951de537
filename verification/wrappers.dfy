/** Option and Result, the shapes used for Python's `None` and for raised exceptions. */
module Wrappers {

  datatype Option<+T> = None | Some(value: T)

  /** `Ok(v)` is a normal return of `v`; `Err(e)` is the exception `e` being raised. */
  datatype Result<+T, +E> = Ok(value: T) | Err(error: E)

  /** The result of a check that returns nothing or raises `error`. */
  datatype Outcome<+E> = Pass | Fail(error: E)
}
