/** Small value types shared by the replay-buffer and policy-learner models. */
module Basics {

  /** An optional value, standing for Python's `None` or a present value. */
  datatype Option<T> = None | Some(value: T)

  /** The result of an operation that either yields a value or fails. */
  datatype Result<R, E> = Success(value: R) | Failure(error: E)

  /** The result of an operation that yields no value but may fail. */
  datatype Outcome<E> = Pass | Fail(error: E)

  function Min(a: real, b: real): real
  {
    if a <= b then a else b
  }

  function Max(a: real, b: real): real
  {
    if a >= b then a else b
  }
}
