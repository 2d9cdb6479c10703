/** Result-carrying datatypes used in place of nulls and exceptions. */
module Wrappers {

  /** A nullable value. */
  datatype Option<T> = None | Some(value: T)

  /** A value, or the error that replaced it. */
  datatype Result<T, E> = Success(value: T) | Failure(error: E)

  /** A check that either passes or fails with an error. */
  datatype Outcome<E> = Pass | Fail(error: E)
}
