/** Shared result types: an optional value and an operation that either succeeds or raises. */
module Wrappers {

  datatype Option<+T> = None | Some(value: T)

  /** `Failure(error)` stands for a thrown error whose transaction is rolled back. */
  datatype Result<+T, +E> = Success(value: T) | Failure(error: E)
  {
    predicate IsFailure() { Failure? }

    function PropagateFailure<U>(): Result<U, E>
      requires IsFailure()
    {
      Failure(error)
    }

    function Extract(): T
      requires !IsFailure()
    {
      value
    }
  }
}
