/** The success-or-error value every fallible operation of the model returns,
    standing in for the exceptions (failed asserts, index errors) of the
    MAD interface and the data generators. */
module Outcomes {

  datatype Result<+T, +E> = Ok(value: T) | Err(error: E) {

    predicate IsFailure() {
      Err?
    }

    function PropagateFailure<U>(): Result<U, E>
      requires Err?
    {
      Err(error)
    }

    function Extract(): T
      requires Ok?
    {
      value
    }
  }
}
