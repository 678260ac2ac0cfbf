/** Errors the evaluation pipeline can raise, and a failure-compatible result type. */
module Outcomes {

  datatype Error =
    | ZeroStep              // range(0, n, 0) raises ValueError
    | NothingToConcatenate  // numpy.concatenate of an empty list raises ValueError
    | DimensionMismatch     // the index refuses queries whose width is not its dimension
    | InvalidTopK           // the index refuses k <= 0
    | QueryIdOutOfRange     // queries["id"][idx] past the end of the ids raises IndexError
    | LengthMismatch        // a strict zip over sequences of unequal length raises ValueError
    | UnexpectedKeyword     // zip() given a keyword argument it does not know raises TypeError

  datatype Result<T> = Ok(value: T) | Err(error: Error) {
    predicate IsFailure() { Err? }

    function PropagateFailure<U>(): Result<U>
      requires Err?
    {
      Err(error)
    }

    function Extract(): T
      requires Ok?
    {
      value
    }
  }
}
