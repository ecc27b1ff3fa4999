/** Failures the statistics engine can raise, and a failure-compatible result type. */
module Outcomes {

  /** The exceptions of the Python code, by cause:
      a record without the field (KeyError), covariance of lists of different lengths
      (the AssertionError of `sample_covariance`), a division by zero (ZeroDivisionError),
      and a singular normal-equation matrix (numpy's LinAlgError). */
  datatype Error =
    | MissingField(field: string)
    | LengthMismatch
    | DivisionByZero
    | SingularMatrix

  datatype Result<+T> = Ok(value: T) | Err(error: Error) {

    predicate IsFailure() {
      Err?
    }

    function PropagateFailure<U>(): Result<U>
      requires Err?
    {
      Err(error)
    }

    function Extract(): T
      requires Ok?
    {
      value
    }
  }
}
