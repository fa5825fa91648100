/** Failure values of the preprocessor.

    The source reports a syntax problem by throwing `error_t` (a line, the
    file name and a message) from `check`, and stops the whole program with a
    C `assert` on a few conditions it takes for granted (mostly "the input
    did not end here").  Both become the failure half of `Result`. */
module Outcomes {

  datatype Option<+T> = None | Some(value: T)

  datatype Error =
    | Diagnostic(line: int, file: string, msg: string)  // `throw error_t(pp.line, pp.file, msg)`
    | Abort                                             // a failed C `assert`

  datatype Result<+T> = Success(value: T) | Failure(error: Error) {
    predicate IsFailure() { Failure? }

    function PropagateFailure<U>(): Result<U>
      requires Failure?
    {
      Failure(error)
    }

    function Extract(): T
      requires Success?
    {
      value
    }
  }
}
