/** Failure-carrying values shared by every module of the model. The trainers report
    their errors as Python exceptions; each exception the orchestration can raise is
    one constructor of `Error`. */
module Outcomes {

  datatype Option<+T> = None | Some(value: T)

  /** The Python exceptions the orchestration code can raise. */
  datatype Error =
    | ZeroDivision       // `//` or `/` by zero
    | IndexOutOfRange    // a list or batch indexed past its end
    | MissingAttribute   // an attribute read before any assignment to it
    | UndefinedName      // a local variable read before any assignment to it

  datatype Result<+T> = Success(value: T) | Failure(error: Error)
  {
    predicate IsFailure() {
      Failure?
    }

    function PropagateFailure<U>(): Result<U>
      requires Failure?
    {
      Failure(error)
    }

    function Extract(): T
      requires Success?
    {
      value
    }
  }
}
