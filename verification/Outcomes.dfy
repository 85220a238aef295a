/** What evaluating a piece of Python yields: a value, or the exception that left it. */
module Outcomes {

  datatype Option<+T> = None | Some(value: T)

  /** The exceptions the transfer code tells apart. Everything a constructor may raise besides them is `Other`. */
  datatype Error =
    | KeyError
    | AttributeError
    | NameError
    | TypeError
    | RuntimeError
    | Other(tag: string)
  {
    /** The two exceptions that generated code catches around a field access. */
    predicate IsAccess() {
      KeyError? || AttributeError?
    }
  }

  datatype Outcome<+T> = Ok(value: T) | Err(error: Error)
  {
    predicate IsFailure() {
      Err?
    }

    function PropagateFailure<U>(): Outcome<U>
      requires Err?
    {
      Err(error)
    }

    function Extract(): T
      requires Ok?
    {
      value
    }

    /** Neither a `KeyError` nor an `AttributeError` left the evaluation. */
    predicate NoAccessError() {
      Err? ==> !error.IsAccess()
    }
  }
}
