/** Error outcomes of the unit library, and the Result/Option/Outcome wrappers
    that carry them instead of Python exceptions. */
module Failures {

  /** The exceptions the library raises, one constructor per cause. */
  datatype Error =
    | MalformedTerm(term: string)   // the symbol pattern matches nothing at the start of a term
    | BadExponent(suffix: string)   // the exponent text is neither a number nor superscript digits
    | UnknownUnit(symbol: string)   // the symbol is not a key of the unit table
    | DimensionMismatch             // adding, subtracting or comparing different dimensions
    | DivisionByZero                // dividing by a zero value, or zero to a negative power

  datatype Result<+T> = Ok(value: T) | Err(error: Error) {
    predicate IsFailure() { Err? }

    function PropagateFailure<U>(): Result<U>
      requires Err?
    {
      Err(error)
    }

    function Extract(): T
      requires Ok?
    {
      value
    }
  }

  datatype Option<+T> = None | Some(value: T)

  /** The result of an in-place operation: it either completed or raised. */
  datatype Outcome = Pass | Fail(error: Error)
}
