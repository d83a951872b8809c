/** The optional value used for nullable columns and for lookups that may find nothing. */
module Wrappers {
  datatype Option<+T> = None | Some(value: T)

  /** The value of a function that may raise. The text of the error is not modelled. */
  datatype Result<+T> = Ok(value: T) | Err
  {
    predicate IsFailure() {
      Err?
    }

    function PropagateFailure<U>(): Result<U>
      requires Err?
    {
      Err
    }

    function Extract(): T
      requires Ok?
    {
      value
    }
  }
}
