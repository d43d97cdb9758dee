/** Failure-compatible result types shared by the printer modules.
    The printer can only fail by raising one of the two Python exceptions
    listed in `Error`; every other path produces lines. */
module Outcomes {

  /** The exceptions a well-formed tree can make the printer raise. */
  datatype Error =
    | ValueError      // `int('')` on a display name that ends in "_"
    | AttributeError  // the Alloc branch reads an attribute the printer lacks

  datatype Result<+T> = Ok(value: T) | Err(error: Error) {

    predicate IsFailure() {
      Err?
    }

    function PropagateFailure<U>(): Result<U>
      requires Err?
    {
      Err(error)
    }

    function Extract(): T
      requires Ok?
    {
      value
    }
  }

  datatype Option<+T> = None | Some(value: T) {

    predicate IsFailure() {
      None?
    }

    function PropagateFailure<U>(): Option<U>
      requires None?
    {
      None
    }

    function Extract(): T
      requires Some?
    {
      value
    }
  }
}
