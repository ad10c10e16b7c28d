/** Datatypes shared by every model: optional values, and calls that may raise. */
module Common {

  datatype Option<+T> = None | Some(value: T)

  /** A call that either returns a value or raises. A raise inside a transaction
      aborts it, so every caller treats `Raised` as "nothing was committed". */
  datatype Outcome<+T> = Ok(value: T) | Raised {

    predicate IsFailure() {
      Raised?
    }

    function PropagateFailure<U>(): (r: Outcome<U>)
      requires Raised?
    {
      Raised
    }

    function Extract(): (r: T)
      requires Ok?
    {
      value
    }
  }
}
