/** Errors raised by the lookup routines, and a failure-compatible result type. */
module Results {

  /** The exceptions the lookup code can raise, one constructor per cause. */
  datatype Error =
    | InvalidValue                 // _correct_arr: value is not None, a number, a list or an array
    | KeyError(key: string)        // data_dict[name] with a name that is not in the table
    | NotCallable(key: string)     // data_dict[name](x) where the entry is an axis or an info field
    | EmptySequence                // min()/max() of an empty array
    | ZeroDimIteration             // min()/max() of a 0-d array (a squeezed one-element sweep)
    | Unachievable(quantity: string)  // a target lies outside the range of the ratio curve

  datatype Result<T> = Ok(value: T) | Err(error: Error) {
    predicate IsFailure() { Err? }

    function PropagateFailure<U>(): Result<U>
      requires Err?
    {
      Err(error)
    }

    function Extract(): T
      requires Ok?
    {
      value
    }
  }
}
