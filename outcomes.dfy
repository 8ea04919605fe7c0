/** Option and Result, the two failure-carrying types the model uses in place
    of Rust's `Option` and `anyhow::Result`. */
module Outcomes {

  datatype Option<T> = None | Some(value: T)

  /** An `anyhow::Result`: either a value or an error with its context message. */
  datatype Result<T> = Ok(value: T) | Err(msg: string) {
    predicate IsFailure() { Err? }

    function PropagateFailure<U>(): Result<U>
      requires Err?
    {
      Err(msg)
    }

    function Extract(): T
      requires Ok?
    {
      value
    }
  }
}
