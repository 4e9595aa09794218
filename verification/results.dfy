/** Failure-carrying result of an operation that the original program would
    abort with a runtime error (a tensor-shape check, a reduction over an
    empty axis, a division 0/0). */
module Results {

  datatype Result<+T> = Ok(value: T) | Err(msg: string) {
    predicate IsFailure() {
      Err?
    }

    function PropagateFailure<U>(): Result<U>
      requires Err?
    {
      Err(msg)
    }

    function Extract(): T
      requires Ok?
    {
      value
    }
  }

  datatype Option<+T> = None | Some(value: T)
}
