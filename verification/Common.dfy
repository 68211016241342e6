/** Failure-compatible result types shared by every component. */
module Common {

  type byte = x: int | 0 <= x < 256 witness 0

  function Times(a: nat, b: nat): nat {
    a * b
  }

  datatype Option<+T> = None | Some(value: T)

  datatype Result<+T, +E> = Ok(value: T) | Err(error: E) {
    predicate IsFailure() {
      Err?
    }

    function PropagateFailure<U>(): (r: Result<U, E>)
      requires Err?
    {
      Err(error)
    }

    function Extract(): T
      requires Ok?
    {
      value
    }
  }

  /** A call that returns no value, only an error. */
  datatype Outcome<+E> = Done | Failed(error: E)
}
