/** Failure-carrying results shared by every layer of the model.

    The server returns Go `error` values built with `errors.New(msg)`; the
    handlers forward `err.Error()` to the client, so an error is modelled by
    its message text. */
module Wrappers {

  datatype Option<+T> = None | Some(value: T) {
    function GetOr(default: T): T
    {
      match this
      case Some(v) => v
      case None => default
    }
  }

  datatype Result<+T> = Ok(value: T) | Err(msg: string) {
    predicate IsFailure() { Err? }

    function PropagateFailure<U>(): Result<U>
      requires Err?
    {
      Err(msg)
    }

    function Extract(): T
      requires Ok?
    {
      value
    }
  }

  /** Outcome of an operation that only succeeds or fails. */
  datatype Outcome = Pass | Fail(msg: string) {
    predicate IsFailure() { Fail? }

    function PropagateFailure(): Outcome
      requires Fail?
    {
      this
    }
  }

  function Need(condition: bool, msg: string): (r: Outcome)
    ensures r.Pass? <==> condition
    ensures r.Fail? ==> r.msg == msg
  {
    if condition then Pass else Fail(msg)
  }
}
