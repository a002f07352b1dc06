/** Failure-carrying return types shared by every module of the router model.
    `Result` stands for a C++ call that either returns a value or throws. */
module Wrappers {

  datatype Option<+T> = None | Some(value: T) {
    predicate IsFailure() { None? }

    function PropagateFailure<U>(): Option<U>
      requires None?
    {
      None
    }

    function Extract(): T
      requires Some?
    {
      value
    }
  }

  /** `Err` carries the message the C++ code would throw with. */
  datatype Result<+T> = Ok(value: T) | Err(msg: string) {
    predicate IsFailure() { Err? }

    function PropagateFailure<U>(): Result<U>
      requires Err?
    {
      Err(msg)
    }

    function Extract(): T
      requires Ok?
    {
      value
    }
  }

  /** An `expect(cond, msg)` check: passes or throws `msg`. */
  datatype Check = Pass | Fail(msg: string) {
    predicate IsFailure() { Fail? }

    function PropagateFailure<U>(): Result<U>
      requires Fail?
    {
      Err(msg)
    }
  }

  function Need(cond: bool, msg: string): (c: Check)
    ensures c.Pass? <==> cond
  {
    if cond then Pass else Fail(msg)
  }
}
