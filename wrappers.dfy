/** Optional values (Java's null / Optional) and results that may carry a thrown exception. */
module Wrappers {

  /** A value that may be absent: Java's `null` reference or an empty `Optional`. */
  datatype Option<+T> = None | Some(value: T) {

    /** The `orElse` of `java.util.Optional`. */
    function GetOr(default: T): T {
      match this
      case Some(v) => v
      case None => default
    }
  }

  /** Either a value or the message of the exception that interrupted the computation. */
  datatype Result<+T> = Ok(value: T) | Err(error: string) {

    predicate IsFailure() {
      Err?
    }

    function PropagateFailure<U>(): Result<U>
      requires Err?
    {
      Err(error)
    }

    function Extract(): T
      requires Ok?
    {
      value
    }
  }

  /** An oracle answer turned into a result: an absent answer stands for the exception the oracle throws. */
  function Need<T>(answer: Option<T>, error: string): (r: Result<T>)
    ensures r.Ok? <==> answer.Some?
    ensures r.Ok? ==> r.value == answer.value
  {
    match answer
    case Some(v) => Ok(v)
    case None => Err(error)
  }
}
