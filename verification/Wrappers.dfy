/** Optional values, and results that may be an error. */
module Wrappers {

  datatype Option<+T> = None | Some(value: T)
  {
    predicate IsFailure() { None? }

    function PropagateFailure<U>(): Option<U>
      requires None?
    {
      None
    }

    function Extract(): T
      requires Some?
    {
      value
    }

    function GetOr(other: T): T { if Some? then value else other }
  }

  datatype Result<+T, +E> = Ok(value: T) | Err(error: E)
}
