/** How Java's `null` and exceptions are represented: a reference that may
    be null is an `Option`, and a call that may throw returns a `Result`
    whose `Failure` carries the exception. */
module Wrappers {

  /** A nullable value: `None` stands for Java's `null`. */
  datatype Option<+T> = None | Some(value: T) {

    /** The value, or `default` when null. */
    function GetOr(default: T): (v: T) {
      match this
      case Some(v) => v
      case None => default
    }
  }

  /** The outcome of a call that either returns a value or throws. */
  datatype Result<+T, +E> = Success(value: T) | Failure(error: E) {

    predicate IsFailure() {
      Failure?
    }

    function PropagateFailure<U>(): (r: Result<U, E>)
      requires Failure?
    {
      Failure(error)
    }

    function Extract(): (v: T)
      requires Success?
    {
      value
    }
  }

  /** The values of a list none of whose elements is null. */
  function Values<T>(xs: seq<Option<T>>): (vs: seq<T>)
    requires forall i :: 0 <= i < |xs| ==> xs[i].Some?
    ensures |vs| == |xs|
    ensures forall i :: 0 <= i < |xs| ==> xs[i] == Some(vs[i])
  {
    seq(|xs|, i requires 0 <= i < |xs| => xs[i].value)
  }
}
