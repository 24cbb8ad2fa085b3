/** Small failure-carrying datatypes, and a sequence fact, shared by the other modules. */
module Wrappers {

  /** A value that may be absent: a pandas cell that is NaN/None, or a JSON field that is missing. */
  datatype Option<+T> = None | Some(value: T) {

    /** The value, or `default` when absent (pandas `fillna(default)`). */
    function GetOr(default: T): T {
      match this
      case Some(v) => v
      case None => default
    }
  }

  /** What a call into an external service gives back: a value, or an exception that the caller catches. */
  datatype Outcome<+T> = Success(value: T) | Failure

  /** Concatenation is associative; stated once so that proofs can name the step. */
  lemma AppendAssoc<T>(a: seq<T>, b: seq<T>, c: seq<T>)
    ensures a + (b + c) == (a + b) + c
  {
  }
}
