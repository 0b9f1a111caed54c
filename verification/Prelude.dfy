/** Shared datatypes. */
module Prelude {

  datatype Option<+T> = None | Some(value: T)

  /** A computed value, or the exception that stopped the computation. */
  datatype Result<+T, +E> = Ok(value: T) | Err(error: E)

  /** No element occurs twice. */
  predicate Distinct<T(==)>(s: seq<T>) {
    forall i, j :: 0 <= i < j < |s| ==> s[i] != s[j]
  }
}
