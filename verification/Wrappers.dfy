/** Option for what may be missing, Result for what may fail, and a choice from a set. */
module Wrappers {
  datatype Option<+T> = None | Some(value: T)

  datatype Result<+T, +E> = Ok(value: T) | Err(error: E)

  /** Any member of a set; iterating this way covers every order. */
  method Pick<T(==)>(s: set<T>) returns (x: T)
    requires s != {}
    ensures x in s
  {
    x :| x in s;
  }

  predicate Increasing(ids: seq<int>) { forall i, j | 0 <= i < j < |ids| :: ids[i] < ids[j] }
}
