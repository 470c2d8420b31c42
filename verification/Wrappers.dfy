/** What the other modules share: a value that may be missing, and the choice of a member of a set. */
module Wrappers {
  datatype Option<+T> = None | Some(value: T)

  /** Any member of a set: a loop that picks members one by one visits them in no particular order. */
  method Pick<T>(s: set<T>) returns (x: T)
    requires s != {}
    ensures x in s
  {
    x :| x in s;
  }
}
