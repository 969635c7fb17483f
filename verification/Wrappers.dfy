/** What the other modules share: a value that may be missing, as a null pointer
    is, and the number that a flag stands for. */
module Wrappers {
  datatype Option<+T> = None | Some(value: T)

  function Count(b: bool): nat {
    if b then 1 else 0
  }
}
