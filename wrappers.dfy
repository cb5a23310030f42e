/** Optional values shared by the ledger modules. */
module Wrappers {

  /** A value that may be absent; `None` also stands for JavaScript's `NaN` and `undefined`. */
  datatype Option<+T> = None | Some(value: T)
}
