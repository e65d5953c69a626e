/** A value that may be absent: the metric stage yields nothing for an empty table. */
module Wrappers {
  datatype Option<+T> = None | Some(value: T)
}
