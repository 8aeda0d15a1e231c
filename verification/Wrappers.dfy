/** Values that may be absent: the source's null, undefined and missing rows. */
module Wrappers {
  datatype Option<+T> = None | Some(value: T)
}
