/** Java's nullable references, for values that the source may leave unset. */
module Wrappers {

  datatype Option<+T> = None | Some(value: T)
}
