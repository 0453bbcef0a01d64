/** Java's nullable references to values, as an explicit option. */
module Wrappers {

  datatype Option<+T> = None | Some(value: T)
}
