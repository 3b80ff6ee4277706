/** Java's nullable references, modelled as an explicit option. */
module Wrappers {

  datatype Option<+T> = None | Some(value: T)
}
