/** A nullable column value: `None` is SQL NULL. */
module Wrappers {

  datatype Option<+T> = None | Some(value: T)
}
