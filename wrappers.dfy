/** The optional value used wherever the source has `None`, `null`,
    `undefined` or a caught exception in place of a value. */
module Wrappers {

  datatype Option<+T> = None | Some(value: T)
}
