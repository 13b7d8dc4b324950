/** The optional value used wherever the source returns `undefined` or a field may be unset. */
module Wrappers {

  datatype Option<+T> = None | Some(value: T)
}
