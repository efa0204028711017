/** The optional value used wherever the source has `undefined` or an omitted key. */
module Wrappers {

  datatype Option<+T> = None | Some(value: T)
}
