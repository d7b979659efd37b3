/** The optional value used wherever the source has `X | None`. */
module Wrappers {

  datatype Option<+T> = None | Some(value: T)
}
