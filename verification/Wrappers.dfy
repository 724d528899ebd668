/** The optional value used wherever the source returns `X | None`. */
module Wrappers {
  datatype Option<+T> = None | Some(value: T)
}
