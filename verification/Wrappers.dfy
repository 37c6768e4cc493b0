/** The optional value the source writes as `T | None`. */
module Wrappers {
  datatype Option<+T> = None | Some(value: T)
}
