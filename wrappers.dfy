/** An optional value, for readers that may find nothing and for answers that may not come. */
module Wrappers {
  datatype Option<+T> = None | Some(value: T)
}
