/** The optional value used throughout the model: a capture grant that may be
    denied, a stream handle that may be unset, an interval handle that may be
    undefined. */
module Wrappers {
  datatype Option<+T> = None | Some(value: T)
}
