/** The optional value used across the model: a title that may not be emitted,
    a command that may not be resolved, an index that may not exist. */
module Wrappers {
  datatype Option<+T> = None | Some(value: T)
}
