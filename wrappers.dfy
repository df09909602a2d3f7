/** Optional values: a file whose text could not be read, a flag that was not given. */
module Wrappers {
  datatype Option<+T> = None | Some(value: T)
}
