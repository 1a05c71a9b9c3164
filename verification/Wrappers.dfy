/** A value that may be absent: null, undefined, or the result of what throws. */
module Wrappers {

  datatype Option<T> = None | Some(value: T)
}
