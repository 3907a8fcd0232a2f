/** Optional values, for Go's nil maps and for partial decoders. */
module Wrappers {
  datatype Option<T> = None | Some(value: T)
}
