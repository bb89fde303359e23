/** Optional values: a JSON key that may be absent, an argument that may not be given. */
module Wrappers {

  datatype Option<+T> = None | Some(value: T)
}
