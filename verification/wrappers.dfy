/** Optional values: a nullable column, a session key that may be absent, a
    row lookup that may find nothing. */
module Wrappers {

  datatype Option<+T> = None | Some(value: T)
}
