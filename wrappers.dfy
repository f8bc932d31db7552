/** Optional values: Python's None and the `False` that some operations return in
    place of a value. */
module Wrappers {

  datatype Option<+T> = None | Some(value: T)
}
