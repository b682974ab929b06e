/** Optional values, standing for Python's `None` results and for calls that raise. */
module Wrappers {

  datatype Option<+T> = None | Some(value: T)
}
