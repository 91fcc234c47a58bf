/** Optional values: a number parsed from a form field that may be NaN, a lookup that may miss. */
module Wrappers {

  datatype Option<+T> = None | Some(value: T)
}
