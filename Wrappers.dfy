/** Optional values: a radio group with nothing checked, a JSON field that is absent. */
module Wrappers {

  datatype Option<+T> = None | Some(value: T)
}
