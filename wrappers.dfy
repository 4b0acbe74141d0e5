/** Optional values: the quote service's answer and the parsed deposit amount. */
module Wrappers {
  datatype Option<+T> = None | Some(value: T)
}
