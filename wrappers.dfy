/** Optional values: a nullable child pointer of the AST, or a lookup that may miss. */
module Wrappers {
  datatype Option<+T> = None | Some(value: T)
}
