/** Option, for values Python represents as "something or None". */
module Wrappers {

  datatype Option<+T> = None | Some(value: T)
}
