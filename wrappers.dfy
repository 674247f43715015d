/** An optional value, used where the source returns `(value, ok)`. */
module Wrappers {

  datatype Option<+T> = None | Some(value: T)

}
