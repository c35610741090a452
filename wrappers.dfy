/** The optional value the application expresses with `null`. */
module Wrappers {
  datatype Option<+T> = None | Some(value: T)
}
