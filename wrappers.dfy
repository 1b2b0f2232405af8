/** The optional value the visualisation encodes with `null`/`undefined`. */
module Wrappers {
  datatype Option<+T> = None | Some(value: T)
}
