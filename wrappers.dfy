/** An optional value: a survey score that may be absent, a number that may be NaN. */
module Wrappers {

  datatype Option<+T> = None | Some(value: T)
}
