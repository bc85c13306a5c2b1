/** The usual Some/None wrapper, used for JavaScript values that may be
    `null`, `undefined` or `NaN`. */
module Wrappers {

  datatype Option<+T> = None | Some(value: T)
}
