/** Option, standing in for the C# `null` reference: a process that may be
    absent, an error message that may be unset. */
module Wrappers {

  datatype Option<+T> = None | Some(value: T)
}
