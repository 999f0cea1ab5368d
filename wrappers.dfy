/** Python's `None`-or-value, used wherever the modelled code returns or
    stores an optional value. */
module Wrappers {

  datatype Option<+T> = None | Some(value: T)
}
