/** Option, the failure-carrying datatype the model uses for Python's
    `None` and for the lookups that can fail. */
module Wrappers {

  datatype Option<+T> = None | Some(value: T)
}
