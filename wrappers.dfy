/** The optional value used for the component's `result` field, which starts out as `null`. */
module Wrappers {

  datatype Option<+T> = None | Some(value: T)
}
