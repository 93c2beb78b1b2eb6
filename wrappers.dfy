/** Option, used for lookups that may find nothing and inputs that may fail to parse. */
module Wrappers {

  datatype Option<+T> = None | Some(value: T)
}
