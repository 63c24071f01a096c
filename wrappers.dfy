/** Option type shared by the modules: None stands for a C NULL pointer or a missing value. */
module Wrappers {
  datatype Option<T> = None | Some(value: T)
}
