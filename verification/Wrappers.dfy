/** The optional value that stands for `std::optional` and for a nullable handle. */
module Wrappers {
  datatype Option<+T> = None | Some(value: T)
}
