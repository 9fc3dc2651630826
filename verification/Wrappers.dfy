/** The optional value used where the C++ sources use `std::optional` or `npos`. */
module Wrappers {
  datatype Option<+T> = None | Some(value: T)
}
