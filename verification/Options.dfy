/** The optional value used wherever the C++ code returns `std::optional` or a nullable pointer. */
module Options {
  datatype Option<+T> = None | Some(value: T)
}
