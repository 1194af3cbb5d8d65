/** A value that may be missing: the program's `std::optional`, absent entries and failed look-ups. */
module Options {
  datatype Option<T> = None | Some(value: T)
}
