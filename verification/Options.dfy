/** The conventional optional value, used where the source returns nil, NaN or an (x, ok) pair. */
module Options {
  datatype Option<+T> = None | Some(value: T)
}
