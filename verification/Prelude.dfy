// Shared vocabulary of the model.

module Prelude {
  datatype Option<+T> = None | Some(value: T)

  // One octet on the wire.
  type byte = b: int | 0 <= b < 256
}
