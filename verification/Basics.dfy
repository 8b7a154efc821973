/** Options, bytes and byte strings. A std::string of the source is a byte string here. */
module Basics {
  datatype Option<+T> = None | Some(value: T)

  type Byte = x: nat | x < 256

  type Text = seq<Byte>
}
