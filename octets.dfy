/** Bytes as the model sees them: integers in 0..255. */
module Octets {

  type byte = x: int | 0 <= x < 256

  type Bytes = seq<byte>
}
