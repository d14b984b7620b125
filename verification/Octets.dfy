/** Bytes, as they travel over sockets. */
module Octets {

  newtype Byte = b: int | 0 <= b < 0x100

  type Bytes = seq<Byte>
}
