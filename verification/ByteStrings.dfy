/** Bytes as they come from the network, a database or a message. */
module ByteStrings {
  newtype byte = x: int | 0 <= x < 256
  type Bytes = seq<byte>
}
