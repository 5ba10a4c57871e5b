/** Bytes as the source sees them: numbers below 256, in sequences. */
module Bytes {
  type byte = x: int | 0 <= x < 256
  type bytes = seq<byte>
}
