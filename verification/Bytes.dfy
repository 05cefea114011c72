/** Go strings are byte strings whose length fits a uint64. */
module Bytes {
  newtype byte = x: int | 0 <= x < 256

  type GoString = s: seq<byte> | |s| < 0x1_0000_0000_0000_0000 witness []
}
