/** Bytes, and prefixes and suffixes that are defined for every length. */
module Bytes {

  newtype byte = b: int | 0 <= b < 256

  function Take<T>(s: seq<T>, n: int): seq<T> {
    if 0 <= n <= |s| then s[..n] else s
  }

  function Drop<T>(s: seq<T>, n: int): seq<T> {
    if 0 <= n <= |s| then s[n..] else []
  }

  /** The buffer after data has been stored at an offset, as long as it fits. */
  function Splice(buffer: seq<byte>, off: nat, data: seq<byte>): seq<byte> {
    if off + |data| <= |buffer| then buffer[..off] + data + buffer[off + |data|..] else buffer
  }
}
