/**
 Octets, 16-bit words and the two byte orders a host may use.
 A buffer that the daemon reads or writes through a `uint16_t *` is a
 sequence of octets here, and the host's byte order is explicit.
 */
module Bytes {

  type byte = b: int | 0 <= b < 0x100
  type word = w: int | 0 <= w < 0x1_0000

  datatype Endian = Little | Big

  /** The value a host of byte order `e` sees in the two octets `b0 b1`. */
  function Load16(e: Endian, b0: byte, b1: byte): word {
    if e.Big? then 256 * b0 + b1 else 256 * b1 + b0
  }

  /** The two octets a host of byte order `e` writes for `w`. */
  function Store16(e: Endian, w: word): (s: seq<byte>)
    ensures |s| == 2
    ensures Load16(e, s[0], s[1]) == w
    ensures forall b0: byte, b1: byte :: Load16(e, b0, b1) == w ==> s == [b0, b1]
  {
    if e.Big? then [w / 256, w % 256] else [w % 256, w / 256]
  }

  /** `htons` followed by a native store: network order on either host. */
  function Net16(w: word): (s: seq<byte>)
    ensures |s| == 2
    ensures Load16(Big, s[0], s[1]) == w
  {
    Store16(Big, w)
  }

  function Swap(w: word): word {
    256 * (w % 256) + w / 256
  }

  /** The number written by `b` in network order. */
  function Value(b: seq<byte>): nat {
    if b == [] then 0 else 256 * Value(b[..|b| - 1]) + b[|b| - 1]
  }

  function Zeros(n: nat): (s: seq<byte>)
    ensures |s| == n
  {
    seq(n, _ => 0)
  }
}
