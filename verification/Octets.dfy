/** Bytes, the big-endian 16-bit fields that every wire format of the system uses, and the limit on signers. */
module Octets {

  type Byte = b: int | 0 <= b < 256

  type Bytes = seq<Byte>

  datatype Option<+T> = None | Some(value: T)

  const U16_LIMIT: int := 0x1_0000
  const MAX_SIGNERS: int := 64

  /** The two bytes of a `uint16_t`, most significant first. */
  function PutU16(x: int): (r: Bytes)
    requires 0 <= x < U16_LIMIT
    ensures |r| == 2 && GetU16(r[0], r[1]) == x
  {
    [x / 256, x % 256]
  }

  function GetU16(hi: Byte, lo: Byte): (x: int)
    ensures 0 <= x < U16_LIMIT
    ensures x / 256 == hi && x % 256 == lo
  {
    hi * 256 + lo
  }
}
