/** Octets and the big-endian integers that the DNS codec reads and writes. */
module Bytes {

  type byte = x: int | 0 <= x < 0x100
  type u16 = x: int | 0 <= x < 0x1_0000
  type u32 = x: int | 0 <= x < 0x1_0000_0000
  type bytes = seq<byte>

  /** `u16::to_be_bytes` */
  function PutU16(x: u16): (b: bytes)
    ensures |b| == 2
    ensures GetU16(b, 0) == x
  {
    [x / 0x100, x % 0x100]
  }

  /** `u16::from_be_bytes` on the two octets at `at` */
  function GetU16(b: bytes, at: nat): (x: u16)
    requires at + 2 <= |b|
  {
    b[at] as int * 0x100 + b[at + 1] as int
  }

  /** `u32::to_be_bytes` */
  function PutU32(x: u32): (b: bytes)
    ensures |b| == 4
    ensures GetU32(b, 0) == x
  {
    PutU16(x / 0x1_0000) + PutU16(x % 0x1_0000)
  }

  /** `u32::from_be_bytes` on the four octets at `at` */
  function GetU32(b: bytes, at: nat): (x: u32)
    requires at + 4 <= |b|
  {
    GetU16(b, at) as int * 0x1_0000 + GetU16(b, at + 2) as int
  }
}
