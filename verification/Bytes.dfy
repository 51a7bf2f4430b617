module Bytes {
  type Byte = b: int | 0 <= b < 256
  type Bytes = seq<Byte>

  /** `Buffer.readUInt16BE`. */
  function ReadU16(s: Bytes, at: nat): (v: nat)
    requires at + 2 <= |s|
    ensures v < 0x1_0000
  {
    256 * (s[at] as int) + s[at + 1] as int
  }

  function U16(v: nat): Bytes
    requires v < 0x1_0000
  {
    [v / 256, v % 256]
  }
}
