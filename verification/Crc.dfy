/** CRC-32/IEEE, the checksum over the entries of an uploaded map. */
module Crc {
  import opened Bits

  const CRC32_INIT: bv32 := 0xFFFF_FFFF
  const CRC32_POLY: bv32 := 0xEDB8_8320
  const CRC32_XOROUT: bv32 := 0xFFFF_FFFF

  function Crc32Shift(crc: bv32): bv32 {
    if crc & 1 == 1 then (crc >> 1) ^ CRC32_POLY else crc >> 1
  }

  function Crc32Shifts(crc: bv32, n: nat): bv32 {
    if n == 0 then crc else Crc32Shift(Crc32Shifts(crc, n - 1))
  }

  function Crc32Final(crc: bv32): bv32 {
    crc ^ CRC32_XOROUT
  }

  function Crc32Byte(crc: bv32, b: Byte): bv32 {
    Crc32Shifts(crc ^ (b as bv32), 8)
  }

  /** The register after the first n bytes. */
  function Crc32(crc: bv32, bytes: seq<Byte>, n: nat): bv32
    requires n <= |bytes|
  {
    if n == 0 then crc else Crc32Byte(Crc32(crc, bytes, n - 1), bytes[n - 1])
  }
}
