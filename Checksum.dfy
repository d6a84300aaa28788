/** zlib's `crc32`: CRC-32/ISO-HDLC, reflected polynomial 0xEDB88320,
    initial value and final xor 0xFFFFFFFF. No property of the model depends
    on which checksum this is; only that it is a function of the bytes and
    fits in the four bytes of a GPT CRC field. */
module Checksum {
  import opened Bytes

  const POLYNOMIAL: bv32 := 0xEDB8_8320

  /** One bit of the shift register. */
  function Step(c: bv32): bv32 {
    if c & 1 == 1 then (c >> 1) ^ POLYNOMIAL else c >> 1
  }

  /** `bits` steps of the register. */
  function Shift(c: bv32, bits: nat): bv32
    decreases bits
  {
    if bits == 0 then c else Shift(Step(c), bits - 1)
  }

  /** The register after feeding `data`, byte by byte, least significant bit first. */
  function Feed(c: bv32, data: seq<Byte>): bv32
    decreases |data|
  {
    if data == [] then c else Feed(Shift(c ^ (data[0] as bv32), 8), data[1..])
  }

  /** The checksum of `data`, as the unsigned value zlib returns. */
  function Crc32(data: seq<Byte>): (r: nat)
    ensures r < Pow256(4)
  {
    assert Pow256(4) == 0x1_0000_0000;
    (Feed(0xFFFF_FFFF, data) ^ 0xFFFF_FFFF) as nat
  }
}
