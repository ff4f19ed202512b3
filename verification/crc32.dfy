/**
 * CRC-32 as `zlib.crc32` computes it: the ISO 3309 / ITU-T V.42 CRC with the reflected
 * polynomial 0xEDB88320, initial value and final xor 0xFFFFFFFF, processed bit by bit (the
 * sample code of section 8 of RFC 1952 does the same with a table).
 */
module Crc32 {
  import opened Bytes

  const Polynomial: bv32 := 0xEDB8_8320

  /** One bit of the shift register. */
  function ShiftBit(c: bv32): bv32 {
    if c & 1 == 1 then (c >> 1) ^ Polynomial else c >> 1
  }

  function ShiftBits(c: bv32, k: nat): bv32
    decreases k
  {
    if k == 0 then c else ShiftBits(ShiftBit(c), k - 1)
  }

  /** The register after one byte, least significant bit first. */
  function UpdateByte(c: bv32, b: byte): bv32 {
    ShiftBits(c ^ (b as int as bv32), 8)
  }

  /** The register after `data`, from `c`. */
  function Update(c: bv32, data: seq<byte>): bv32
    decreases |data|
  {
    if data == [] then c else Update(UpdateByte(c, data[0]), data[1..])
  }

  /** `zlib.crc32(data) & 0xffffffff`. */
  function Crc32(data: seq<byte>): bv32 {
    Update(0xFFFF_FFFF, data) ^ 0xFFFF_FFFF
  }

  /** The register can be fed in pieces: the CRC of `a + b` continues from that of `a`. */
  lemma {:induction false} UpdateAppend(c: bv32, a: seq<byte>, b: seq<byte>)
    ensures Update(c, a + b) == Update(Update(c, a), b)
    decreases |a|
  {
    if a != [] {
      assert (a + b)[1..] == a[1..] + b;
      UpdateAppend(UpdateByte(c, a[0]), a[1..], b);
    } else {
      assert a + b == b;
    }
  }

  /** The CRC of no bytes is 0. */
  lemma Crc32Empty()
    ensures Crc32([]) == 0
  {
  }

  /** The standard check value: the CRC of the ASCII digits "123456789" is 0xCBF43926. */
  lemma Crc32Check()
    ensures Crc32([0x31, 0x32, 0x33, 0x34, 0x35, 0x36, 0x37, 0x38, 0x39]) == 0xCBF4_3926
  {
    CheckDigits123();
    CheckDigits456();
    CheckDigits789();
    UpdateAppend(0xFFFF_FFFF, [0x31, 0x32, 0x33], [0x34, 0x35, 0x36]);
    UpdateAppend(0xFFFF_FFFF, [0x31, 0x32, 0x33, 0x34, 0x35, 0x36], [0x37, 0x38, 0x39]);
    assert Update(0xFFFF_FFFF, [0x31, 0x32, 0x33, 0x34, 0x35, 0x36, 0x37, 0x38, 0x39]) == 0x340B_C6D9;
  }

  /** The register over the check string, three bytes at a time. */
  lemma CheckDigits123()
    ensures Update(0xFFFF_FFFF, [0x31, 0x32, 0x33]) == 0x77B7_9C2D
  {
    assert UpdateByte(0xFFFF_FFFF, 0x31) == 0x7C23_1048;
    assert UpdateByte(0x7C23_1048, 0x32) == 0xB0AC_BB32;
    assert UpdateByte(0xB0AC_BB32, 0x33) == 0x77B7_9C2D;
    assert Update(0xFFFF_FFFF, [0x31, 0x32, 0x33]) == 0x77B7_9C2D;
  }

  lemma CheckDigits456()
    ensures Update(0x77B7_9C2D, [0x34, 0x35, 0x36]) == 0xF68D_2C9E
  {
    assert UpdateByte(0x77B7_9C2D, 0x34) == 0x641C_1F5C;
    assert UpdateByte(0x641C_1F5C, 0x35) == 0x340A_C5E3;
    assert UpdateByte(0x340A_C5E3, 0x36) == 0xF68D_2C9E;
    assert Update(0x77B7_9C2D, [0x34, 0x35, 0x36]) == 0xF68D_2C9E;
  }

  lemma CheckDigits789()
    ensures Update(0xF68D_2C9E, [0x37, 0x38, 0x39]) == 0x340B_C6D9
  {
    assert UpdateByte(0xF68D_2C9E, 0x37) == 0xAFFC_9660;
    assert UpdateByte(0xAFFC_9660, 0x38) == 0x651F_2550;
    assert UpdateByte(0x651F_2550, 0x39) == 0x340B_C6D9;
    assert Update(0xF68D_2C9E, [0x37, 0x38, 0x39]) == 0x340B_C6D9;
  }
}
