/**
 The table-driven CRC-32 of rdcrc32.h and rdcrc32.c, proved equal to bit-by-bit
 division by the generator polynomial 0x04c11db7 (the CRC of section 8 of RFC 1952).
 */
module Crc32 {
  import opened Bytes
  import opened CrcBits

  /** crc_table, sixteen entries a row. */
  const CRC_TABLE: seq<seq<bv32>> := [
    [0x00000000, 0x77073096, 0xee0e612c, 0x990951ba, 0x076dc419, 0x706af48f, 0xe963a535, 0x9e6495a3,
     0x0edb8832, 0x79dcb8a4, 0xe0d5e91e, 0x97d2d988, 0x09b64c2b, 0x7eb17cbd, 0xe7b82d07, 0x90bf1d91],
    [0x1db71064, 0x6ab020f2, 0xf3b97148, 0x84be41de, 0x1adad47d, 0x6ddde4eb, 0xf4d4b551, 0x83d385c7,
     0x136c9856, 0x646ba8c0, 0xfd62f97a, 0x8a65c9ec, 0x14015c4f, 0x63066cd9, 0xfa0f3d63, 0x8d080df5],
    [0x3b6e20c8, 0x4c69105e, 0xd56041e4, 0xa2677172, 0x3c03e4d1, 0x4b04d447, 0xd20d85fd, 0xa50ab56b,
     0x35b5a8fa, 0x42b2986c, 0xdbbbc9d6, 0xacbcf940, 0x32d86ce3, 0x45df5c75, 0xdcd60dcf, 0xabd13d59],
    [0x26d930ac, 0x51de003a, 0xc8d75180, 0xbfd06116, 0x21b4f4b5, 0x56b3c423, 0xcfba9599, 0xb8bda50f,
     0x2802b89e, 0x5f058808, 0xc60cd9b2, 0xb10be924, 0x2f6f7c87, 0x58684c11, 0xc1611dab, 0xb6662d3d],
    [0x76dc4190, 0x01db7106, 0x98d220bc, 0xefd5102a, 0x71b18589, 0x06b6b51f, 0x9fbfe4a5, 0xe8b8d433,
     0x7807c9a2, 0x0f00f934, 0x9609a88e, 0xe10e9818, 0x7f6a0dbb, 0x086d3d2d, 0x91646c97, 0xe6635c01],
    [0x6b6b51f4, 0x1c6c6162, 0x856530d8, 0xf262004e, 0x6c0695ed, 0x1b01a57b, 0x8208f4c1, 0xf50fc457,
     0x65b0d9c6, 0x12b7e950, 0x8bbeb8ea, 0xfcb9887c, 0x62dd1ddf, 0x15da2d49, 0x8cd37cf3, 0xfbd44c65],
    [0x4db26158, 0x3ab551ce, 0xa3bc0074, 0xd4bb30e2, 0x4adfa541, 0x3dd895d7, 0xa4d1c46d, 0xd3d6f4fb,
     0x4369e96a, 0x346ed9fc, 0xad678846, 0xda60b8d0, 0x44042d73, 0x33031de5, 0xaa0a4c5f, 0xdd0d7cc9],
    [0x5005713c, 0x270241aa, 0xbe0b1010, 0xc90c2086, 0x5768b525, 0x206f85b3, 0xb966d409, 0xce61e49f,
     0x5edef90e, 0x29d9c998, 0xb0d09822, 0xc7d7a8b4, 0x59b33d17, 0x2eb40d81, 0xb7bd5c3b, 0xc0ba6cad],
    [0xedb88320, 0x9abfb3b6, 0x03b6e20c, 0x74b1d29a, 0xead54739, 0x9dd277af, 0x04db2615, 0x73dc1683,
     0xe3630b12, 0x94643b84, 0x0d6d6a3e, 0x7a6a5aa8, 0xe40ecf0b, 0x9309ff9d, 0x0a00ae27, 0x7d079eb1],
    [0xf00f9344, 0x8708a3d2, 0x1e01f268, 0x6906c2fe, 0xf762575d, 0x806567cb, 0x196c3671, 0x6e6b06e7,
     0xfed41b76, 0x89d32be0, 0x10da7a5a, 0x67dd4acc, 0xf9b9df6f, 0x8ebeeff9, 0x17b7be43, 0x60b08ed5],
    [0xd6d6a3e8, 0xa1d1937e, 0x38d8c2c4, 0x4fdff252, 0xd1bb67f1, 0xa6bc5767, 0x3fb506dd, 0x48b2364b,
     0xd80d2bda, 0xaf0a1b4c, 0x36034af6, 0x41047a60, 0xdf60efc3, 0xa867df55, 0x316e8eef, 0x4669be79],
    [0xcb61b38c, 0xbc66831a, 0x256fd2a0, 0x5268e236, 0xcc0c7795, 0xbb0b4703, 0x220216b9, 0x5505262f,
     0xc5ba3bbe, 0xb2bd0b28, 0x2bb45a92, 0x5cb36a04, 0xc2d7ffa7, 0xb5d0cf31, 0x2cd99e8b, 0x5bdeae1d],
    [0x9b64c2b0, 0xec63f226, 0x756aa39c, 0x026d930a, 0x9c0906a9, 0xeb0e363f, 0x72076785, 0x05005713,
     0x95bf4a82, 0xe2b87a14, 0x7bb12bae, 0x0cb61b38, 0x92d28e9b, 0xe5d5be0d, 0x7cdcefb7, 0x0bdbdf21],
    [0x86d3d2d4, 0xf1d4e242, 0x68ddb3f8, 0x1fda836e, 0x81be16cd, 0xf6b9265b, 0x6fb077e1, 0x18b74777,
     0x88085ae6, 0xff0f6a70, 0x66063bca, 0x11010b5c, 0x8f659eff, 0xf862ae69, 0x616bffd3, 0x166ccf45],
    [0xa00ae278, 0xd70dd2ee, 0x4e048354, 0x3903b3c2, 0xa7672661, 0xd06016f7, 0x4969474d, 0x3e6e77db,
     0xaed16a4a, 0xd9d65adc, 0x40df0b66, 0x37d83bf0, 0xa9bcae53, 0xdebb9ec5, 0x47b2cf7f, 0x30b5ffe9],
    [0xbdbdf21c, 0xcabac28a, 0x53b39330, 0x24b4a3a6, 0xbad03605, 0xcdd70693, 0x54de5729, 0x23d967bf,
     0xb3667a2e, 0xc4614ab8, 0x5d681b02, 0x2a6f2b94, 0xb40bbe37, 0xc30c8ea1, 0x5a05df1b, 0x2d02ef8d]
  ]

  lemma TableShape()
    ensures |CRC_TABLE| == 16 && forall r :: 0 <= r < 16 ==> |CRC_TABLE[r]| == 16
  {
  }

  function CrcTable(i: bv8): bv32 {
    TableShape();
    CRC_TABLE[(i >> 4) as bv4 as int][(i & 0xF) as bv4 as int]
  }

  function Octet(b: byte): bv32 { b as bv8 as bv32 }

  function Step(crc: bv32, b: bv32): bv32 {
    Xor(CrcTable((Xor(crc, b) & 0xff) as bv8), crc >> 8)
  }

  function Init(): bv32 { 0xffffffff }

  function Finalize(crc: bv32): bv32 { crc ^ 0xffffffff }

  /** The value rd_crc32_update returns. */
  function Updated(crc: bv32, data: seq<byte>): bv32 {
    if data == [] then crc else Step(Updated(crc, data[..|data| - 1]), Octet(data[|data| - 1]))
  }

  /** The remainder of a long division, octet after octet. */
  function Divide(remainder: bv32, data: seq<byte>): bv32 {
    if data == [] then remainder
    else DivideBits(Divide(remainder, data[..|data| - 1]), Octet(data[|data| - 1]), 8)
  }

  method Update(crc: bv32, data: seq<byte>) returns (r: bv32)
    ensures r == Updated(crc, data)
    ensures Reversed(r) == Divide(Reversed(crc), data)
  {
    hide Step;
    r := crc;
    var i := 0;
    while i < |data|
      invariant 0 <= i <= |data|
      invariant r == Updated(crc, data[..i])
    {
      assert data[..i + 1][..i] == data[..i];
      r := Step(r, Octet(data[i]));
      i := i + 1;
    }
    assert data[..i] == data;
    UpdateIsDivision(crc, data);
  }

  /** rd_crc32: the checksum of a whole buffer. */
  function Crc(data: seq<byte>): bv32 { Finalize(Updated(Init(), data)) }

  /** The four octets htobe32 leaves in memory. */
  function CrcOctets(crc: bv32): (s: seq<byte>)
    ensures |s| == 4
  {
    [((crc >> 24) & 0xff) as bv8 as int, ((crc >> 16) & 0xff) as bv8 as int,
     ((crc >> 8) & 0xff) as bv8 as int, (crc & 0xff) as bv8 as int]
  }

  // ----- A table entry is eight steps of the division

  lemma EightUnrolled(v: bv32)
    ensures Steps(v, 8) == BitStep(BitStep(BitStep(BitStep(BitStep(BitStep(BitStep(BitStep(v))))))))
  {
    hide BitStep;
    assert Steps(v, 8) == Steps(BitStep(BitStep(BitStep(BitStep(v)))), 4);
  }

  lemma Row0(v: bv8)
    requires v >> 4 == 0
    ensures CrcTable(v) == BitStep(BitStep(BitStep(BitStep(BitStep(BitStep(BitStep(BitStep(v as bv32))))))))
  {
    assert (v >> 4) as bv4 as int == 0;
    if v & 0xF == 0 { assert CrcTable(v) == 0x00000000; } else if v & 0xF == 1 { assert CrcTable(v) == 0x77073096; }
    else if v & 0xF == 2 { assert CrcTable(v) == 0xee0e612c; } else if v & 0xF == 3 { assert CrcTable(v) == 0x990951ba; }
    else if v & 0xF == 4 { assert CrcTable(v) == 0x076dc419; } else if v & 0xF == 5 { assert CrcTable(v) == 0x706af48f; }
    else if v & 0xF == 6 { assert CrcTable(v) == 0xe963a535; } else if v & 0xF == 7 { assert CrcTable(v) == 0x9e6495a3; }
    else if v & 0xF == 8 { assert CrcTable(v) == 0x0edb8832; } else if v & 0xF == 9 { assert CrcTable(v) == 0x79dcb8a4; }
    else if v & 0xF == 10 { assert CrcTable(v) == 0xe0d5e91e; } else if v & 0xF == 11 { assert CrcTable(v) == 0x97d2d988; }
    else if v & 0xF == 12 { assert CrcTable(v) == 0x09b64c2b; } else if v & 0xF == 13 { assert CrcTable(v) == 0x7eb17cbd; }
    else if v & 0xF == 14 { assert CrcTable(v) == 0xe7b82d07; } else { assert CrcTable(v) == 0x90bf1d91; }
  }

  lemma Row1(v: bv8)
    requires v >> 4 == 1
    ensures CrcTable(v) == BitStep(BitStep(BitStep(BitStep(BitStep(BitStep(BitStep(BitStep(v as bv32))))))))
  {
    assert (v >> 4) as bv4 as int == 1;
    if v & 0xF == 0 { assert CrcTable(v) == 0x1db71064; } else if v & 0xF == 1 { assert CrcTable(v) == 0x6ab020f2; }
    else if v & 0xF == 2 { assert CrcTable(v) == 0xf3b97148; } else if v & 0xF == 3 { assert CrcTable(v) == 0x84be41de; }
    else if v & 0xF == 4 { assert CrcTable(v) == 0x1adad47d; } else if v & 0xF == 5 { assert CrcTable(v) == 0x6ddde4eb; }
    else if v & 0xF == 6 { assert CrcTable(v) == 0xf4d4b551; } else if v & 0xF == 7 { assert CrcTable(v) == 0x83d385c7; }
    else if v & 0xF == 8 { assert CrcTable(v) == 0x136c9856; } else if v & 0xF == 9 { assert CrcTable(v) == 0x646ba8c0; }
    else if v & 0xF == 10 { assert CrcTable(v) == 0xfd62f97a; } else if v & 0xF == 11 { assert CrcTable(v) == 0x8a65c9ec; }
    else if v & 0xF == 12 { assert CrcTable(v) == 0x14015c4f; } else if v & 0xF == 13 { assert CrcTable(v) == 0x63066cd9; }
    else if v & 0xF == 14 { assert CrcTable(v) == 0xfa0f3d63; } else { assert CrcTable(v) == 0x8d080df5; }
  }

  lemma Row2(v: bv8)
    requires v >> 4 == 2
    ensures CrcTable(v) == BitStep(BitStep(BitStep(BitStep(BitStep(BitStep(BitStep(BitStep(v as bv32))))))))
  {
    assert (v >> 4) as bv4 as int == 2;
    if v & 0xF == 0 { assert CrcTable(v) == 0x3b6e20c8; } else if v & 0xF == 1 { assert CrcTable(v) == 0x4c69105e; }
    else if v & 0xF == 2 { assert CrcTable(v) == 0xd56041e4; } else if v & 0xF == 3 { assert CrcTable(v) == 0xa2677172; }
    else if v & 0xF == 4 { assert CrcTable(v) == 0x3c03e4d1; } else if v & 0xF == 5 { assert CrcTable(v) == 0x4b04d447; }
    else if v & 0xF == 6 { assert CrcTable(v) == 0xd20d85fd; } else if v & 0xF == 7 { assert CrcTable(v) == 0xa50ab56b; }
    else if v & 0xF == 8 { assert CrcTable(v) == 0x35b5a8fa; } else if v & 0xF == 9 { assert CrcTable(v) == 0x42b2986c; }
    else if v & 0xF == 10 { assert CrcTable(v) == 0xdbbbc9d6; } else if v & 0xF == 11 { assert CrcTable(v) == 0xacbcf940; }
    else if v & 0xF == 12 { assert CrcTable(v) == 0x32d86ce3; } else if v & 0xF == 13 { assert CrcTable(v) == 0x45df5c75; }
    else if v & 0xF == 14 { assert CrcTable(v) == 0xdcd60dcf; } else { assert CrcTable(v) == 0xabd13d59; }
  }

  lemma Row3(v: bv8)
    requires v >> 4 == 3
    ensures CrcTable(v) == BitStep(BitStep(BitStep(BitStep(BitStep(BitStep(BitStep(BitStep(v as bv32))))))))
  {
    assert (v >> 4) as bv4 as int == 3;
    if v & 0xF == 0 { assert CrcTable(v) == 0x26d930ac; } else if v & 0xF == 1 { assert CrcTable(v) == 0x51de003a; }
    else if v & 0xF == 2 { assert CrcTable(v) == 0xc8d75180; } else if v & 0xF == 3 { assert CrcTable(v) == 0xbfd06116; }
    else if v & 0xF == 4 { assert CrcTable(v) == 0x21b4f4b5; } else if v & 0xF == 5 { assert CrcTable(v) == 0x56b3c423; }
    else if v & 0xF == 6 { assert CrcTable(v) == 0xcfba9599; } else if v & 0xF == 7 { assert CrcTable(v) == 0xb8bda50f; }
    else if v & 0xF == 8 { assert CrcTable(v) == 0x2802b89e; } else if v & 0xF == 9 { assert CrcTable(v) == 0x5f058808; }
    else if v & 0xF == 10 { assert CrcTable(v) == 0xc60cd9b2; } else if v & 0xF == 11 { assert CrcTable(v) == 0xb10be924; }
    else if v & 0xF == 12 { assert CrcTable(v) == 0x2f6f7c87; } else if v & 0xF == 13 { assert CrcTable(v) == 0x58684c11; }
    else if v & 0xF == 14 { assert CrcTable(v) == 0xc1611dab; } else { assert CrcTable(v) == 0xb6662d3d; }
  }

  lemma Row4(v: bv8)
    requires v >> 4 == 4
    ensures CrcTable(v) == BitStep(BitStep(BitStep(BitStep(BitStep(BitStep(BitStep(BitStep(v as bv32))))))))
  {
    assert (v >> 4) as bv4 as int == 4;
    if v & 0xF == 0 { assert CrcTable(v) == 0x76dc4190; } else if v & 0xF == 1 { assert CrcTable(v) == 0x01db7106; }
    else if v & 0xF == 2 { assert CrcTable(v) == 0x98d220bc; } else if v & 0xF == 3 { assert CrcTable(v) == 0xefd5102a; }
    else if v & 0xF == 4 { assert CrcTable(v) == 0x71b18589; } else if v & 0xF == 5 { assert CrcTable(v) == 0x06b6b51f; }
    else if v & 0xF == 6 { assert CrcTable(v) == 0x9fbfe4a5; } else if v & 0xF == 7 { assert CrcTable(v) == 0xe8b8d433; }
    else if v & 0xF == 8 { assert CrcTable(v) == 0x7807c9a2; } else if v & 0xF == 9 { assert CrcTable(v) == 0x0f00f934; }
    else if v & 0xF == 10 { assert CrcTable(v) == 0x9609a88e; } else if v & 0xF == 11 { assert CrcTable(v) == 0xe10e9818; }
    else if v & 0xF == 12 { assert CrcTable(v) == 0x7f6a0dbb; } else if v & 0xF == 13 { assert CrcTable(v) == 0x086d3d2d; }
    else if v & 0xF == 14 { assert CrcTable(v) == 0x91646c97; } else { assert CrcTable(v) == 0xe6635c01; }
  }

  lemma Row5(v: bv8)
    requires v >> 4 == 5
    ensures CrcTable(v) == BitStep(BitStep(BitStep(BitStep(BitStep(BitStep(BitStep(BitStep(v as bv32))))))))
  {
    assert (v >> 4) as bv4 as int == 5;
    if v & 0xF == 0 { assert CrcTable(v) == 0x6b6b51f4; } else if v & 0xF == 1 { assert CrcTable(v) == 0x1c6c6162; }
    else if v & 0xF == 2 { assert CrcTable(v) == 0x856530d8; } else if v & 0xF == 3 { assert CrcTable(v) == 0xf262004e; }
    else if v & 0xF == 4 { assert CrcTable(v) == 0x6c0695ed; } else if v & 0xF == 5 { assert CrcTable(v) == 0x1b01a57b; }
    else if v & 0xF == 6 { assert CrcTable(v) == 0x8208f4c1; } else if v & 0xF == 7 { assert CrcTable(v) == 0xf50fc457; }
    else if v & 0xF == 8 { assert CrcTable(v) == 0x65b0d9c6; } else if v & 0xF == 9 { assert CrcTable(v) == 0x12b7e950; }
    else if v & 0xF == 10 { assert CrcTable(v) == 0x8bbeb8ea; } else if v & 0xF == 11 { assert CrcTable(v) == 0xfcb9887c; }
    else if v & 0xF == 12 { assert CrcTable(v) == 0x62dd1ddf; } else if v & 0xF == 13 { assert CrcTable(v) == 0x15da2d49; }
    else if v & 0xF == 14 { assert CrcTable(v) == 0x8cd37cf3; } else { assert CrcTable(v) == 0xfbd44c65; }
  }

  lemma Row6(v: bv8)
    requires v >> 4 == 6
    ensures CrcTable(v) == BitStep(BitStep(BitStep(BitStep(BitStep(BitStep(BitStep(BitStep(v as bv32))))))))
  {
    assert (v >> 4) as bv4 as int == 6;
    if v & 0xF == 0 { assert CrcTable(v) == 0x4db26158; } else if v & 0xF == 1 { assert CrcTable(v) == 0x3ab551ce; }
    else if v & 0xF == 2 { assert CrcTable(v) == 0xa3bc0074; } else if v & 0xF == 3 { assert CrcTable(v) == 0xd4bb30e2; }
    else if v & 0xF == 4 { assert CrcTable(v) == 0x4adfa541; } else if v & 0xF == 5 { assert CrcTable(v) == 0x3dd895d7; }
    else if v & 0xF == 6 { assert CrcTable(v) == 0xa4d1c46d; } else if v & 0xF == 7 { assert CrcTable(v) == 0xd3d6f4fb; }
    else if v & 0xF == 8 { assert CrcTable(v) == 0x4369e96a; } else if v & 0xF == 9 { assert CrcTable(v) == 0x346ed9fc; }
    else if v & 0xF == 10 { assert CrcTable(v) == 0xad678846; } else if v & 0xF == 11 { assert CrcTable(v) == 0xda60b8d0; }
    else if v & 0xF == 12 { assert CrcTable(v) == 0x44042d73; } else if v & 0xF == 13 { assert CrcTable(v) == 0x33031de5; }
    else if v & 0xF == 14 { assert CrcTable(v) == 0xaa0a4c5f; } else { assert CrcTable(v) == 0xdd0d7cc9; }
  }

  lemma Row7(v: bv8)
    requires v >> 4 == 7
    ensures CrcTable(v) == BitStep(BitStep(BitStep(BitStep(BitStep(BitStep(BitStep(BitStep(v as bv32))))))))
  {
    assert (v >> 4) as bv4 as int == 7;
    if v & 0xF == 0 { assert CrcTable(v) == 0x5005713c; } else if v & 0xF == 1 { assert CrcTable(v) == 0x270241aa; }
    else if v & 0xF == 2 { assert CrcTable(v) == 0xbe0b1010; } else if v & 0xF == 3 { assert CrcTable(v) == 0xc90c2086; }
    else if v & 0xF == 4 { assert CrcTable(v) == 0x5768b525; } else if v & 0xF == 5 { assert CrcTable(v) == 0x206f85b3; }
    else if v & 0xF == 6 { assert CrcTable(v) == 0xb966d409; } else if v & 0xF == 7 { assert CrcTable(v) == 0xce61e49f; }
    else if v & 0xF == 8 { assert CrcTable(v) == 0x5edef90e; } else if v & 0xF == 9 { assert CrcTable(v) == 0x29d9c998; }
    else if v & 0xF == 10 { assert CrcTable(v) == 0xb0d09822; } else if v & 0xF == 11 { assert CrcTable(v) == 0xc7d7a8b4; }
    else if v & 0xF == 12 { assert CrcTable(v) == 0x59b33d17; } else if v & 0xF == 13 { assert CrcTable(v) == 0x2eb40d81; }
    else if v & 0xF == 14 { assert CrcTable(v) == 0xb7bd5c3b; } else { assert CrcTable(v) == 0xc0ba6cad; }
  }

  lemma Row8(v: bv8)
    requires v >> 4 == 8
    ensures CrcTable(v) == BitStep(BitStep(BitStep(BitStep(BitStep(BitStep(BitStep(BitStep(v as bv32))))))))
  {
    assert (v >> 4) as bv4 as int == 8;
    if v & 0xF == 0 { assert CrcTable(v) == 0xedb88320; } else if v & 0xF == 1 { assert CrcTable(v) == 0x9abfb3b6; }
    else if v & 0xF == 2 { assert CrcTable(v) == 0x03b6e20c; } else if v & 0xF == 3 { assert CrcTable(v) == 0x74b1d29a; }
    else if v & 0xF == 4 { assert CrcTable(v) == 0xead54739; } else if v & 0xF == 5 { assert CrcTable(v) == 0x9dd277af; }
    else if v & 0xF == 6 { assert CrcTable(v) == 0x04db2615; } else if v & 0xF == 7 { assert CrcTable(v) == 0x73dc1683; }
    else if v & 0xF == 8 { assert CrcTable(v) == 0xe3630b12; } else if v & 0xF == 9 { assert CrcTable(v) == 0x94643b84; }
    else if v & 0xF == 10 { assert CrcTable(v) == 0x0d6d6a3e; } else if v & 0xF == 11 { assert CrcTable(v) == 0x7a6a5aa8; }
    else if v & 0xF == 12 { assert CrcTable(v) == 0xe40ecf0b; } else if v & 0xF == 13 { assert CrcTable(v) == 0x9309ff9d; }
    else if v & 0xF == 14 { assert CrcTable(v) == 0x0a00ae27; } else { assert CrcTable(v) == 0x7d079eb1; }
  }

  lemma Row9(v: bv8)
    requires v >> 4 == 9
    ensures CrcTable(v) == BitStep(BitStep(BitStep(BitStep(BitStep(BitStep(BitStep(BitStep(v as bv32))))))))
  {
    assert (v >> 4) as bv4 as int == 9;
    if v & 0xF == 0 { assert CrcTable(v) == 0xf00f9344; } else if v & 0xF == 1 { assert CrcTable(v) == 0x8708a3d2; }
    else if v & 0xF == 2 { assert CrcTable(v) == 0x1e01f268; } else if v & 0xF == 3 { assert CrcTable(v) == 0x6906c2fe; }
    else if v & 0xF == 4 { assert CrcTable(v) == 0xf762575d; } else if v & 0xF == 5 { assert CrcTable(v) == 0x806567cb; }
    else if v & 0xF == 6 { assert CrcTable(v) == 0x196c3671; } else if v & 0xF == 7 { assert CrcTable(v) == 0x6e6b06e7; }
    else if v & 0xF == 8 { assert CrcTable(v) == 0xfed41b76; } else if v & 0xF == 9 { assert CrcTable(v) == 0x89d32be0; }
    else if v & 0xF == 10 { assert CrcTable(v) == 0x10da7a5a; } else if v & 0xF == 11 { assert CrcTable(v) == 0x67dd4acc; }
    else if v & 0xF == 12 { assert CrcTable(v) == 0xf9b9df6f; } else if v & 0xF == 13 { assert CrcTable(v) == 0x8ebeeff9; }
    else if v & 0xF == 14 { assert CrcTable(v) == 0x17b7be43; } else { assert CrcTable(v) == 0x60b08ed5; }
  }

  lemma RowA(v: bv8)
    requires v >> 4 == 10
    ensures CrcTable(v) == BitStep(BitStep(BitStep(BitStep(BitStep(BitStep(BitStep(BitStep(v as bv32))))))))
  {
    assert (v >> 4) as bv4 as int == 10;
    if v & 0xF == 0 { assert CrcTable(v) == 0xd6d6a3e8; } else if v & 0xF == 1 { assert CrcTable(v) == 0xa1d1937e; }
    else if v & 0xF == 2 { assert CrcTable(v) == 0x38d8c2c4; } else if v & 0xF == 3 { assert CrcTable(v) == 0x4fdff252; }
    else if v & 0xF == 4 { assert CrcTable(v) == 0xd1bb67f1; } else if v & 0xF == 5 { assert CrcTable(v) == 0xa6bc5767; }
    else if v & 0xF == 6 { assert CrcTable(v) == 0x3fb506dd; } else if v & 0xF == 7 { assert CrcTable(v) == 0x48b2364b; }
    else if v & 0xF == 8 { assert CrcTable(v) == 0xd80d2bda; } else if v & 0xF == 9 { assert CrcTable(v) == 0xaf0a1b4c; }
    else if v & 0xF == 10 { assert CrcTable(v) == 0x36034af6; } else if v & 0xF == 11 { assert CrcTable(v) == 0x41047a60; }
    else if v & 0xF == 12 { assert CrcTable(v) == 0xdf60efc3; } else if v & 0xF == 13 { assert CrcTable(v) == 0xa867df55; }
    else if v & 0xF == 14 { assert CrcTable(v) == 0x316e8eef; } else { assert CrcTable(v) == 0x4669be79; }
  }

  lemma RowB(v: bv8)
    requires v >> 4 == 11
    ensures CrcTable(v) == BitStep(BitStep(BitStep(BitStep(BitStep(BitStep(BitStep(BitStep(v as bv32))))))))
  {
    assert (v >> 4) as bv4 as int == 11;
    if v & 0xF == 0 { assert CrcTable(v) == 0xcb61b38c; } else if v & 0xF == 1 { assert CrcTable(v) == 0xbc66831a; }
    else if v & 0xF == 2 { assert CrcTable(v) == 0x256fd2a0; } else if v & 0xF == 3 { assert CrcTable(v) == 0x5268e236; }
    else if v & 0xF == 4 { assert CrcTable(v) == 0xcc0c7795; } else if v & 0xF == 5 { assert CrcTable(v) == 0xbb0b4703; }
    else if v & 0xF == 6 { assert CrcTable(v) == 0x220216b9; } else if v & 0xF == 7 { assert CrcTable(v) == 0x5505262f; }
    else if v & 0xF == 8 { assert CrcTable(v) == 0xc5ba3bbe; } else if v & 0xF == 9 { assert CrcTable(v) == 0xb2bd0b28; }
    else if v & 0xF == 10 { assert CrcTable(v) == 0x2bb45a92; } else if v & 0xF == 11 { assert CrcTable(v) == 0x5cb36a04; }
    else if v & 0xF == 12 { assert CrcTable(v) == 0xc2d7ffa7; } else if v & 0xF == 13 { assert CrcTable(v) == 0xb5d0cf31; }
    else if v & 0xF == 14 { assert CrcTable(v) == 0x2cd99e8b; } else { assert CrcTable(v) == 0x5bdeae1d; }
  }

  lemma RowC(v: bv8)
    requires v >> 4 == 12
    ensures CrcTable(v) == BitStep(BitStep(BitStep(BitStep(BitStep(BitStep(BitStep(BitStep(v as bv32))))))))
  {
    assert (v >> 4) as bv4 as int == 12;
    if v & 0xF == 0 { assert CrcTable(v) == 0x9b64c2b0; } else if v & 0xF == 1 { assert CrcTable(v) == 0xec63f226; }
    else if v & 0xF == 2 { assert CrcTable(v) == 0x756aa39c; } else if v & 0xF == 3 { assert CrcTable(v) == 0x026d930a; }
    else if v & 0xF == 4 { assert CrcTable(v) == 0x9c0906a9; } else if v & 0xF == 5 { assert CrcTable(v) == 0xeb0e363f; }
    else if v & 0xF == 6 { assert CrcTable(v) == 0x72076785; } else if v & 0xF == 7 { assert CrcTable(v) == 0x05005713; }
    else if v & 0xF == 8 { assert CrcTable(v) == 0x95bf4a82; } else if v & 0xF == 9 { assert CrcTable(v) == 0xe2b87a14; }
    else if v & 0xF == 10 { assert CrcTable(v) == 0x7bb12bae; } else if v & 0xF == 11 { assert CrcTable(v) == 0x0cb61b38; }
    else if v & 0xF == 12 { assert CrcTable(v) == 0x92d28e9b; } else if v & 0xF == 13 { assert CrcTable(v) == 0xe5d5be0d; }
    else if v & 0xF == 14 { assert CrcTable(v) == 0x7cdcefb7; } else { assert CrcTable(v) == 0x0bdbdf21; }
  }

  lemma RowD(v: bv8)
    requires v >> 4 == 13
    ensures CrcTable(v) == BitStep(BitStep(BitStep(BitStep(BitStep(BitStep(BitStep(BitStep(v as bv32))))))))
  {
    assert (v >> 4) as bv4 as int == 13;
    if v & 0xF == 0 { assert CrcTable(v) == 0x86d3d2d4; } else if v & 0xF == 1 { assert CrcTable(v) == 0xf1d4e242; }
    else if v & 0xF == 2 { assert CrcTable(v) == 0x68ddb3f8; } else if v & 0xF == 3 { assert CrcTable(v) == 0x1fda836e; }
    else if v & 0xF == 4 { assert CrcTable(v) == 0x81be16cd; } else if v & 0xF == 5 { assert CrcTable(v) == 0xf6b9265b; }
    else if v & 0xF == 6 { assert CrcTable(v) == 0x6fb077e1; } else if v & 0xF == 7 { assert CrcTable(v) == 0x18b74777; }
    else if v & 0xF == 8 { assert CrcTable(v) == 0x88085ae6; } else if v & 0xF == 9 { assert CrcTable(v) == 0xff0f6a70; }
    else if v & 0xF == 10 { assert CrcTable(v) == 0x66063bca; } else if v & 0xF == 11 { assert CrcTable(v) == 0x11010b5c; }
    else if v & 0xF == 12 { assert CrcTable(v) == 0x8f659eff; } else if v & 0xF == 13 { assert CrcTable(v) == 0xf862ae69; }
    else if v & 0xF == 14 { assert CrcTable(v) == 0x616bffd3; } else { assert CrcTable(v) == 0x166ccf45; }
  }

  lemma RowE(v: bv8)
    requires v >> 4 == 14
    ensures CrcTable(v) == BitStep(BitStep(BitStep(BitStep(BitStep(BitStep(BitStep(BitStep(v as bv32))))))))
  {
    assert (v >> 4) as bv4 as int == 14;
    if v & 0xF == 0 { assert CrcTable(v) == 0xa00ae278; } else if v & 0xF == 1 { assert CrcTable(v) == 0xd70dd2ee; }
    else if v & 0xF == 2 { assert CrcTable(v) == 0x4e048354; } else if v & 0xF == 3 { assert CrcTable(v) == 0x3903b3c2; }
    else if v & 0xF == 4 { assert CrcTable(v) == 0xa7672661; } else if v & 0xF == 5 { assert CrcTable(v) == 0xd06016f7; }
    else if v & 0xF == 6 { assert CrcTable(v) == 0x4969474d; } else if v & 0xF == 7 { assert CrcTable(v) == 0x3e6e77db; }
    else if v & 0xF == 8 { assert CrcTable(v) == 0xaed16a4a; } else if v & 0xF == 9 { assert CrcTable(v) == 0xd9d65adc; }
    else if v & 0xF == 10 { assert CrcTable(v) == 0x40df0b66; } else if v & 0xF == 11 { assert CrcTable(v) == 0x37d83bf0; }
    else if v & 0xF == 12 { assert CrcTable(v) == 0xa9bcae53; } else if v & 0xF == 13 { assert CrcTable(v) == 0xdebb9ec5; }
    else if v & 0xF == 14 { assert CrcTable(v) == 0x47b2cf7f; } else { assert CrcTable(v) == 0x30b5ffe9; }
  }

  lemma RowF(v: bv8)
    requires v >> 4 == 15
    ensures CrcTable(v) == BitStep(BitStep(BitStep(BitStep(BitStep(BitStep(BitStep(BitStep(v as bv32))))))))
  {
    assert (v >> 4) as bv4 as int == 15;
    if v & 0xF == 0 { assert CrcTable(v) == 0xbdbdf21c; } else if v & 0xF == 1 { assert CrcTable(v) == 0xcabac28a; }
    else if v & 0xF == 2 { assert CrcTable(v) == 0x53b39330; } else if v & 0xF == 3 { assert CrcTable(v) == 0x24b4a3a6; }
    else if v & 0xF == 4 { assert CrcTable(v) == 0xbad03605; } else if v & 0xF == 5 { assert CrcTable(v) == 0xcdd70693; }
    else if v & 0xF == 6 { assert CrcTable(v) == 0x54de5729; } else if v & 0xF == 7 { assert CrcTable(v) == 0x23d967bf; }
    else if v & 0xF == 8 { assert CrcTable(v) == 0xb3667a2e; } else if v & 0xF == 9 { assert CrcTable(v) == 0xc4614ab8; }
    else if v & 0xF == 10 { assert CrcTable(v) == 0x5d681b02; } else if v & 0xF == 11 { assert CrcTable(v) == 0x2a6f2b94; }
    else if v & 0xF == 12 { assert CrcTable(v) == 0xb40bbe37; } else if v & 0xF == 13 { assert CrcTable(v) == 0xc30c8ea1; }
    else if v & 0xF == 14 { assert CrcTable(v) == 0x5a05df1b; } else { assert CrcTable(v) == 0x2d02ef8d; }
  }

  lemma TableEntry(v: bv8)
    ensures CrcTable(v) == Steps(v as bv32, 8)
  {
    hide *;
    RowBits(v);
    EightUnrolled(v as bv32);
    if v >> 4 == 0 { Row0(v); }
    if v >> 4 == 1 { Row1(v); }
    if v >> 4 == 2 { Row2(v); }
    if v >> 4 == 3 { Row3(v); }
    if v >> 4 == 4 { Row4(v); }
    if v >> 4 == 5 { Row5(v); }
    if v >> 4 == 6 { Row6(v); }
    if v >> 4 == 7 { Row7(v); }
    if v >> 4 == 8 { Row8(v); }
    if v >> 4 == 9 { Row9(v); }
    if v >> 4 == 10 { RowA(v); }
    if v >> 4 == 11 { RowB(v); }
    if v >> 4 == 12 { RowC(v); }
    if v >> 4 == 13 { RowD(v); }
    if v >> 4 == 14 { RowE(v); }
    if v >> 4 == 15 { RowF(v); }
  }

  lemma RowBits(v: bv8)
    ensures v >> 4 < 16
  {
  }

  lemma StepIsEightSteps(crc: bv32, b: bv32)
    requires b < 256
    ensures Step(crc, b) == Steps(Xor(crc, b), 8)
  {
    var x := Xor(crc, b);
    hide *;
    StepIs(crc, b);
    LowOctetOf(crc, b);
    TableEntry((x & 0xff) as bv8);
    EightSteps(x);
  }

  lemma StepIs(crc: bv32, b: bv32)
    ensures Step(crc, b) == Xor(CrcTable((Xor(crc, b) & 0xff) as bv8), crc >> 8)
  {
  }

  lemma LowOctetOf(crc: bv32, b: bv32)
    requires b < 256
    ensures ((Xor(crc, b) & 0xff) as bv8) as bv32 == Xor(crc, b) & 0xff
    ensures Xor(crc, b) >> 8 == crc >> 8
  {
  }

  /** One octet through the table is one octet of the division. */
  lemma StepIsDivision(crc: bv32, b: bv32)
    requires b < 256
    ensures Reversed(Step(crc, b)) == DivideBits(Reversed(crc), b, 8)
  {
    hide *;
    StepIsEightSteps(crc, b);
    OctetIsDivision(crc, b);
  }

  lemma OctetRange(b: byte)
    ensures Octet(b) < 256
  {
  }

  // ----- Main results

  /** The table-driven checksum is the reflection of the long division. */
  lemma {:induction false} UpdateIsDivision(crc: bv32, data: seq<byte>)
    ensures Reversed(Updated(crc, data)) == Divide(Reversed(crc), data)
  {
    hide Step, Octet, Reversed, DivideBits;
    if data != [] {
      var init, last := data[..|data| - 1], data[|data| - 1];
      UpdateIsDivision(crc, init);
      OctetRange(last);
      StepIsDivision(Updated(crc, init), Octet(last));
    }
  }

  /** Checksumming chunk by chunk is checksumming the concatenation. */
  lemma {:induction false} UpdateConcat(crc: bv32, a: seq<byte>, b: seq<byte>)
    ensures Updated(crc, a + b) == Updated(Updated(crc, a), b)
  {
    hide Step, Octet;
    if b == [] {
      assert a + b == a;
    } else {
      var init := b[..|b| - 1];
      assert (a + b)[..|a + b| - 1] == a + init;
      UpdateConcat(crc, a, init);
    }
  }

  // ----- What the checksum of a whole buffer is

  function Narrow(b: byte): bv8 { b as bv8 }

  function Wide(b: bv8): bv32 { b as bv32 }

  function Number8(b: bv8): int { b as int }

  function Number16(x: bv16): int { x as int }

  function Number32(x: bv32): int { x as int }

  lemma NarrowRaw(b: byte)
    ensures Number8(b as bv8) == b
  {
  }

  lemma NarrowIs(b: byte)
    ensures Narrow(b) == b as bv8 && Octet(b) == Wide(Narrow(b))
  {
  }

  lemma WideIs(b: bv8)
    ensures Number32(Wide(b)) == Number8(b)
  {
  }

  lemma NumberIs(x: bv32)
    ensures Number32(x) == x as int
  {
  }

  /** The octets enter the division as the numbers they are. */
  lemma OctetIs(b: byte)
    ensures Octet(b) as int == b
  {
    hide *;
    NarrowRaw(b);
    NarrowIs(b);
    WideIs(Narrow(b));
    NumberIs(Octet(b));
  }

  function Complement(x: bv32): bv32 { x ^ 0xffffffff }

  lemma ComplementIs(x: bv32)
    ensures Complement(x) == x ^ 0xffffffff
  {
  }

  lemma ComplementRaw(x: bv32)
    ensures Reversed(x ^ 0xffffffff) == Reversed(x) ^ 0xffffffff
  {
  }

  lemma ReversedComplement(x: bv32)
    ensures Reversed(Complement(x)) == Complement(Reversed(x))
  {
    hide Reversed;
    ComplementRaw(x);
  }

  lemma ReversedTwice(x: bv32)
    ensures Reversed(Reversed(x)) == x
  {
  }

  lemma AllOnes()
    ensures Reversed(0xffffffff) == 0xffffffff
  {
  }

  lemma Ends(data: seq<byte>)
    ensures Crc(data) == Complement(Updated(0xffffffff, data))
  {
    InitIs();
    FinalizeIs(Updated(Init(), data));
    hide Updated, Init, Finalize, Complement;
  }

  lemma InitIs()
    ensures Init() == 0xffffffff
  {
  }

  lemma FinalizeIs(crc: bv32)
    ensures Finalize(crc) == Complement(crc)
  {
  }

  lemma CrcDivides(data: seq<byte>)
    ensures Reversed(Crc(data)) == Complement(Divide(0xffffffff, data))
  {
    hide *;
    AllOnes();
    Ends(data);
    UpdateIsDivision(0xffffffff, data);
    ReversedComplement(Updated(0xffffffff, data));
  }

  /**
   Section 8 of RFC 1952: the register starts with all bits set, the octets are divided by the
   generator polynomial, and what is left is complemented and reflected.
   */
  lemma CrcIsDivision(data: seq<byte>)
    ensures Reversed(Crc(data)) == Divide(0xffffffff, data) ^ 0xffffffff
    ensures Crc(data) == Reversed(Divide(0xffffffff, data) ^ 0xffffffff)
  {
    hide *;
    CrcDivides(data);
    ComplementIs(Divide(0xffffffff, data));
    ReversedTwice(Crc(data));
  }

  function Join8(a: bv8, b: bv8): bv16 { (a as bv16 << 8) | (b as bv16) }

  function Join16(a: bv16, b: bv16): bv32 { (a as bv32 << 16) | (b as bv32) }

  lemma Join8Is(a: bv8, b: bv8)
    ensures Number16(Join8(a, b)) == Number8(a) * 256 + Number8(b)
  {
  }

  lemma Join16Is(a: bv16, b: bv16)
    ensures Number32(Join16(a, b)) == Number16(a) * 65536 + Number16(b)
  {
  }

  function OctetAt(crc: bv32, shift: bv32): bv8
    requires shift <= 24
  {
    ((crc >> shift) & 0xff) as bv8
  }

  lemma JoinAll(crc: bv32)
    ensures crc == Join16(Join8(OctetAt(crc, 24), OctetAt(crc, 16)), Join8(OctetAt(crc, 8), OctetAt(crc, 0)))
  {
  }

  lemma CrcOctetsAre(crc: bv32)
    ensures CrcOctets(crc)[0] == Number8(OctetAt(crc, 24)) && CrcOctets(crc)[1] == Number8(OctetAt(crc, 16))
    ensures CrcOctets(crc)[2] == Number8(OctetAt(crc, 8)) && CrcOctets(crc)[3] == Number8(OctetAt(crc, 0))
  {
  }

  /** The octets in memory are the number, most significant first. */
  lemma CrcOctetsRead(crc: bv32)
    ensures FromBigEndian(CrcOctets(crc)) == crc as int
  {
    hide *;
    CrcOctetsAre(crc);
    JoinAll(crc);
    var high, low := Join8(OctetAt(crc, 24), OctetAt(crc, 16)), Join8(OctetAt(crc, 8), OctetAt(crc, 0));
    Join8Is(OctetAt(crc, 24), OctetAt(crc, 16));
    Join8Is(OctetAt(crc, 8), OctetAt(crc, 0));
    Join16Is(high, low);
    NumberIs(crc);
    FourOctets(CrcOctets(crc));
  }

  lemma CrcOctetsNumber(crc: bv32)
    ensures FromBigEndian(CrcOctets(crc)) == Number32(crc)
  {
    hide *;
    CrcOctetsRead(crc);
    NumberIs(crc);
  }

  /** So what a reader finds in the octets is that remainder, complemented and reflected. */
  lemma CrcOnWire(octets: seq<byte>, data: seq<byte>)
    requires octets == CrcOctets(Crc(data))
    ensures FromBigEndian(octets) == Reversed(Divide(0xffffffff, data) ^ 0xffffffff) as int
  {
    hide *;
    CrcOctetsNumber(Crc(data));
    CrcIsDivision(data);
    NumberIs(Reversed(Divide(0xffffffff, data) ^ 0xffffffff));
  }

  lemma FedNext(s: seq<byte>, k: nat, was: bv32, now: bv32)
    requires k < |s| && Updated(0xffffffff, s[..k]) == was && Step(was, Octet(s[k])) == now
    ensures Updated(0xffffffff, s[..k + 1]) == now
  {
    hide Step, Octet;
    assert s[..k + 1][..k] == s[..k];
  }

  lemma Digit1()
    ensures Step(0xffffffff, Octet(0x31)) == 0x7c231048
  {
    assert CrcTable(0xce) == 0x7cdcefb7;
  }

  lemma Digit2()
    ensures Step(0x7c231048, Octet(0x32)) == 0xb0acbb32
  {
    assert CrcTable(0x7a) == 0xb0d09822;
  }

  lemma Digit3()
    ensures Step(0xb0acbb32, Octet(0x33)) == 0x77b79c2d
  {
    assert CrcTable(0x01) == 0x77073096;
  }

  lemma Digit4()
    ensures Step(0x77b79c2d, Octet(0x34)) == 0x641c1f5c
  {
    assert CrcTable(0x19) == 0x646ba8c0;
  }

  lemma Digit5()
    ensures Step(0x641c1f5c, Octet(0x35)) == 0x340ac5e3
  {
    assert CrcTable(0x69) == 0x346ed9fc;
  }

  lemma Digit6()
    ensures Step(0x340ac5e3, Octet(0x36)) == 0xf68d2c9e
  {
    assert CrcTable(0xd5) == 0xf6b9265b;
  }

  lemma Digit7()
    ensures Step(0xf68d2c9e, Octet(0x37)) == 0xaffc9660
  {
    assert CrcTable(0xa9) == 0xaf0a1b4c;
  }

  lemma Digit8()
    ensures Step(0xaffc9660, Octet(0x38)) == 0x651f2550
  {
    assert CrcTable(0x58) == 0x65b0d9c6;
  }

  lemma Digit9()
    ensures Step(0x651f2550, Octet(0x39)) == 0x340bc6d9
  {
    assert CrcTable(0x69) == 0x346ed9fc;
  }

  lemma NothingFed(s: seq<byte>)
    ensures Updated(0xffffffff, s[..0]) == 0xffffffff && s[..|s|] == s
  {
  }

  lemma CheckEnds()
    ensures Complement(0x340bc6d9) == 0xcbf43926
  {
  }

  /** The published check value of this checksum: what it is for the digits one to nine. */
  lemma CheckValue()
    ensures Crc([0x31, 0x32, 0x33, 0x34, 0x35, 0x36, 0x37, 0x38, 0x39]) == 0xcbf43926
  {
    hide *;
    var s: seq<byte> := [0x31, 0x32, 0x33, 0x34, 0x35, 0x36, 0x37, 0x38, 0x39];
    NothingFed(s);
    Digit1();
    FedNext(s, 0, 0xffffffff, 0x7c231048);
    Digit2();
    FedNext(s, 1, 0x7c231048, 0xb0acbb32);
    Digit3();
    FedNext(s, 2, 0xb0acbb32, 0x77b79c2d);
    Digit4();
    FedNext(s, 3, 0x77b79c2d, 0x641c1f5c);
    Digit5();
    FedNext(s, 4, 0x641c1f5c, 0x340ac5e3);
    Digit6();
    FedNext(s, 5, 0x340ac5e3, 0xf68d2c9e);
    Digit7();
    FedNext(s, 6, 0xf68d2c9e, 0xaffc9660);
    Digit8();
    FedNext(s, 7, 0xaffc9660, 0x651f2550);
    Digit9();
    FedNext(s, 8, 0x651f2550, 0x340bc6d9);
    Ends(s);
    CheckEnds();
  }
}
