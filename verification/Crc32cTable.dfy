/** The constant table of crc32c.c in rows of sixteen, checked against eight shift steps of the
    reflected Castagnoli polynomial (section 12.1 of RFC 3720). */
module Crc32cTable {

  /** One division step on the lowest bit: it is shifted out, and the polynomial is added if it was set. The register
      is wide enough for the eight bytes that one CRC32 instruction consumes. */
  function BitStep(v: bv64): bv64 {
    if v & 1 == 1 then (v >> 1) ^ 0x82f6_3b78 else v >> 1
  }

  function EightSteps(v: bv64): bv64 {
    BitStep(BitStep(BitStep(BitStep(BitStep(BitStep(BitStep(BitStep(v))))))))
  }

  // tr_crc32c_table
  function Table(i: bv8): bv32 {
    if i <= 0x0f then Table0(i) else
    if i <= 0x1f then Table1(i) else
    if i <= 0x2f then Table2(i) else
    if i <= 0x3f then Table3(i) else
    if i <= 0x4f then Table4(i) else
    if i <= 0x5f then Table5(i) else
    if i <= 0x6f then Table6(i) else
    if i <= 0x7f then Table7(i) else
    if i <= 0x8f then Table8(i) else
    if i <= 0x9f then Table9(i) else
    if i <= 0xaf then TableA(i) else
    if i <= 0xbf then TableB(i) else
    if i <= 0xcf then TableC(i) else
    if i <= 0xdf then TableD(i) else
    if i <= 0xef then TableE(i) else
    TableF(i)
  }

  function Table0(i: bv8): bv32 {
    if i == 0x00 then 0x00000000 else if i == 0x01 then 0xf26b8303 else if i == 0x02 then 0xe13b70f7 else if i == 0x03 then 0x1350f3f4 else
    if i == 0x04 then 0xc79a971f else if i == 0x05 then 0x35f1141c else if i == 0x06 then 0x26a1e7e8 else if i == 0x07 then 0xd4ca64eb else
    if i == 0x08 then 0x8ad958cf else if i == 0x09 then 0x78b2dbcc else if i == 0x0a then 0x6be22838 else if i == 0x0b then 0x9989ab3b else
    if i == 0x0c then 0x4d43cfd0 else if i == 0x0d then 0xbf284cd3 else if i == 0x0e then 0xac78bf27 else 0x5e133c24
  }

  function Table1(i: bv8): bv32 {
    if i == 0x10 then 0x105ec76f else if i == 0x11 then 0xe235446c else if i == 0x12 then 0xf165b798 else if i == 0x13 then 0x030e349b else
    if i == 0x14 then 0xd7c45070 else if i == 0x15 then 0x25afd373 else if i == 0x16 then 0x36ff2087 else if i == 0x17 then 0xc494a384 else
    if i == 0x18 then 0x9a879fa0 else if i == 0x19 then 0x68ec1ca3 else if i == 0x1a then 0x7bbcef57 else if i == 0x1b then 0x89d76c54 else
    if i == 0x1c then 0x5d1d08bf else if i == 0x1d then 0xaf768bbc else if i == 0x1e then 0xbc267848 else 0x4e4dfb4b
  }

  function Table2(i: bv8): bv32 {
    if i == 0x20 then 0x20bd8ede else if i == 0x21 then 0xd2d60ddd else if i == 0x22 then 0xc186fe29 else if i == 0x23 then 0x33ed7d2a else
    if i == 0x24 then 0xe72719c1 else if i == 0x25 then 0x154c9ac2 else if i == 0x26 then 0x061c6936 else if i == 0x27 then 0xf477ea35 else
    if i == 0x28 then 0xaa64d611 else if i == 0x29 then 0x580f5512 else if i == 0x2a then 0x4b5fa6e6 else if i == 0x2b then 0xb93425e5 else
    if i == 0x2c then 0x6dfe410e else if i == 0x2d then 0x9f95c20d else if i == 0x2e then 0x8cc531f9 else 0x7eaeb2fa
  }

  function Table3(i: bv8): bv32 {
    if i == 0x30 then 0x30e349b1 else if i == 0x31 then 0xc288cab2 else if i == 0x32 then 0xd1d83946 else if i == 0x33 then 0x23b3ba45 else
    if i == 0x34 then 0xf779deae else if i == 0x35 then 0x05125dad else if i == 0x36 then 0x1642ae59 else if i == 0x37 then 0xe4292d5a else
    if i == 0x38 then 0xba3a117e else if i == 0x39 then 0x4851927d else if i == 0x3a then 0x5b016189 else if i == 0x3b then 0xa96ae28a else
    if i == 0x3c then 0x7da08661 else if i == 0x3d then 0x8fcb0562 else if i == 0x3e then 0x9c9bf696 else 0x6ef07595
  }

  function Table4(i: bv8): bv32 {
    if i == 0x40 then 0x417b1dbc else if i == 0x41 then 0xb3109ebf else if i == 0x42 then 0xa0406d4b else if i == 0x43 then 0x522bee48 else
    if i == 0x44 then 0x86e18aa3 else if i == 0x45 then 0x748a09a0 else if i == 0x46 then 0x67dafa54 else if i == 0x47 then 0x95b17957 else
    if i == 0x48 then 0xcba24573 else if i == 0x49 then 0x39c9c670 else if i == 0x4a then 0x2a993584 else if i == 0x4b then 0xd8f2b687 else
    if i == 0x4c then 0x0c38d26c else if i == 0x4d then 0xfe53516f else if i == 0x4e then 0xed03a29b else 0x1f682198
  }

  function Table5(i: bv8): bv32 {
    if i == 0x50 then 0x5125dad3 else if i == 0x51 then 0xa34e59d0 else if i == 0x52 then 0xb01eaa24 else if i == 0x53 then 0x42752927 else
    if i == 0x54 then 0x96bf4dcc else if i == 0x55 then 0x64d4cecf else if i == 0x56 then 0x77843d3b else if i == 0x57 then 0x85efbe38 else
    if i == 0x58 then 0xdbfc821c else if i == 0x59 then 0x2997011f else if i == 0x5a then 0x3ac7f2eb else if i == 0x5b then 0xc8ac71e8 else
    if i == 0x5c then 0x1c661503 else if i == 0x5d then 0xee0d9600 else if i == 0x5e then 0xfd5d65f4 else 0x0f36e6f7
  }

  function Table6(i: bv8): bv32 {
    if i == 0x60 then 0x61c69362 else if i == 0x61 then 0x93ad1061 else if i == 0x62 then 0x80fde395 else if i == 0x63 then 0x72966096 else
    if i == 0x64 then 0xa65c047d else if i == 0x65 then 0x5437877e else if i == 0x66 then 0x4767748a else if i == 0x67 then 0xb50cf789 else
    if i == 0x68 then 0xeb1fcbad else if i == 0x69 then 0x197448ae else if i == 0x6a then 0x0a24bb5a else if i == 0x6b then 0xf84f3859 else
    if i == 0x6c then 0x2c855cb2 else if i == 0x6d then 0xdeeedfb1 else if i == 0x6e then 0xcdbe2c45 else 0x3fd5af46
  }

  function Table7(i: bv8): bv32 {
    if i == 0x70 then 0x7198540d else if i == 0x71 then 0x83f3d70e else if i == 0x72 then 0x90a324fa else if i == 0x73 then 0x62c8a7f9 else
    if i == 0x74 then 0xb602c312 else if i == 0x75 then 0x44694011 else if i == 0x76 then 0x5739b3e5 else if i == 0x77 then 0xa55230e6 else
    if i == 0x78 then 0xfb410cc2 else if i == 0x79 then 0x092a8fc1 else if i == 0x7a then 0x1a7a7c35 else if i == 0x7b then 0xe811ff36 else
    if i == 0x7c then 0x3cdb9bdd else if i == 0x7d then 0xceb018de else if i == 0x7e then 0xdde0eb2a else 0x2f8b6829
  }

  function Table8(i: bv8): bv32 {
    if i == 0x80 then 0x82f63b78 else if i == 0x81 then 0x709db87b else if i == 0x82 then 0x63cd4b8f else if i == 0x83 then 0x91a6c88c else
    if i == 0x84 then 0x456cac67 else if i == 0x85 then 0xb7072f64 else if i == 0x86 then 0xa457dc90 else if i == 0x87 then 0x563c5f93 else
    if i == 0x88 then 0x082f63b7 else if i == 0x89 then 0xfa44e0b4 else if i == 0x8a then 0xe9141340 else if i == 0x8b then 0x1b7f9043 else
    if i == 0x8c then 0xcfb5f4a8 else if i == 0x8d then 0x3dde77ab else if i == 0x8e then 0x2e8e845f else 0xdce5075c
  }

  function Table9(i: bv8): bv32 {
    if i == 0x90 then 0x92a8fc17 else if i == 0x91 then 0x60c37f14 else if i == 0x92 then 0x73938ce0 else if i == 0x93 then 0x81f80fe3 else
    if i == 0x94 then 0x55326b08 else if i == 0x95 then 0xa759e80b else if i == 0x96 then 0xb4091bff else if i == 0x97 then 0x466298fc else
    if i == 0x98 then 0x1871a4d8 else if i == 0x99 then 0xea1a27db else if i == 0x9a then 0xf94ad42f else if i == 0x9b then 0x0b21572c else
    if i == 0x9c then 0xdfeb33c7 else if i == 0x9d then 0x2d80b0c4 else if i == 0x9e then 0x3ed04330 else 0xccbbc033
  }

  function TableA(i: bv8): bv32 {
    if i == 0xa0 then 0xa24bb5a6 else if i == 0xa1 then 0x502036a5 else if i == 0xa2 then 0x4370c551 else if i == 0xa3 then 0xb11b4652 else
    if i == 0xa4 then 0x65d122b9 else if i == 0xa5 then 0x97baa1ba else if i == 0xa6 then 0x84ea524e else if i == 0xa7 then 0x7681d14d else
    if i == 0xa8 then 0x2892ed69 else if i == 0xa9 then 0xdaf96e6a else if i == 0xaa then 0xc9a99d9e else if i == 0xab then 0x3bc21e9d else
    if i == 0xac then 0xef087a76 else if i == 0xad then 0x1d63f975 else if i == 0xae then 0x0e330a81 else 0xfc588982
  }

  function TableB(i: bv8): bv32 {
    if i == 0xb0 then 0xb21572c9 else if i == 0xb1 then 0x407ef1ca else if i == 0xb2 then 0x532e023e else if i == 0xb3 then 0xa145813d else
    if i == 0xb4 then 0x758fe5d6 else if i == 0xb5 then 0x87e466d5 else if i == 0xb6 then 0x94b49521 else if i == 0xb7 then 0x66df1622 else
    if i == 0xb8 then 0x38cc2a06 else if i == 0xb9 then 0xcaa7a905 else if i == 0xba then 0xd9f75af1 else if i == 0xbb then 0x2b9cd9f2 else
    if i == 0xbc then 0xff56bd19 else if i == 0xbd then 0x0d3d3e1a else if i == 0xbe then 0x1e6dcdee else 0xec064eed
  }

  function TableC(i: bv8): bv32 {
    if i == 0xc0 then 0xc38d26c4 else if i == 0xc1 then 0x31e6a5c7 else if i == 0xc2 then 0x22b65633 else if i == 0xc3 then 0xd0ddd530 else
    if i == 0xc4 then 0x0417b1db else if i == 0xc5 then 0xf67c32d8 else if i == 0xc6 then 0xe52cc12c else if i == 0xc7 then 0x1747422f else
    if i == 0xc8 then 0x49547e0b else if i == 0xc9 then 0xbb3ffd08 else if i == 0xca then 0xa86f0efc else if i == 0xcb then 0x5a048dff else
    if i == 0xcc then 0x8ecee914 else if i == 0xcd then 0x7ca56a17 else if i == 0xce then 0x6ff599e3 else 0x9d9e1ae0
  }

  function TableD(i: bv8): bv32 {
    if i == 0xd0 then 0xd3d3e1ab else if i == 0xd1 then 0x21b862a8 else if i == 0xd2 then 0x32e8915c else if i == 0xd3 then 0xc083125f else
    if i == 0xd4 then 0x144976b4 else if i == 0xd5 then 0xe622f5b7 else if i == 0xd6 then 0xf5720643 else if i == 0xd7 then 0x07198540 else
    if i == 0xd8 then 0x590ab964 else if i == 0xd9 then 0xab613a67 else if i == 0xda then 0xb831c993 else if i == 0xdb then 0x4a5a4a90 else
    if i == 0xdc then 0x9e902e7b else if i == 0xdd then 0x6cfbad78 else if i == 0xde then 0x7fab5e8c else 0x8dc0dd8f
  }

  function TableE(i: bv8): bv32 {
    if i == 0xe0 then 0xe330a81a else if i == 0xe1 then 0x115b2b19 else if i == 0xe2 then 0x020bd8ed else if i == 0xe3 then 0xf0605bee else
    if i == 0xe4 then 0x24aa3f05 else if i == 0xe5 then 0xd6c1bc06 else if i == 0xe6 then 0xc5914ff2 else if i == 0xe7 then 0x37faccf1 else
    if i == 0xe8 then 0x69e9f0d5 else if i == 0xe9 then 0x9b8273d6 else if i == 0xea then 0x88d28022 else if i == 0xeb then 0x7ab90321 else
    if i == 0xec then 0xae7367ca else if i == 0xed then 0x5c18e4c9 else if i == 0xee then 0x4f48173d else 0xbd23943e
  }

  function TableF(i: bv8): bv32 {
    if i == 0xf0 then 0xf36e6f75 else if i == 0xf1 then 0x0105ec76 else if i == 0xf2 then 0x12551f82 else if i == 0xf3 then 0xe03e9c81 else
    if i == 0xf4 then 0x34f4f86a else if i == 0xf5 then 0xc69f7b69 else if i == 0xf6 then 0xd5cf889d else if i == 0xf7 then 0x27a40b9e else
    if i == 0xf8 then 0x79b737ba else if i == 0xf9 then 0x8bdcb4b9 else if i == 0xfa then 0x988c474d else if i == 0xfb then 0x6ae7c44e else
    if i == 0xfc then 0xbe2da0a5 else if i == 0xfd then 0x4c4623a6 else if i == 0xfe then 0x5f16d052 else 0xad7d5351
  }

  // Every entry is eight steps on its index.

  lemma Row0(i: bv8)
    requires i <= 0x0f
    ensures EightSteps(i as bv64) == Table0(i) as bv64
  {
    if
    case i == 0x00 => case i == 0x01 => case i == 0x02 => case i == 0x03 =>
    case i == 0x04 => case i == 0x05 => case i == 0x06 => case i == 0x07 =>
    case i == 0x08 => case i == 0x09 => case i == 0x0a => case i == 0x0b =>
    case i == 0x0c => case i == 0x0d => case i == 0x0e => case i == 0x0f =>
  }

  lemma Row1(i: bv8)
    requires 0x10 <= i <= 0x1f
    ensures EightSteps(i as bv64) == Table1(i) as bv64
  {
    if
    case i == 0x10 => case i == 0x11 => case i == 0x12 => case i == 0x13 =>
    case i == 0x14 => case i == 0x15 => case i == 0x16 => case i == 0x17 =>
    case i == 0x18 => case i == 0x19 => case i == 0x1a => case i == 0x1b =>
    case i == 0x1c => case i == 0x1d => case i == 0x1e => case i == 0x1f =>
  }

  lemma Row2(i: bv8)
    requires 0x20 <= i <= 0x2f
    ensures EightSteps(i as bv64) == Table2(i) as bv64
  {
    if
    case i == 0x20 => case i == 0x21 => case i == 0x22 => case i == 0x23 =>
    case i == 0x24 => case i == 0x25 => case i == 0x26 => case i == 0x27 =>
    case i == 0x28 => case i == 0x29 => case i == 0x2a => case i == 0x2b =>
    case i == 0x2c => case i == 0x2d => case i == 0x2e => case i == 0x2f =>
  }

  lemma Row3(i: bv8)
    requires 0x30 <= i <= 0x3f
    ensures EightSteps(i as bv64) == Table3(i) as bv64
  {
    if
    case i == 0x30 => case i == 0x31 => case i == 0x32 => case i == 0x33 =>
    case i == 0x34 => case i == 0x35 => case i == 0x36 => case i == 0x37 =>
    case i == 0x38 => case i == 0x39 => case i == 0x3a => case i == 0x3b =>
    case i == 0x3c => case i == 0x3d => case i == 0x3e => case i == 0x3f =>
  }

  lemma Row4(i: bv8)
    requires 0x40 <= i <= 0x4f
    ensures EightSteps(i as bv64) == Table4(i) as bv64
  {
    if
    case i == 0x40 => case i == 0x41 => case i == 0x42 => case i == 0x43 =>
    case i == 0x44 => case i == 0x45 => case i == 0x46 => case i == 0x47 =>
    case i == 0x48 => case i == 0x49 => case i == 0x4a => case i == 0x4b =>
    case i == 0x4c => case i == 0x4d => case i == 0x4e => case i == 0x4f =>
  }

  lemma Row5(i: bv8)
    requires 0x50 <= i <= 0x5f
    ensures EightSteps(i as bv64) == Table5(i) as bv64
  {
    if
    case i == 0x50 => case i == 0x51 => case i == 0x52 => case i == 0x53 =>
    case i == 0x54 => case i == 0x55 => case i == 0x56 => case i == 0x57 =>
    case i == 0x58 => case i == 0x59 => case i == 0x5a => case i == 0x5b =>
    case i == 0x5c => case i == 0x5d => case i == 0x5e => case i == 0x5f =>
  }

  lemma Row6(i: bv8)
    requires 0x60 <= i <= 0x6f
    ensures EightSteps(i as bv64) == Table6(i) as bv64
  {
    if
    case i == 0x60 => case i == 0x61 => case i == 0x62 => case i == 0x63 =>
    case i == 0x64 => case i == 0x65 => case i == 0x66 => case i == 0x67 =>
    case i == 0x68 => case i == 0x69 => case i == 0x6a => case i == 0x6b =>
    case i == 0x6c => case i == 0x6d => case i == 0x6e => case i == 0x6f =>
  }

  lemma Row7(i: bv8)
    requires 0x70 <= i <= 0x7f
    ensures EightSteps(i as bv64) == Table7(i) as bv64
  {
    if
    case i == 0x70 => case i == 0x71 => case i == 0x72 => case i == 0x73 =>
    case i == 0x74 => case i == 0x75 => case i == 0x76 => case i == 0x77 =>
    case i == 0x78 => case i == 0x79 => case i == 0x7a => case i == 0x7b =>
    case i == 0x7c => case i == 0x7d => case i == 0x7e => case i == 0x7f =>
  }

  lemma Row8(i: bv8)
    requires 0x80 <= i <= 0x8f
    ensures EightSteps(i as bv64) == Table8(i) as bv64
  {
    if
    case i == 0x80 => case i == 0x81 => case i == 0x82 => case i == 0x83 =>
    case i == 0x84 => case i == 0x85 => case i == 0x86 => case i == 0x87 =>
    case i == 0x88 => case i == 0x89 => case i == 0x8a => case i == 0x8b =>
    case i == 0x8c => case i == 0x8d => case i == 0x8e => case i == 0x8f =>
  }

  lemma Row9(i: bv8)
    requires 0x90 <= i <= 0x9f
    ensures EightSteps(i as bv64) == Table9(i) as bv64
  {
    if
    case i == 0x90 => case i == 0x91 => case i == 0x92 => case i == 0x93 =>
    case i == 0x94 => case i == 0x95 => case i == 0x96 => case i == 0x97 =>
    case i == 0x98 => case i == 0x99 => case i == 0x9a => case i == 0x9b =>
    case i == 0x9c => case i == 0x9d => case i == 0x9e => case i == 0x9f =>
  }

  lemma RowA(i: bv8)
    requires 0xa0 <= i <= 0xaf
    ensures EightSteps(i as bv64) == TableA(i) as bv64
  {
    if
    case i == 0xa0 => case i == 0xa1 => case i == 0xa2 => case i == 0xa3 =>
    case i == 0xa4 => case i == 0xa5 => case i == 0xa6 => case i == 0xa7 =>
    case i == 0xa8 => case i == 0xa9 => case i == 0xaa => case i == 0xab =>
    case i == 0xac => case i == 0xad => case i == 0xae => case i == 0xaf =>
  }

  lemma RowB(i: bv8)
    requires 0xb0 <= i <= 0xbf
    ensures EightSteps(i as bv64) == TableB(i) as bv64
  {
    if
    case i == 0xb0 => case i == 0xb1 => case i == 0xb2 => case i == 0xb3 =>
    case i == 0xb4 => case i == 0xb5 => case i == 0xb6 => case i == 0xb7 =>
    case i == 0xb8 => case i == 0xb9 => case i == 0xba => case i == 0xbb =>
    case i == 0xbc => case i == 0xbd => case i == 0xbe => case i == 0xbf =>
  }

  lemma RowC(i: bv8)
    requires 0xc0 <= i <= 0xcf
    ensures EightSteps(i as bv64) == TableC(i) as bv64
  {
    if
    case i == 0xc0 => case i == 0xc1 => case i == 0xc2 => case i == 0xc3 =>
    case i == 0xc4 => case i == 0xc5 => case i == 0xc6 => case i == 0xc7 =>
    case i == 0xc8 => case i == 0xc9 => case i == 0xca => case i == 0xcb =>
    case i == 0xcc => case i == 0xcd => case i == 0xce => case i == 0xcf =>
  }

  lemma RowD(i: bv8)
    requires 0xd0 <= i <= 0xdf
    ensures EightSteps(i as bv64) == TableD(i) as bv64
  {
    if
    case i == 0xd0 => case i == 0xd1 => case i == 0xd2 => case i == 0xd3 =>
    case i == 0xd4 => case i == 0xd5 => case i == 0xd6 => case i == 0xd7 =>
    case i == 0xd8 => case i == 0xd9 => case i == 0xda => case i == 0xdb =>
    case i == 0xdc => case i == 0xdd => case i == 0xde => case i == 0xdf =>
  }

  lemma RowE(i: bv8)
    requires 0xe0 <= i <= 0xef
    ensures EightSteps(i as bv64) == TableE(i) as bv64
  {
    if
    case i == 0xe0 => case i == 0xe1 => case i == 0xe2 => case i == 0xe3 =>
    case i == 0xe4 => case i == 0xe5 => case i == 0xe6 => case i == 0xe7 =>
    case i == 0xe8 => case i == 0xe9 => case i == 0xea => case i == 0xeb =>
    case i == 0xec => case i == 0xed => case i == 0xee => case i == 0xef =>
  }

  lemma RowF(i: bv8)
    requires 0xf0 <= i
    ensures EightSteps(i as bv64) == TableF(i) as bv64
  {
    if
    case i == 0xf0 => case i == 0xf1 => case i == 0xf2 => case i == 0xf3 =>
    case i == 0xf4 => case i == 0xf5 => case i == 0xf6 => case i == 0xf7 =>
    case i == 0xf8 => case i == 0xf9 => case i == 0xfa => case i == 0xfb =>
    case i == 0xfc => case i == 0xfd => case i == 0xfe => case i == 0xff =>
  }

  ghost predicate EntryIs(g: bv64 -> bv64, t: bv8 -> bv32, i: bv8) {
    g(i as bv64) == t(i) as bv64
  }

  lemma EntryIsEightSteps(i: bv8)
    ensures EntryIs(EightSteps, Table, i)
  {
    if
    case i <= 0x0f => Row0(i);
    case 0x10 <= i <= 0x1f => Row1(i);
    case 0x20 <= i <= 0x2f => Row2(i);
    case 0x30 <= i <= 0x3f => Row3(i);
    case 0x40 <= i <= 0x4f => Row4(i);
    case 0x50 <= i <= 0x5f => Row5(i);
    case 0x60 <= i <= 0x6f => Row6(i);
    case 0x70 <= i <= 0x7f => Row7(i);
    case 0x80 <= i <= 0x8f => Row8(i);
    case 0x90 <= i <= 0x9f => Row9(i);
    case 0xa0 <= i <= 0xaf => RowA(i);
    case 0xb0 <= i <= 0xbf => RowB(i);
    case 0xc0 <= i <= 0xcf => RowC(i);
    case 0xd0 <= i <= 0xdf => RowD(i);
    case 0xe0 <= i <= 0xef => RowE(i);
    case 0xf0 <= i => RowF(i);
  }

  // Steps are additive, and shift what lies above the lowest bit.

  function Xor(a: bv64, b: bv64): bv64 {
    a ^ b
  }

  lemma BothOdd(a: bv64, b: bv64)
    requires a & 1 == 1 && b & 1 == 1
    ensures BitStep(a ^ b) == BitStep(a) ^ BitStep(b)
  {
  }

  lemma FirstOdd(a: bv64, b: bv64)
    requires a & 1 == 1 && b & 1 != 1
    ensures BitStep(a ^ b) == BitStep(a) ^ BitStep(b)
  {
  }

  lemma SecondOdd(a: bv64, b: bv64)
    requires a & 1 != 1 && b & 1 == 1
    ensures BitStep(a ^ b) == BitStep(a) ^ BitStep(b)
  {
  }

  lemma BothEven(a: bv64, b: bv64)
    requires a & 1 != 1 && b & 1 != 1
    ensures BitStep(a ^ b) == BitStep(a) ^ BitStep(b)
  {
  }

  lemma BitStepAdds(a: bv64, b: bv64)
    ensures BitStep(Xor(a, b)) == Xor(BitStep(a), BitStep(b))
  {
    if
    case a & 1 == 1 && b & 1 == 1 => BothOdd(a, b);
    case a & 1 == 1 && b & 1 != 1 => FirstOdd(a, b);
    case a & 1 != 1 && b & 1 == 1 => SecondOdd(a, b);
    case a & 1 != 1 && b & 1 != 1 => BothEven(a, b);
  }

  lemma EightRoundsAdd<W(!new)>(f: W -> W, add: (W, W) -> W, a: W, b: W)
    requires forall x, y :: f(add(x, y)) == add(f(x), f(y))
    ensures f(f(f(f(f(f(f(f(add(a, b))))))))) == add(f(f(f(f(f(f(f(f(a)))))))), f(f(f(f(f(f(f(f(b)))))))))
  {
  }

  lemma EightStepsAdd(a: bv64, b: bv64)
    ensures EightSteps(Xor(a, b)) == Xor(EightSteps(a), EightSteps(b))
  {
    forall x, y
      ensures BitStep(Xor(x, y)) == Xor(BitStep(x), BitStep(y))
    {
      BitStepAdds(x, y);
    }
    EightRoundsAdd(BitStep, Xor, a, b);
  }

  lemma Down8(h: bv64)
    requires h <= 0xff_ffff_ffff_ffff
    ensures BitStep(h << 8) == h << 7
  {
  }

  lemma Down7(h: bv64)
    requires h <= 0xff_ffff_ffff_ffff
    ensures BitStep(h << 7) == h << 6
  {
  }

  lemma Down6(h: bv64)
    requires h <= 0xff_ffff_ffff_ffff
    ensures BitStep(h << 6) == h << 5
  {
  }

  lemma Down5(h: bv64)
    requires h <= 0xff_ffff_ffff_ffff
    ensures BitStep(h << 5) == h << 4
  {
  }

  lemma Down4(h: bv64)
    requires h <= 0xff_ffff_ffff_ffff
    ensures BitStep(h << 4) == h << 3
  {
  }

  lemma Down3(h: bv64)
    requires h <= 0xff_ffff_ffff_ffff
    ensures BitStep(h << 3) == h << 2
  {
  }

  lemma Down2(h: bv64)
    requires h <= 0xff_ffff_ffff_ffff
    ensures BitStep(h << 2) == h << 1
  {
  }

  lemma Down1(h: bv64)
    requires h <= 0xff_ffff_ffff_ffff
    ensures BitStep(h << 1) == h
  {
  }

  lemma EightRoundsDown<W>(f: W -> W, a8: W, a7: W, a6: W, a5: W, a4: W, a3: W, a2: W, a1: W, a0: W)
    requires f(a8) == a7 && f(a7) == a6 && f(a6) == a5 && f(a5) == a4
    requires f(a4) == a3 && f(a3) == a2 && f(a2) == a1 && f(a1) == a0
    ensures f(f(f(f(f(f(f(f(a8)))))))) == a0
  {
  }

  lemma EightStepsShift(h: bv64)
    requires h <= 0xff_ffff_ffff_ffff
    ensures EightSteps(h << 8) == h
  {
    Down8(h);
    Down7(h);
    Down6(h);
    Down5(h);
    Down4(h);
    Down3(h);
    Down2(h);
    Down1(h);
    EightRoundsDown(BitStep, h << 8, h << 7, h << 6, h << 5, h << 4, h << 3, h << 2, h << 1, h);
  }

  // Both together.

  lemma SplitLowByte(v: bv64, i: bv8)
    requires i as bv64 == v & 0xff
    ensures v >> 8 <= 0xff_ffff_ffff_ffff && v == Xor((v >> 8) << 8, i as bv64)
  {
  }

  ghost predicate AddsAt(g: bv64 -> bv64, a: bv64, b: bv64) {
    g(Xor(a, b)) == Xor(g(a), g(b))
  }

  ghost predicate ShiftsAt(g: bv64 -> bv64, h: bv64) {
    g(h << 8) == h
  }

  ghost predicate TableStepAt(g: bv64 -> bv64, t: bv8 -> bv32, v: bv64, i: bv8) {
    g(v) == (v >> 8) ^ (t(i) as bv64)
  }

  lemma AddsAndShifts(h: bv64, x: bv64)
    requires h <= 0xff_ffff_ffff_ffff
    ensures AddsAt(EightSteps, h << 8, x) && ShiftsAt(EightSteps, h)
  {
    EightStepsAdd(h << 8, x);
    EightStepsShift(h);
  }

  lemma TableStep(v: bv64, i: bv8)
    requires i as bv64 == v & 0xff
    ensures TableStepAt(EightSteps, Table, v, i)
  {
    SplitLowByte(v, i);
    AddsAndShifts(v >> 8, i as bv64);
    EntryIsEightSteps(i);
    Combine(EightSteps, Table, v, i);
  }

  /** Eight shift steps are one table step: shift a byte out and add its table entry. */
  lemma TableIsEightSteps(v: bv64, i: bv8)
    requires i as bv64 == v & 0xff
    ensures EightSteps(v) == (v >> 8) ^ (Table(i) as bv64)
  {
    TableStep(v, i);
  }

  lemma Combine(g: bv64 -> bv64, t: bv8 -> bv32, v: bv64, i: bv8)
    requires v == Xor((v >> 8) << 8, i as bv64) && EntryIs(g, t, i)
    requires AddsAt(g, (v >> 8) << 8, i as bv64) && ShiftsAt(g, v >> 8)
    ensures TableStepAt(g, t, v, i)
  {
  }
}
