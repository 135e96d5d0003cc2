/** The literal table of mkpimage's CRC-32, checked entry by entry. */
module CrcTable {
  const POLY: bv32 := 0x04c1_1db7

  const ROW0: seq<bv32> := [
    0x00000000, 0x04c11db7, 0x09823b6e, 0x0d4326d9, 0x130476dc, 0x17c56b6b, 0x1a864db2, 0x1e475005,
    0x2608edb8, 0x22c9f00f, 0x2f8ad6d6, 0x2b4bcb61, 0x350c9b64, 0x31cd86d3, 0x3c8ea00a, 0x384fbdbd]
  const ROW1: seq<bv32> := [
    0x4c11db70, 0x48d0c6c7, 0x4593e01e, 0x4152fda9, 0x5f15adac, 0x5bd4b01b, 0x569796c2, 0x52568b75,
    0x6a1936c8, 0x6ed82b7f, 0x639b0da6, 0x675a1011, 0x791d4014, 0x7ddc5da3, 0x709f7b7a, 0x745e66cd]
  const ROW2: seq<bv32> := [
    0x9823b6e0, 0x9ce2ab57, 0x91a18d8e, 0x95609039, 0x8b27c03c, 0x8fe6dd8b, 0x82a5fb52, 0x8664e6e5,
    0xbe2b5b58, 0xbaea46ef, 0xb7a96036, 0xb3687d81, 0xad2f2d84, 0xa9ee3033, 0xa4ad16ea, 0xa06c0b5d]
  const ROW3: seq<bv32> := [
    0xd4326d90, 0xd0f37027, 0xddb056fe, 0xd9714b49, 0xc7361b4c, 0xc3f706fb, 0xceb42022, 0xca753d95,
    0xf23a8028, 0xf6fb9d9f, 0xfbb8bb46, 0xff79a6f1, 0xe13ef6f4, 0xe5ffeb43, 0xe8bccd9a, 0xec7dd02d]
  const ROW4: seq<bv32> := [
    0x34867077, 0x30476dc0, 0x3d044b19, 0x39c556ae, 0x278206ab, 0x23431b1c, 0x2e003dc5, 0x2ac12072,
    0x128e9dcf, 0x164f8078, 0x1b0ca6a1, 0x1fcdbb16, 0x018aeb13, 0x054bf6a4, 0x0808d07d, 0x0cc9cdca]
  const ROW5: seq<bv32> := [
    0x7897ab07, 0x7c56b6b0, 0x71159069, 0x75d48dde, 0x6b93dddb, 0x6f52c06c, 0x6211e6b5, 0x66d0fb02,
    0x5e9f46bf, 0x5a5e5b08, 0x571d7dd1, 0x53dc6066, 0x4d9b3063, 0x495a2dd4, 0x44190b0d, 0x40d816ba]
  const ROW6: seq<bv32> := [
    0xaca5c697, 0xa864db20, 0xa527fdf9, 0xa1e6e04e, 0xbfa1b04b, 0xbb60adfc, 0xb6238b25, 0xb2e29692,
    0x8aad2b2f, 0x8e6c3698, 0x832f1041, 0x87ee0df6, 0x99a95df3, 0x9d684044, 0x902b669d, 0x94ea7b2a]
  const ROW7: seq<bv32> := [
    0xe0b41de7, 0xe4750050, 0xe9362689, 0xedf73b3e, 0xf3b06b3b, 0xf771768c, 0xfa325055, 0xfef34de2,
    0xc6bcf05f, 0xc27dede8, 0xcf3ecb31, 0xcbffd686, 0xd5b88683, 0xd1799b34, 0xdc3abded, 0xd8fba05a]
  const ROW8: seq<bv32> := [
    0x690ce0ee, 0x6dcdfd59, 0x608edb80, 0x644fc637, 0x7a089632, 0x7ec98b85, 0x738aad5c, 0x774bb0eb,
    0x4f040d56, 0x4bc510e1, 0x46863638, 0x42472b8f, 0x5c007b8a, 0x58c1663d, 0x558240e4, 0x51435d53]
  const ROW9: seq<bv32> := [
    0x251d3b9e, 0x21dc2629, 0x2c9f00f0, 0x285e1d47, 0x36194d42, 0x32d850f5, 0x3f9b762c, 0x3b5a6b9b,
    0x0315d626, 0x07d4cb91, 0x0a97ed48, 0x0e56f0ff, 0x1011a0fa, 0x14d0bd4d, 0x19939b94, 0x1d528623]
  const ROW10: seq<bv32> := [
    0xf12f560e, 0xf5ee4bb9, 0xf8ad6d60, 0xfc6c70d7, 0xe22b20d2, 0xe6ea3d65, 0xeba91bbc, 0xef68060b,
    0xd727bbb6, 0xd3e6a601, 0xdea580d8, 0xda649d6f, 0xc423cd6a, 0xc0e2d0dd, 0xcda1f604, 0xc960ebb3]
  const ROW11: seq<bv32> := [
    0xbd3e8d7e, 0xb9ff90c9, 0xb4bcb610, 0xb07daba7, 0xae3afba2, 0xaafbe615, 0xa7b8c0cc, 0xa379dd7b,
    0x9b3660c6, 0x9ff77d71, 0x92b45ba8, 0x9675461f, 0x8832161a, 0x8cf30bad, 0x81b02d74, 0x857130c3]
  const ROW12: seq<bv32> := [
    0x5d8a9099, 0x594b8d2e, 0x5408abf7, 0x50c9b640, 0x4e8ee645, 0x4a4ffbf2, 0x470cdd2b, 0x43cdc09c,
    0x7b827d21, 0x7f436096, 0x7200464f, 0x76c15bf8, 0x68860bfd, 0x6c47164a, 0x61043093, 0x65c52d24]
  const ROW13: seq<bv32> := [
    0x119b4be9, 0x155a565e, 0x18197087, 0x1cd86d30, 0x029f3d35, 0x065e2082, 0x0b1d065b, 0x0fdc1bec,
    0x3793a651, 0x3352bbe6, 0x3e119d3f, 0x3ad08088, 0x2497d08d, 0x2056cd3a, 0x2d15ebe3, 0x29d4f654]
  const ROW14: seq<bv32> := [
    0xc5a92679, 0xc1683bce, 0xcc2b1d17, 0xc8ea00a0, 0xd6ad50a5, 0xd26c4d12, 0xdf2f6bcb, 0xdbee767c,
    0xe3a1cbc1, 0xe760d676, 0xea23f0af, 0xeee2ed18, 0xf0a5bd1d, 0xf464a0aa, 0xf9278673, 0xfde69bc4]
  const ROW15: seq<bv32> := [
    0x89b8fd09, 0x8d79e0be, 0x803ac667, 0x84fbdbd0, 0x9abc8bd5, 0x9e7d9662, 0x933eb0bb, 0x97ffad0c,
    0xafb010b1, 0xab710d06, 0xa6322bdf, 0xa2f33668, 0xbcb4666d, 0xb8757bda, 0xb5365d03, 0xb1f740b4]

  /** `crc_table`, as 16 rows of 16. */
  function Table(i: nat): bv32
    requires i < 256
  {
    var row := if i < 128 then [ROW0, ROW1, ROW2, ROW3, ROW4, ROW5, ROW6, ROW7][i / 16]
               else [ROW8, ROW9, ROW10, ROW11, ROW12, ROW13, ROW14, ROW15][i / 16 - 8];
    row[i % 16]
  }

  /** One step of MSB-first division by the generator polynomial. */
  function Shift(crc: bv32): bv32 {
    if crc & 0x8000_0000 != 0 then (crc << 1) ^ POLY else crc << 1
  }

  function Shift8(crc: bv32): bv32 {
    Shift(Shift(Shift(Shift(Shift(Shift(Shift(Shift(crc))))))))
  }

  lemma Shifted0()
    ensures Shift8(0x00000000) == 0x00000000 && Shift8(0x01000000) == 0x04c11db7
    ensures Shift8(0x02000000) == 0x09823b6e && Shift8(0x03000000) == 0x0d4326d9
    ensures Shift8(0x04000000) == 0x130476dc && Shift8(0x05000000) == 0x17c56b6b
    ensures Shift8(0x06000000) == 0x1a864db2 && Shift8(0x07000000) == 0x1e475005
    ensures Shift8(0x08000000) == 0x2608edb8 && Shift8(0x09000000) == 0x22c9f00f
    ensures Shift8(0x0a000000) == 0x2f8ad6d6 && Shift8(0x0b000000) == 0x2b4bcb61
    ensures Shift8(0x0c000000) == 0x350c9b64 && Shift8(0x0d000000) == 0x31cd86d3
    ensures Shift8(0x0e000000) == 0x3c8ea00a && Shift8(0x0f000000) == 0x384fbdbd
  {
  }

  lemma Row0()
    ensures Table(0) == ROW0[0] && Table(1) == ROW0[1] && Table(2) == ROW0[2] && Table(3) == ROW0[3]
    ensures Table(4) == ROW0[4] && Table(5) == ROW0[5] && Table(6) == ROW0[6] && Table(7) == ROW0[7]
    ensures Table(8) == ROW0[8] && Table(9) == ROW0[9] && Table(10) == ROW0[10] && Table(11) == ROW0[11]
    ensures Table(12) == ROW0[12] && Table(13) == ROW0[13] && Table(14) == ROW0[14] && Table(15) == ROW0[15]
  {
  }

  lemma Entry0(v: bv32)
    requires 0 <= v <= 15
    ensures v as nat < 256 && Table(v as nat) == Shift8(v << 24)
  {
    hide Shift8, Table;
    Shifted0();
    Row0();
    assert v == 0 || v == 1 || v == 2 || v == 3 || v == 4 || v == 5 || v == 6 || v == 7
           || v == 8 || v == 9 || v == 10 || v == 11 || v == 12 || v == 13 || v == 14 || v == 15;
  }

  lemma Shifted1()
    ensures Shift8(0x10000000) == 0x4c11db70 && Shift8(0x11000000) == 0x48d0c6c7
    ensures Shift8(0x12000000) == 0x4593e01e && Shift8(0x13000000) == 0x4152fda9
    ensures Shift8(0x14000000) == 0x5f15adac && Shift8(0x15000000) == 0x5bd4b01b
    ensures Shift8(0x16000000) == 0x569796c2 && Shift8(0x17000000) == 0x52568b75
    ensures Shift8(0x18000000) == 0x6a1936c8 && Shift8(0x19000000) == 0x6ed82b7f
    ensures Shift8(0x1a000000) == 0x639b0da6 && Shift8(0x1b000000) == 0x675a1011
    ensures Shift8(0x1c000000) == 0x791d4014 && Shift8(0x1d000000) == 0x7ddc5da3
    ensures Shift8(0x1e000000) == 0x709f7b7a && Shift8(0x1f000000) == 0x745e66cd
  {
  }

  lemma Row1()
    ensures Table(16) == ROW1[0] && Table(17) == ROW1[1] && Table(18) == ROW1[2] && Table(19) == ROW1[3]
    ensures Table(20) == ROW1[4] && Table(21) == ROW1[5] && Table(22) == ROW1[6] && Table(23) == ROW1[7]
    ensures Table(24) == ROW1[8] && Table(25) == ROW1[9] && Table(26) == ROW1[10] && Table(27) == ROW1[11]
    ensures Table(28) == ROW1[12] && Table(29) == ROW1[13] && Table(30) == ROW1[14] && Table(31) == ROW1[15]
  {
  }

  lemma Entry1(v: bv32)
    requires 16 <= v <= 31
    ensures v as nat < 256 && Table(v as nat) == Shift8(v << 24)
  {
    hide Shift8, Table;
    Shifted1();
    Row1();
    assert v == 16 || v == 17 || v == 18 || v == 19 || v == 20 || v == 21 || v == 22 || v == 23
           || v == 24 || v == 25 || v == 26 || v == 27 || v == 28 || v == 29 || v == 30 || v == 31;
  }

  lemma Shifted2()
    ensures Shift8(0x20000000) == 0x9823b6e0 && Shift8(0x21000000) == 0x9ce2ab57
    ensures Shift8(0x22000000) == 0x91a18d8e && Shift8(0x23000000) == 0x95609039
    ensures Shift8(0x24000000) == 0x8b27c03c && Shift8(0x25000000) == 0x8fe6dd8b
    ensures Shift8(0x26000000) == 0x82a5fb52 && Shift8(0x27000000) == 0x8664e6e5
    ensures Shift8(0x28000000) == 0xbe2b5b58 && Shift8(0x29000000) == 0xbaea46ef
    ensures Shift8(0x2a000000) == 0xb7a96036 && Shift8(0x2b000000) == 0xb3687d81
    ensures Shift8(0x2c000000) == 0xad2f2d84 && Shift8(0x2d000000) == 0xa9ee3033
    ensures Shift8(0x2e000000) == 0xa4ad16ea && Shift8(0x2f000000) == 0xa06c0b5d
  {
  }

  lemma Row2()
    ensures Table(32) == ROW2[0] && Table(33) == ROW2[1] && Table(34) == ROW2[2] && Table(35) == ROW2[3]
    ensures Table(36) == ROW2[4] && Table(37) == ROW2[5] && Table(38) == ROW2[6] && Table(39) == ROW2[7]
    ensures Table(40) == ROW2[8] && Table(41) == ROW2[9] && Table(42) == ROW2[10] && Table(43) == ROW2[11]
    ensures Table(44) == ROW2[12] && Table(45) == ROW2[13] && Table(46) == ROW2[14] && Table(47) == ROW2[15]
  {
  }

  lemma Entry2(v: bv32)
    requires 32 <= v <= 47
    ensures v as nat < 256 && Table(v as nat) == Shift8(v << 24)
  {
    hide Shift8, Table;
    Shifted2();
    Row2();
    assert v == 32 || v == 33 || v == 34 || v == 35 || v == 36 || v == 37 || v == 38 || v == 39
           || v == 40 || v == 41 || v == 42 || v == 43 || v == 44 || v == 45 || v == 46 || v == 47;
  }

  lemma Shifted3()
    ensures Shift8(0x30000000) == 0xd4326d90 && Shift8(0x31000000) == 0xd0f37027
    ensures Shift8(0x32000000) == 0xddb056fe && Shift8(0x33000000) == 0xd9714b49
    ensures Shift8(0x34000000) == 0xc7361b4c && Shift8(0x35000000) == 0xc3f706fb
    ensures Shift8(0x36000000) == 0xceb42022 && Shift8(0x37000000) == 0xca753d95
    ensures Shift8(0x38000000) == 0xf23a8028 && Shift8(0x39000000) == 0xf6fb9d9f
    ensures Shift8(0x3a000000) == 0xfbb8bb46 && Shift8(0x3b000000) == 0xff79a6f1
    ensures Shift8(0x3c000000) == 0xe13ef6f4 && Shift8(0x3d000000) == 0xe5ffeb43
    ensures Shift8(0x3e000000) == 0xe8bccd9a && Shift8(0x3f000000) == 0xec7dd02d
  {
  }

  lemma Row3()
    ensures Table(48) == ROW3[0] && Table(49) == ROW3[1] && Table(50) == ROW3[2] && Table(51) == ROW3[3]
    ensures Table(52) == ROW3[4] && Table(53) == ROW3[5] && Table(54) == ROW3[6] && Table(55) == ROW3[7]
    ensures Table(56) == ROW3[8] && Table(57) == ROW3[9] && Table(58) == ROW3[10] && Table(59) == ROW3[11]
    ensures Table(60) == ROW3[12] && Table(61) == ROW3[13] && Table(62) == ROW3[14] && Table(63) == ROW3[15]
  {
  }

  lemma Entry3(v: bv32)
    requires 48 <= v <= 63
    ensures v as nat < 256 && Table(v as nat) == Shift8(v << 24)
  {
    hide Shift8, Table;
    Shifted3();
    Row3();
    assert v == 48 || v == 49 || v == 50 || v == 51 || v == 52 || v == 53 || v == 54 || v == 55
           || v == 56 || v == 57 || v == 58 || v == 59 || v == 60 || v == 61 || v == 62 || v == 63;
  }

  lemma Shifted4()
    ensures Shift8(0x40000000) == 0x34867077 && Shift8(0x41000000) == 0x30476dc0
    ensures Shift8(0x42000000) == 0x3d044b19 && Shift8(0x43000000) == 0x39c556ae
    ensures Shift8(0x44000000) == 0x278206ab && Shift8(0x45000000) == 0x23431b1c
    ensures Shift8(0x46000000) == 0x2e003dc5 && Shift8(0x47000000) == 0x2ac12072
    ensures Shift8(0x48000000) == 0x128e9dcf && Shift8(0x49000000) == 0x164f8078
    ensures Shift8(0x4a000000) == 0x1b0ca6a1 && Shift8(0x4b000000) == 0x1fcdbb16
    ensures Shift8(0x4c000000) == 0x018aeb13 && Shift8(0x4d000000) == 0x054bf6a4
    ensures Shift8(0x4e000000) == 0x0808d07d && Shift8(0x4f000000) == 0x0cc9cdca
  {
  }

  lemma Row4()
    ensures Table(64) == ROW4[0] && Table(65) == ROW4[1] && Table(66) == ROW4[2] && Table(67) == ROW4[3]
    ensures Table(68) == ROW4[4] && Table(69) == ROW4[5] && Table(70) == ROW4[6] && Table(71) == ROW4[7]
    ensures Table(72) == ROW4[8] && Table(73) == ROW4[9] && Table(74) == ROW4[10] && Table(75) == ROW4[11]
    ensures Table(76) == ROW4[12] && Table(77) == ROW4[13] && Table(78) == ROW4[14] && Table(79) == ROW4[15]
  {
  }

  lemma Entry4(v: bv32)
    requires 64 <= v <= 79
    ensures v as nat < 256 && Table(v as nat) == Shift8(v << 24)
  {
    hide Shift8, Table;
    Shifted4();
    Row4();
    assert v == 64 || v == 65 || v == 66 || v == 67 || v == 68 || v == 69 || v == 70 || v == 71
           || v == 72 || v == 73 || v == 74 || v == 75 || v == 76 || v == 77 || v == 78 || v == 79;
  }

  lemma Shifted5()
    ensures Shift8(0x50000000) == 0x7897ab07 && Shift8(0x51000000) == 0x7c56b6b0
    ensures Shift8(0x52000000) == 0x71159069 && Shift8(0x53000000) == 0x75d48dde
    ensures Shift8(0x54000000) == 0x6b93dddb && Shift8(0x55000000) == 0x6f52c06c
    ensures Shift8(0x56000000) == 0x6211e6b5 && Shift8(0x57000000) == 0x66d0fb02
    ensures Shift8(0x58000000) == 0x5e9f46bf && Shift8(0x59000000) == 0x5a5e5b08
    ensures Shift8(0x5a000000) == 0x571d7dd1 && Shift8(0x5b000000) == 0x53dc6066
    ensures Shift8(0x5c000000) == 0x4d9b3063 && Shift8(0x5d000000) == 0x495a2dd4
    ensures Shift8(0x5e000000) == 0x44190b0d && Shift8(0x5f000000) == 0x40d816ba
  {
  }

  lemma Row5()
    ensures Table(80) == ROW5[0] && Table(81) == ROW5[1] && Table(82) == ROW5[2] && Table(83) == ROW5[3]
    ensures Table(84) == ROW5[4] && Table(85) == ROW5[5] && Table(86) == ROW5[6] && Table(87) == ROW5[7]
    ensures Table(88) == ROW5[8] && Table(89) == ROW5[9] && Table(90) == ROW5[10] && Table(91) == ROW5[11]
    ensures Table(92) == ROW5[12] && Table(93) == ROW5[13] && Table(94) == ROW5[14] && Table(95) == ROW5[15]
  {
  }

  lemma Entry5(v: bv32)
    requires 80 <= v <= 95
    ensures v as nat < 256 && Table(v as nat) == Shift8(v << 24)
  {
    hide Shift8, Table;
    Shifted5();
    Row5();
    assert v == 80 || v == 81 || v == 82 || v == 83 || v == 84 || v == 85 || v == 86 || v == 87
           || v == 88 || v == 89 || v == 90 || v == 91 || v == 92 || v == 93 || v == 94 || v == 95;
  }

  lemma Shifted6()
    ensures Shift8(0x60000000) == 0xaca5c697 && Shift8(0x61000000) == 0xa864db20
    ensures Shift8(0x62000000) == 0xa527fdf9 && Shift8(0x63000000) == 0xa1e6e04e
    ensures Shift8(0x64000000) == 0xbfa1b04b && Shift8(0x65000000) == 0xbb60adfc
    ensures Shift8(0x66000000) == 0xb6238b25 && Shift8(0x67000000) == 0xb2e29692
    ensures Shift8(0x68000000) == 0x8aad2b2f && Shift8(0x69000000) == 0x8e6c3698
    ensures Shift8(0x6a000000) == 0x832f1041 && Shift8(0x6b000000) == 0x87ee0df6
    ensures Shift8(0x6c000000) == 0x99a95df3 && Shift8(0x6d000000) == 0x9d684044
    ensures Shift8(0x6e000000) == 0x902b669d && Shift8(0x6f000000) == 0x94ea7b2a
  {
  }

  lemma Row6()
    ensures Table(96) == ROW6[0] && Table(97) == ROW6[1] && Table(98) == ROW6[2] && Table(99) == ROW6[3]
    ensures Table(100) == ROW6[4] && Table(101) == ROW6[5] && Table(102) == ROW6[6] && Table(103) == ROW6[7]
    ensures Table(104) == ROW6[8] && Table(105) == ROW6[9] && Table(106) == ROW6[10] && Table(107) == ROW6[11]
    ensures Table(108) == ROW6[12] && Table(109) == ROW6[13] && Table(110) == ROW6[14] && Table(111) == ROW6[15]
  {
  }

  lemma Entry6(v: bv32)
    requires 96 <= v <= 111
    ensures v as nat < 256 && Table(v as nat) == Shift8(v << 24)
  {
    hide Shift8, Table;
    Shifted6();
    Row6();
    assert v == 96 || v == 97 || v == 98 || v == 99 || v == 100 || v == 101 || v == 102 || v == 103
           || v == 104 || v == 105 || v == 106 || v == 107 || v == 108 || v == 109 || v == 110 || v == 111;
  }

  lemma Shifted7()
    ensures Shift8(0x70000000) == 0xe0b41de7 && Shift8(0x71000000) == 0xe4750050
    ensures Shift8(0x72000000) == 0xe9362689 && Shift8(0x73000000) == 0xedf73b3e
    ensures Shift8(0x74000000) == 0xf3b06b3b && Shift8(0x75000000) == 0xf771768c
    ensures Shift8(0x76000000) == 0xfa325055 && Shift8(0x77000000) == 0xfef34de2
    ensures Shift8(0x78000000) == 0xc6bcf05f && Shift8(0x79000000) == 0xc27dede8
    ensures Shift8(0x7a000000) == 0xcf3ecb31 && Shift8(0x7b000000) == 0xcbffd686
    ensures Shift8(0x7c000000) == 0xd5b88683 && Shift8(0x7d000000) == 0xd1799b34
    ensures Shift8(0x7e000000) == 0xdc3abded && Shift8(0x7f000000) == 0xd8fba05a
  {
  }

  lemma Row7()
    ensures Table(112) == ROW7[0] && Table(113) == ROW7[1] && Table(114) == ROW7[2] && Table(115) == ROW7[3]
    ensures Table(116) == ROW7[4] && Table(117) == ROW7[5] && Table(118) == ROW7[6] && Table(119) == ROW7[7]
    ensures Table(120) == ROW7[8] && Table(121) == ROW7[9] && Table(122) == ROW7[10] && Table(123) == ROW7[11]
    ensures Table(124) == ROW7[12] && Table(125) == ROW7[13] && Table(126) == ROW7[14] && Table(127) == ROW7[15]
  {
  }

  lemma Entry7(v: bv32)
    requires 112 <= v <= 127
    ensures v as nat < 256 && Table(v as nat) == Shift8(v << 24)
  {
    hide Shift8, Table;
    Shifted7();
    Row7();
    assert v == 112 || v == 113 || v == 114 || v == 115 || v == 116 || v == 117 || v == 118 || v == 119
           || v == 120 || v == 121 || v == 122 || v == 123 || v == 124 || v == 125 || v == 126 || v == 127;
  }

  lemma Shifted8()
    ensures Shift8(0x80000000) == 0x690ce0ee && Shift8(0x81000000) == 0x6dcdfd59
    ensures Shift8(0x82000000) == 0x608edb80 && Shift8(0x83000000) == 0x644fc637
    ensures Shift8(0x84000000) == 0x7a089632 && Shift8(0x85000000) == 0x7ec98b85
    ensures Shift8(0x86000000) == 0x738aad5c && Shift8(0x87000000) == 0x774bb0eb
    ensures Shift8(0x88000000) == 0x4f040d56 && Shift8(0x89000000) == 0x4bc510e1
    ensures Shift8(0x8a000000) == 0x46863638 && Shift8(0x8b000000) == 0x42472b8f
    ensures Shift8(0x8c000000) == 0x5c007b8a && Shift8(0x8d000000) == 0x58c1663d
    ensures Shift8(0x8e000000) == 0x558240e4 && Shift8(0x8f000000) == 0x51435d53
  {
  }

  lemma Row8()
    ensures Table(128) == ROW8[0] && Table(129) == ROW8[1] && Table(130) == ROW8[2] && Table(131) == ROW8[3]
    ensures Table(132) == ROW8[4] && Table(133) == ROW8[5] && Table(134) == ROW8[6] && Table(135) == ROW8[7]
    ensures Table(136) == ROW8[8] && Table(137) == ROW8[9] && Table(138) == ROW8[10] && Table(139) == ROW8[11]
    ensures Table(140) == ROW8[12] && Table(141) == ROW8[13] && Table(142) == ROW8[14] && Table(143) == ROW8[15]
  {
  }

  lemma Entry8(v: bv32)
    requires 128 <= v <= 143
    ensures v as nat < 256 && Table(v as nat) == Shift8(v << 24)
  {
    hide Shift8, Table;
    Shifted8();
    Row8();
    assert v == 128 || v == 129 || v == 130 || v == 131 || v == 132 || v == 133 || v == 134 || v == 135
           || v == 136 || v == 137 || v == 138 || v == 139 || v == 140 || v == 141 || v == 142 || v == 143;
  }

  lemma Shifted9()
    ensures Shift8(0x90000000) == 0x251d3b9e && Shift8(0x91000000) == 0x21dc2629
    ensures Shift8(0x92000000) == 0x2c9f00f0 && Shift8(0x93000000) == 0x285e1d47
    ensures Shift8(0x94000000) == 0x36194d42 && Shift8(0x95000000) == 0x32d850f5
    ensures Shift8(0x96000000) == 0x3f9b762c && Shift8(0x97000000) == 0x3b5a6b9b
    ensures Shift8(0x98000000) == 0x0315d626 && Shift8(0x99000000) == 0x07d4cb91
    ensures Shift8(0x9a000000) == 0x0a97ed48 && Shift8(0x9b000000) == 0x0e56f0ff
    ensures Shift8(0x9c000000) == 0x1011a0fa && Shift8(0x9d000000) == 0x14d0bd4d
    ensures Shift8(0x9e000000) == 0x19939b94 && Shift8(0x9f000000) == 0x1d528623
  {
  }

  lemma Row9()
    ensures Table(144) == ROW9[0] && Table(145) == ROW9[1] && Table(146) == ROW9[2] && Table(147) == ROW9[3]
    ensures Table(148) == ROW9[4] && Table(149) == ROW9[5] && Table(150) == ROW9[6] && Table(151) == ROW9[7]
    ensures Table(152) == ROW9[8] && Table(153) == ROW9[9] && Table(154) == ROW9[10] && Table(155) == ROW9[11]
    ensures Table(156) == ROW9[12] && Table(157) == ROW9[13] && Table(158) == ROW9[14] && Table(159) == ROW9[15]
  {
  }

  lemma Entry9(v: bv32)
    requires 144 <= v <= 159
    ensures v as nat < 256 && Table(v as nat) == Shift8(v << 24)
  {
    hide Shift8, Table;
    Shifted9();
    Row9();
    assert v == 144 || v == 145 || v == 146 || v == 147 || v == 148 || v == 149 || v == 150 || v == 151
           || v == 152 || v == 153 || v == 154 || v == 155 || v == 156 || v == 157 || v == 158 || v == 159;
  }

  lemma Shifted10()
    ensures Shift8(0xa0000000) == 0xf12f560e && Shift8(0xa1000000) == 0xf5ee4bb9
    ensures Shift8(0xa2000000) == 0xf8ad6d60 && Shift8(0xa3000000) == 0xfc6c70d7
    ensures Shift8(0xa4000000) == 0xe22b20d2 && Shift8(0xa5000000) == 0xe6ea3d65
    ensures Shift8(0xa6000000) == 0xeba91bbc && Shift8(0xa7000000) == 0xef68060b
    ensures Shift8(0xa8000000) == 0xd727bbb6 && Shift8(0xa9000000) == 0xd3e6a601
    ensures Shift8(0xaa000000) == 0xdea580d8 && Shift8(0xab000000) == 0xda649d6f
    ensures Shift8(0xac000000) == 0xc423cd6a && Shift8(0xad000000) == 0xc0e2d0dd
    ensures Shift8(0xae000000) == 0xcda1f604 && Shift8(0xaf000000) == 0xc960ebb3
  {
  }

  lemma Row10()
    ensures Table(160) == ROW10[0] && Table(161) == ROW10[1] && Table(162) == ROW10[2] && Table(163) == ROW10[3]
    ensures Table(164) == ROW10[4] && Table(165) == ROW10[5] && Table(166) == ROW10[6] && Table(167) == ROW10[7]
    ensures Table(168) == ROW10[8] && Table(169) == ROW10[9] && Table(170) == ROW10[10] && Table(171) == ROW10[11]
    ensures Table(172) == ROW10[12] && Table(173) == ROW10[13] && Table(174) == ROW10[14] && Table(175) == ROW10[15]
  {
  }

  lemma Entry10(v: bv32)
    requires 160 <= v <= 175
    ensures v as nat < 256 && Table(v as nat) == Shift8(v << 24)
  {
    hide Shift8, Table;
    Shifted10();
    Row10();
    assert v == 160 || v == 161 || v == 162 || v == 163 || v == 164 || v == 165 || v == 166 || v == 167
           || v == 168 || v == 169 || v == 170 || v == 171 || v == 172 || v == 173 || v == 174 || v == 175;
  }

  lemma Shifted11()
    ensures Shift8(0xb0000000) == 0xbd3e8d7e && Shift8(0xb1000000) == 0xb9ff90c9
    ensures Shift8(0xb2000000) == 0xb4bcb610 && Shift8(0xb3000000) == 0xb07daba7
    ensures Shift8(0xb4000000) == 0xae3afba2 && Shift8(0xb5000000) == 0xaafbe615
    ensures Shift8(0xb6000000) == 0xa7b8c0cc && Shift8(0xb7000000) == 0xa379dd7b
    ensures Shift8(0xb8000000) == 0x9b3660c6 && Shift8(0xb9000000) == 0x9ff77d71
    ensures Shift8(0xba000000) == 0x92b45ba8 && Shift8(0xbb000000) == 0x9675461f
    ensures Shift8(0xbc000000) == 0x8832161a && Shift8(0xbd000000) == 0x8cf30bad
    ensures Shift8(0xbe000000) == 0x81b02d74 && Shift8(0xbf000000) == 0x857130c3
  {
  }

  lemma Row11()
    ensures Table(176) == ROW11[0] && Table(177) == ROW11[1] && Table(178) == ROW11[2] && Table(179) == ROW11[3]
    ensures Table(180) == ROW11[4] && Table(181) == ROW11[5] && Table(182) == ROW11[6] && Table(183) == ROW11[7]
    ensures Table(184) == ROW11[8] && Table(185) == ROW11[9] && Table(186) == ROW11[10] && Table(187) == ROW11[11]
    ensures Table(188) == ROW11[12] && Table(189) == ROW11[13] && Table(190) == ROW11[14] && Table(191) == ROW11[15]
  {
  }

  lemma Entry11(v: bv32)
    requires 176 <= v <= 191
    ensures v as nat < 256 && Table(v as nat) == Shift8(v << 24)
  {
    hide Shift8, Table;
    Shifted11();
    Row11();
    assert v == 176 || v == 177 || v == 178 || v == 179 || v == 180 || v == 181 || v == 182 || v == 183
           || v == 184 || v == 185 || v == 186 || v == 187 || v == 188 || v == 189 || v == 190 || v == 191;
  }

  lemma Shifted12()
    ensures Shift8(0xc0000000) == 0x5d8a9099 && Shift8(0xc1000000) == 0x594b8d2e
    ensures Shift8(0xc2000000) == 0x5408abf7 && Shift8(0xc3000000) == 0x50c9b640
    ensures Shift8(0xc4000000) == 0x4e8ee645 && Shift8(0xc5000000) == 0x4a4ffbf2
    ensures Shift8(0xc6000000) == 0x470cdd2b && Shift8(0xc7000000) == 0x43cdc09c
    ensures Shift8(0xc8000000) == 0x7b827d21 && Shift8(0xc9000000) == 0x7f436096
    ensures Shift8(0xca000000) == 0x7200464f && Shift8(0xcb000000) == 0x76c15bf8
    ensures Shift8(0xcc000000) == 0x68860bfd && Shift8(0xcd000000) == 0x6c47164a
    ensures Shift8(0xce000000) == 0x61043093 && Shift8(0xcf000000) == 0x65c52d24
  {
  }

  lemma Row12()
    ensures Table(192) == ROW12[0] && Table(193) == ROW12[1] && Table(194) == ROW12[2] && Table(195) == ROW12[3]
    ensures Table(196) == ROW12[4] && Table(197) == ROW12[5] && Table(198) == ROW12[6] && Table(199) == ROW12[7]
    ensures Table(200) == ROW12[8] && Table(201) == ROW12[9] && Table(202) == ROW12[10] && Table(203) == ROW12[11]
    ensures Table(204) == ROW12[12] && Table(205) == ROW12[13] && Table(206) == ROW12[14] && Table(207) == ROW12[15]
  {
  }

  lemma Entry12(v: bv32)
    requires 192 <= v <= 207
    ensures v as nat < 256 && Table(v as nat) == Shift8(v << 24)
  {
    hide Shift8, Table;
    Shifted12();
    Row12();
    assert v == 192 || v == 193 || v == 194 || v == 195 || v == 196 || v == 197 || v == 198 || v == 199
           || v == 200 || v == 201 || v == 202 || v == 203 || v == 204 || v == 205 || v == 206 || v == 207;
  }

  lemma Shifted13()
    ensures Shift8(0xd0000000) == 0x119b4be9 && Shift8(0xd1000000) == 0x155a565e
    ensures Shift8(0xd2000000) == 0x18197087 && Shift8(0xd3000000) == 0x1cd86d30
    ensures Shift8(0xd4000000) == 0x029f3d35 && Shift8(0xd5000000) == 0x065e2082
    ensures Shift8(0xd6000000) == 0x0b1d065b && Shift8(0xd7000000) == 0x0fdc1bec
    ensures Shift8(0xd8000000) == 0x3793a651 && Shift8(0xd9000000) == 0x3352bbe6
    ensures Shift8(0xda000000) == 0x3e119d3f && Shift8(0xdb000000) == 0x3ad08088
    ensures Shift8(0xdc000000) == 0x2497d08d && Shift8(0xdd000000) == 0x2056cd3a
    ensures Shift8(0xde000000) == 0x2d15ebe3 && Shift8(0xdf000000) == 0x29d4f654
  {
  }

  lemma Row13()
    ensures Table(208) == ROW13[0] && Table(209) == ROW13[1] && Table(210) == ROW13[2] && Table(211) == ROW13[3]
    ensures Table(212) == ROW13[4] && Table(213) == ROW13[5] && Table(214) == ROW13[6] && Table(215) == ROW13[7]
    ensures Table(216) == ROW13[8] && Table(217) == ROW13[9] && Table(218) == ROW13[10] && Table(219) == ROW13[11]
    ensures Table(220) == ROW13[12] && Table(221) == ROW13[13] && Table(222) == ROW13[14] && Table(223) == ROW13[15]
  {
  }

  lemma Entry13(v: bv32)
    requires 208 <= v <= 223
    ensures v as nat < 256 && Table(v as nat) == Shift8(v << 24)
  {
    hide Shift8, Table;
    Shifted13();
    Row13();
    assert v == 208 || v == 209 || v == 210 || v == 211 || v == 212 || v == 213 || v == 214 || v == 215
           || v == 216 || v == 217 || v == 218 || v == 219 || v == 220 || v == 221 || v == 222 || v == 223;
  }

  lemma Shifted14()
    ensures Shift8(0xe0000000) == 0xc5a92679 && Shift8(0xe1000000) == 0xc1683bce
    ensures Shift8(0xe2000000) == 0xcc2b1d17 && Shift8(0xe3000000) == 0xc8ea00a0
    ensures Shift8(0xe4000000) == 0xd6ad50a5 && Shift8(0xe5000000) == 0xd26c4d12
    ensures Shift8(0xe6000000) == 0xdf2f6bcb && Shift8(0xe7000000) == 0xdbee767c
    ensures Shift8(0xe8000000) == 0xe3a1cbc1 && Shift8(0xe9000000) == 0xe760d676
    ensures Shift8(0xea000000) == 0xea23f0af && Shift8(0xeb000000) == 0xeee2ed18
    ensures Shift8(0xec000000) == 0xf0a5bd1d && Shift8(0xed000000) == 0xf464a0aa
    ensures Shift8(0xee000000) == 0xf9278673 && Shift8(0xef000000) == 0xfde69bc4
  {
  }

  lemma Row14()
    ensures Table(224) == ROW14[0] && Table(225) == ROW14[1] && Table(226) == ROW14[2] && Table(227) == ROW14[3]
    ensures Table(228) == ROW14[4] && Table(229) == ROW14[5] && Table(230) == ROW14[6] && Table(231) == ROW14[7]
    ensures Table(232) == ROW14[8] && Table(233) == ROW14[9] && Table(234) == ROW14[10] && Table(235) == ROW14[11]
    ensures Table(236) == ROW14[12] && Table(237) == ROW14[13] && Table(238) == ROW14[14] && Table(239) == ROW14[15]
  {
  }

  lemma Entry14(v: bv32)
    requires 224 <= v <= 239
    ensures v as nat < 256 && Table(v as nat) == Shift8(v << 24)
  {
    hide Shift8, Table;
    Shifted14();
    Row14();
    assert v == 224 || v == 225 || v == 226 || v == 227 || v == 228 || v == 229 || v == 230 || v == 231
           || v == 232 || v == 233 || v == 234 || v == 235 || v == 236 || v == 237 || v == 238 || v == 239;
  }

  lemma Shifted15()
    ensures Shift8(0xf0000000) == 0x89b8fd09 && Shift8(0xf1000000) == 0x8d79e0be
    ensures Shift8(0xf2000000) == 0x803ac667 && Shift8(0xf3000000) == 0x84fbdbd0
    ensures Shift8(0xf4000000) == 0x9abc8bd5 && Shift8(0xf5000000) == 0x9e7d9662
    ensures Shift8(0xf6000000) == 0x933eb0bb && Shift8(0xf7000000) == 0x97ffad0c
    ensures Shift8(0xf8000000) == 0xafb010b1 && Shift8(0xf9000000) == 0xab710d06
    ensures Shift8(0xfa000000) == 0xa6322bdf && Shift8(0xfb000000) == 0xa2f33668
    ensures Shift8(0xfc000000) == 0xbcb4666d && Shift8(0xfd000000) == 0xb8757bda
    ensures Shift8(0xfe000000) == 0xb5365d03 && Shift8(0xff000000) == 0xb1f740b4
  {
  }

  lemma Row15()
    ensures Table(240) == ROW15[0] && Table(241) == ROW15[1] && Table(242) == ROW15[2] && Table(243) == ROW15[3]
    ensures Table(244) == ROW15[4] && Table(245) == ROW15[5] && Table(246) == ROW15[6] && Table(247) == ROW15[7]
    ensures Table(248) == ROW15[8] && Table(249) == ROW15[9] && Table(250) == ROW15[10] && Table(251) == ROW15[11]
    ensures Table(252) == ROW15[12] && Table(253) == ROW15[13] && Table(254) == ROW15[14] && Table(255) == ROW15[15]
  {
  }

  lemma Entry15(v: bv32)
    requires 240 <= v <= 255
    ensures v as nat < 256 && Table(v as nat) == Shift8(v << 24)
  {
    hide Shift8, Table;
    Shifted15();
    Row15();
    assert v == 240 || v == 241 || v == 242 || v == 243 || v == 244 || v == 245 || v == 246 || v == 247
           || v == 248 || v == 249 || v == 250 || v == 251 || v == 252 || v == 253 || v == 254 || v == 255;
  }

  /** Every entry of the table is its index, moved to the top byte, divided eight steps further. */
  lemma TableIsDivision(v: bv32)
    requires v <= 255
    ensures v as nat < 256 && Table(v as nat) == Shift8(v << 24)
  {
    hide Table, Shift8;
    if v <= 15 { Entry0(v); }
    else if v <= 31 { Entry1(v); }
    else if v <= 47 { Entry2(v); }
    else if v <= 63 { Entry3(v); }
    else if v <= 79 { Entry4(v); }
    else if v <= 95 { Entry5(v); }
    else if v <= 111 { Entry6(v); }
    else if v <= 127 { Entry7(v); }
    else if v <= 143 { Entry8(v); }
    else if v <= 159 { Entry9(v); }
    else if v <= 175 { Entry10(v); }
    else if v <= 191 { Entry11(v); }
    else if v <= 207 { Entry12(v); }
    else if v <= 223 { Entry13(v); }
    else if v <= 239 { Entry14(v); }
    else { Entry15(v); }
  }
}
