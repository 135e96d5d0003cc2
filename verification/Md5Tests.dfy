/** The test suite of section A.5 of RFC 1321, computed step by step. */
module Md5Tests {
  import opened Bytes
  import opened Md5Spec
  import opened Md5
  import opened Md5Laws
  import opened Md5Schedule

  function Code(c: char): Byte {
    var v := c as int;
    if v < 256 then v else 0
  }

  function Ascii(s: string): (b: seq<Byte>)
    ensures |b| == |s|
  {
    seq(|s|, i requires 0 <= i < |s| => Code(s[i]))
  }

  const BLANKS: seq<Byte> := [0, 0, 0, 0, 0, 0, 0, 0, 0, 0, 0, 0, 0, 0, 0, 0]

  /** The words of a row of 16 bytes. */
  function RowWords(b: seq<Byte>): seq<Word>
    requires |b| == 16
  {
    [Word32(b[0..4]), Word32(b[4..8]), Word32(b[8..12]), Word32(b[12..16])]
  }

  lemma RowOfBlock(pre: seq<Byte>, row: seq<Byte>, post: seq<Byte>, r: nat)
    requires r < 4 && |row| == 16 && |pre| == 16 * r && |post| == 48 - 16 * r
    ensures WordsOf(pre + row + post)[4 * r..4 * r + 4] == RowWords(row)
  {
    hide Word32;
    var s := pre + row + post;
    forall j | 0 <= j < 4
      ensures WordsOf(s)[4 * r + j] == RowWords(row)[j]
    {
      assert s[4 * (4 * r + j)..4 * (4 * r + j) + 4] == row[4 * j..4 * j + 4];
      assert j == 0 || j == 1 || j == 2 || j == 3;
    }
  }

  lemma WordsOfRows(a: seq<Byte>, b: seq<Byte>, c: seq<Byte>, d: seq<Byte>)
    requires |a| == 16 && |b| == 16 && |c| == 16 && |d| == 16
    ensures WordsOf(a + b + c + d) == RowWords(a) + RowWords(b) + RowWords(c) + RowWords(d)
  {
    hide WordsOf, RowWords;
    var s := a + b + c + d;
    assert s == [] + a + (b + c + d) && s == a + b + (c + d) && s == a + b + c + d && s == (a + b + c) + d + [];
    RowOfBlock([], a, b + c + d, 0);
    RowOfBlock(a, b, c + d, 1);
    RowOfBlock(a + b, c, d, 2);
    RowOfBlock(a + b + c, d, [], 3);
    var x := WordsOf(s);
    assert x == x[0..4] + x[4..8] + x[8..12] + x[12..16];
  }

  lemma RowIs(b: seq<Byte>, w0: Word, w1: Word, w2: Word, w3: Word)
    requires |b| == 16 && Number(b[0..4]) == w0 as nat && Number(b[4..8]) == w1 as nat
    requires Number(b[8..12]) == w2 as nat && Number(b[12..16]) == w3 as nat
    ensures RowWords(b) == [w0, w1, w2, w3]
  {
    hide Number;
    WordRange(w0);
    WordRange(w1);
    WordRange(w2);
    WordRange(w3);
  }

  lemma BlankWords()
    ensures RowWords(BLANKS) == [0, 0, 0, 0]
  {
    hide RowWords;
    RowIs(BLANKS, 0, 0, 0, 0);
  }

  /** A register as the output shows it. */
  lemma Shown(w: Word, v: nat, b0: Byte, b1: Byte, b2: Byte, b3: Byte)
    requires w as nat == v && v % 256 == b0 && v / 256 % 256 == b1
    requires v / 256 / 256 % 256 == b2 && v / 256 / 256 / 256 % 256 == b3
    ensures LittleEndian(w as nat, 4) == [b0, b1, b2, b3]
  {
    hide LittleEndian;
    LittleEndian4(v);
  }

  /** The length field of a short message. */
  lemma LengthField(n: nat)
    requires n < 0x2000
    ensures LittleEndian(8 * n % 0x1_0000_0000_0000_0000, 8) == [8 * n % 256, 8 * n / 256, 0, 0, 0, 0, 0, 0]
  {
    hide LittleEndian;
    var v := 8 * n;
    assert v % 0x1_0000_0000_0000_0000 == v;
    LittleEndianSplit(v, 8);
    LittleEndian4(v);
    LittleEndian4(v / TWO32);
    assert v / TWO32 == 0 && v / 256 < 256;
    assert v / 256 / 256 == 0;
  }

  /** A short message with its padding, the zeros in between all that is left of a block. */
  lemma PadOf(msg: seq<Byte>, z: nat)
    requires |msg| < 0x2000 && z == ZeroFill(|msg|)
    ensures Pad(msg) == msg + [0x80] + Zeros(z) + [8 * |msg| % 256, 8 * |msg| / 256, 0, 0, 0, 0, 0, 0]
  {
    hide LittleEndian;
    LengthField(|msg|);
  }


  const EMPTY_ROW0: seq<Byte> := [128, 0, 0, 0, 0, 0, 0, 0, 0, 0, 0, 0, 0, 0, 0, 0]

  lemma EmptyRow0()
    ensures |EMPTY_ROW0| == 16
    ensures RowWords(EMPTY_ROW0) == [0x00000080, 0x00000000, 0x00000000, 0x00000000]
  {
    hide RowWords;
    RowIs(EMPTY_ROW0, 0x00000080, 0x00000000, 0x00000000, 0x00000000);
  }

  const EMPTY_TEXT: seq<Byte> := Ascii("")

  lemma EmptyText0()
    ensures Ascii("") == EMPTY_ROW0[..0]
  {
  }

  lemma EmptyPadding()
    ensures Pad(EMPTY_TEXT) ==
            EMPTY_ROW0 + BLANKS + BLANKS + BLANKS
  {
    hide Pad, Ascii, Zeros;
    assert |EMPTY_TEXT| == 0;
    EmptyText0();
    assert ZeroFill(0) == 55;
    PadOf(EMPTY_TEXT, 55);
    assert 0 % 256 == 0 && 0 / 256 == 0;
  }

  const EMPTY: seq<Word> := [
    0x00000080, 0x00000000, 0x00000000, 0x00000000, 0x00000000, 0x00000000, 0x00000000, 0x00000000,
    0x00000000, 0x00000000, 0x00000000, 0x00000000, 0x00000000, 0x00000000, 0x00000000, 0x00000000]

  lemma EmptyWords()
    ensures |EMPTY| == 16
    ensures EMPTY[0] == 0x00000080 && EMPTY[1] == 0x00000000 && EMPTY[2] == 0x00000000 && EMPTY[3] == 0x00000000
    ensures EMPTY[4] == 0x00000000 && EMPTY[5] == 0x00000000 && EMPTY[6] == 0x00000000 && EMPTY[7] == 0x00000000
    ensures EMPTY[8] == 0x00000000 && EMPTY[9] == 0x00000000 && EMPTY[10] == 0x00000000 && EMPTY[11] == 0x00000000
    ensures EMPTY[12] == 0x00000000 && EMPTY[13] == 0x00000000 && EMPTY[14] == 0x00000000 && EMPTY[15] == 0x00000000
  {
  }

  lemma EmptyHalf1()
    ensures Operations(INITIAL, EMPTY, 32) == Regs(0x13707036, 0xa2205f1f, 0x1c31c384, 0xae7813db)
  {
    hide Operations, EMPTY;
    EmptyWords();
    NoOperations(INITIAL, EMPTY);
    Pass0(INITIAL, EMPTY, 0x00000080, 0x00000000, 0x00000000, 0x00000000,
          0x67452301, 0xefcdab89, 0x98badcfe, 0x10325476,
          0xa5202774, 0x1b163203, 0xe7f06b23, 0xf59592dd);
    Pass1(INITIAL, EMPTY, 0x00000000, 0x00000000, 0x00000000, 0x00000000,
          0xa5202774, 0x1b163203, 0xe7f06b23, 0xf59592dd,
          0x32033344, 0x9bc13ce9, 0xf5b158db, 0x2f35d494);
    Pass2(INITIAL, EMPTY, 0x00000000, 0x00000000, 0x00000000, 0x00000000,
          0x32033344, 0x9bc13ce9, 0xf5b158db, 0x2f35d494,
          0x3893b991, 0x70768a29, 0xe1ef0576, 0xfce4a312);
    Pass3(INITIAL, EMPTY, 0x00000000, 0x00000000, 0x00000000, 0x00000000,
          0x3893b991, 0x70768a29, 0xe1ef0576, 0xfce4a312,
          0xf56c7cf1, 0xd6819c6a, 0x5aa53f75, 0x374943a7);
    Pass4(INITIAL, EMPTY, 0x00000000, 0x00000000, 0x00000000, 0x00000080,
          0xf56c7cf1, 0xd6819c6a, 0x5aa53f75, 0x374943a7,
          0x1c7d7513, 0xbd782e17, 0xc095f13a, 0x7bd57a3a);
    Pass5(INITIAL, EMPTY, 0x00000000, 0x00000000, 0x00000000, 0x00000000,
          0x1c7d7513, 0xbd782e17, 0xc095f13a, 0x7bd57a3a,
          0x3d1e3e6c, 0xe422531a, 0xeb41643e, 0x68b7b3e3);
    Pass6(INITIAL, EMPTY, 0x00000000, 0x00000000, 0x00000000, 0x00000000,
          0x3d1e3e6c, 0xe422531a, 0xeb41643e, 0x68b7b3e3,
          0x306ec122, 0xa0572807, 0xa3c663da, 0xd28c77c2);
    Pass7(INITIAL, EMPTY, 0x00000000, 0x00000000, 0x00000000, 0x00000000,
          0x306ec122, 0xa0572807, 0xa3c663da, 0xd28c77c2,
          0x13707036, 0xa2205f1f, 0x1c31c384, 0xae7813db);
  }

  lemma EmptyHalf2()
    ensures Operations(INITIAL, EMPTY, 64) == Regs(0x7246fad3, 0x14e45506, 0xff4ea3eb, 0x6e10a476)
  {
    hide Operations, EMPTY;
    EmptyWords();
    EmptyHalf1();
    Pass8(INITIAL, EMPTY, 0x00000000, 0x00000000, 0x00000000, 0x00000000,
          0x13707036, 0xa2205f1f, 0x1c31c384, 0xae7813db,
          0xdf63eaa1, 0x004b6669, 0x12f3e755, 0xc3689f5b);
    Pass9(INITIAL, EMPTY, 0x00000000, 0x00000000, 0x00000000, 0x00000000,
          0xdf63eaa1, 0x004b6669, 0x12f3e755, 0xc3689f5b,
          0x5f7a9b2e, 0xc5dc8c15, 0x91ca4cb7, 0xabc34e16);
    Pass10(INITIAL, EMPTY, 0x00000000, 0x00000080, 0x00000000, 0x00000000,
          0x5f7a9b2e, 0xc5dc8c15, 0x91ca4cb7, 0xabc34e16,
          0x4497169d, 0x0fe32453, 0xfd95f243, 0x76fd93d4);
    Pass11(INITIAL, EMPTY, 0x00000000, 0x00000000, 0x00000000, 0x00000000,
          0x4497169d, 0x0fe32453, 0xfd95f243, 0x76fd93d4,
          0x3f55edfd, 0xca7d2dbd, 0x68d84ea2, 0x22a31f54);
    Pass12(INITIAL, EMPTY, 0x00000080, 0x00000000, 0x00000000, 0x00000000,
          0x3f55edfd, 0xca7d2dbd, 0x68d84ea2, 0x22a31f54,
          0x93aa2577, 0x561e0689, 0xcd85b8cb, 0x1688dc85);
    Pass13(INITIAL, EMPTY, 0x00000000, 0x00000000, 0x00000000, 0x00000000,
          0x93aa2577, 0x561e0689, 0xcd85b8cb, 0x1688dc85,
          0x5625a114, 0x1e77fa61, 0x392ad0d0, 0x3450f42b);
    Pass14(INITIAL, EMPTY, 0x00000000, 0x00000000, 0x00000000, 0x00000000,
          0x5625a114, 0x1e77fa61, 0x392ad0d0, 0x3450f42b,
          0x474a9c8c, 0x30130182, 0x36594b14, 0xdfce00bc);
    Pass15(INITIAL, EMPTY, 0x00000000, 0x00000000, 0x00000000, 0x00000000,
          0x474a9c8c, 0x30130182, 0x36594b14, 0xdfce00bc,
          0x7246fad3, 0x14e45506, 0xff4ea3eb, 0x6e10a476);
  }

  lemma EmptyBlock()
    ensures Compress(INITIAL, EMPTY) == Regs(0xd98c1dd4, 0x04b2008f, 0x980980e9, 0x7e42f8ec)
  {
    hide Operations;
    EmptyHalf2();
  }

  lemma EmptyIsBlock()
    ensures |EMPTY_ROW0 + BLANKS + BLANKS + BLANKS| == 64
    ensures WordsOf(EMPTY_ROW0 + BLANKS + BLANKS + BLANKS) == EMPTY
  {
    hide WordsOf, RowWords, EMPTY_ROW0;
    BlankWords();
    EmptyRow0();
    WordsOfRows(EMPTY_ROW0, BLANKS, BLANKS, BLANKS);
  }

  lemma Empty()
    ensures Digest(EMPTY_TEXT)
         == [0xd4, 0x1d, 0x8c, 0xd9, 0x8f, 0x00, 0xb2, 0x04,
             0xe9, 0x80, 0x09, 0x98, 0xec, 0xf8, 0x42, 0x7e]
  {
    hide Blocks, Compress, WordsOf, Pad, LittleEndian, Ascii,
         BLANKS, EMPTY, EMPTY_ROW0;
    EmptyPadding();
    EmptyIsBlock();
    EmptyBlock();
    BlocksOne(INITIAL, EMPTY_ROW0 + BLANKS + BLANKS + BLANKS);
    Shown(0xd98c1dd4, 0xd98c1dd4, 0xd4, 0x1d, 0x8c, 0xd9);
    Shown(0x04b2008f, 0x04b2008f, 0x8f, 0x00, 0xb2, 0x04);
    Shown(0x980980e9, 0x980980e9, 0xe9, 0x80, 0x09, 0x98);
    Shown(0x7e42f8ec, 0x7e42f8ec, 0xec, 0xf8, 0x42, 0x7e);
  }

  const ONEA_ROW0: seq<Byte> := [97, 128, 0, 0, 0, 0, 0, 0, 0, 0, 0, 0, 0, 0, 0, 0]
  const ONEA_ROW3: seq<Byte> := [0, 0, 0, 0, 0, 0, 0, 0, 8, 0, 0, 0, 0, 0, 0, 0]

  lemma OneARow0()
    ensures |ONEA_ROW0| == 16
    ensures RowWords(ONEA_ROW0) == [0x00008061, 0x00000000, 0x00000000, 0x00000000]
  {
    hide RowWords;
    RowIs(ONEA_ROW0, 0x00008061, 0x00000000, 0x00000000, 0x00000000);
  }

  lemma OneARow3()
    ensures |ONEA_ROW3| == 16
    ensures RowWords(ONEA_ROW3) == [0x00000000, 0x00000000, 0x00000008, 0x00000000]
  {
    hide RowWords;
    RowIs(ONEA_ROW3, 0x00000000, 0x00000000, 0x00000008, 0x00000000);
  }

  const ONEA_TEXT: seq<Byte> := Ascii("a")

  lemma OneAText0()
    ensures Ascii("a") == ONEA_ROW0[..1]
  {
  }

  lemma OneAPadding()
    ensures Pad(ONEA_TEXT) ==
            ONEA_ROW0 + BLANKS + BLANKS + ONEA_ROW3
  {
    hide Pad, Ascii, Zeros;
    assert |ONEA_TEXT| == 1;
    OneAText0();
    assert ZeroFill(1) == 54;
    PadOf(ONEA_TEXT, 54);
    assert 8 % 256 == 8 && 8 / 256 == 0;
  }

  const ONEA: seq<Word> := [
    0x00008061, 0x00000000, 0x00000000, 0x00000000, 0x00000000, 0x00000000, 0x00000000, 0x00000000,
    0x00000000, 0x00000000, 0x00000000, 0x00000000, 0x00000000, 0x00000000, 0x00000008, 0x00000000]

  lemma OneAWords()
    ensures |ONEA| == 16
    ensures ONEA[0] == 0x00008061 && ONEA[1] == 0x00000000 && ONEA[2] == 0x00000000 && ONEA[3] == 0x00000000
    ensures ONEA[4] == 0x00000000 && ONEA[5] == 0x00000000 && ONEA[6] == 0x00000000 && ONEA[7] == 0x00000000
    ensures ONEA[8] == 0x00000000 && ONEA[9] == 0x00000000 && ONEA[10] == 0x00000000 && ONEA[11] == 0x00000000
    ensures ONEA[12] == 0x00000000 && ONEA[13] == 0x00000000 && ONEA[14] == 0x00000008 && ONEA[15] == 0x00000000
  {
  }

  lemma OneAHalf1()
    ensures Operations(INITIAL, ONEA, 32) == Regs(0x93842e98, 0x3745961f, 0x94a2ebee, 0xc7043b64)
  {
    hide Operations, ONEA;
    OneAWords();
    NoOperations(INITIAL, ONEA);
    Pass0(INITIAL, ONEA, 0x00008061, 0x00000000, 0x00000000, 0x00000000,
          0x67452301, 0xefcdab89, 0x98badcfe, 0x10325476,
          0xa56017f4, 0x607d9686, 0xe65857a7, 0xf2d58361);
    Pass1(INITIAL, ONEA, 0x00000000, 0x00000000, 0x00000000, 0x00000000,
          0xa56017f4, 0x607d9686, 0xe65857a7, 0xf2d58361,
          0x3a9d5bcc, 0xa8af6da5, 0xd31ddc83, 0xe0a07db7);
    Pass2(INITIAL, ONEA, 0x00000000, 0x00000000, 0x00000000, 0x00000000,
          0x3a9d5bcc, 0xa8af6da5, 0xd31ddc83, 0xe0a07db7,
          0xbe580957, 0x68493d6a, 0xf5fdd933, 0xf386bea6);
    Pass3(INITIAL, ONEA, 0x00000000, 0x00000000, 0x00000008, 0x00000000,
          0xbe580957, 0x68493d6a, 0xf5fdd933, 0xf386bea6,
          0x44244cf8, 0xf01e3ce2, 0x6360a45f, 0xd0fe9b27);
    Pass4(INITIAL, ONEA, 0x00000000, 0x00000000, 0x00000000, 0x00008061,
          0x44244cf8, 0xf01e3ce2, 0x6360a45f, 0xd0fe9b27,
          0x9c341767, 0x8d25cc66, 0xe39ffd23, 0x970ab3a9);
    Pass5(INITIAL, ONEA, 0x00000000, 0x00000000, 0x00000000, 0x00000000,
          0x9c341767, 0x8d25cc66, 0xe39ffd23, 0x970ab3a9,
          0x8c444930, 0x373beab0, 0x2dacb8a3, 0x7267097a);
    Pass6(INITIAL, ONEA, 0x00000000, 0x00000008, 0x00000000, 0x00000000,
          0x8c444930, 0x373beab0, 0x2dacb8a3, 0x7267097a,
          0xf175e3ad, 0xc8f891b4, 0x87b7f475, 0x9d5df67e);
    Pass7(INITIAL, ONEA, 0x00000000, 0x00000000, 0x00000000, 0x00000000,
          0xf175e3ad, 0xc8f891b4, 0x87b7f475, 0x9d5df67e,
          0x93842e98, 0x3745961f, 0x94a2ebee, 0xc7043b64);
  }

  lemma OneAHalf2()
    ensures Operations(INITIAL, ONEA, 64) == Regs(0x52309e0b, 0xb8e94637, 0x49dee633, 0x50f422f3)
  {
    hide Operations, ONEA;
    OneAWords();
    OneAHalf1();
    Pass8(INITIAL, ONEA, 0x00000000, 0x00000000, 0x00000000, 0x00000008,
          0x93842e98, 0x3745961f, 0x94a2ebee, 0xc7043b64,
          0xbd607d1e, 0xdaf7f308, 0xbf8b4f98, 0xa6f72085);
    Pass9(INITIAL, ONEA, 0x00000000, 0x00000000, 0x00000000, 0x00000000,
          0xbd607d1e, 0xdaf7f308, 0xbf8b4f98, 0xa6f72085,
          0x35a82a7a, 0xcf7e60db, 0x5abe099c, 0x89e0ec97);
    Pass10(INITIAL, ONEA, 0x00000000, 0x00008061, 0x00000000, 0x00000000,
          0x35a82a7a, 0xcf7e60db, 0x5abe099c, 0x89e0ec97,
          0x75c151e2, 0xcc6f5e9e, 0x0c0e6ac4, 0x942e0c86);
    Pass11(INITIAL, ONEA, 0x00000000, 0x00000000, 0x00000000, 0x00000000,
          0x75c151e2, 0xcc6f5e9e, 0x0c0e6ac4, 0x942e0c86,
          0x0ac50e18, 0x918f93bb, 0x8a4a6356, 0x79ca7845);
    Pass12(INITIAL, ONEA, 0x00008061, 0x00000000, 0x00000008, 0x00000000,
          0x0ac50e18, 0x918f93bb, 0x8a4a6356, 0x79ca7845,
          0xcab8fe42, 0x1ee405eb, 0x36269c3f, 0x6a4daeee);
    Pass13(INITIAL, ONEA, 0x00000000, 0x00000000, 0x00000000, 0x00000000,
          0xcab8fe42, 0x1ee405eb, 0x36269c3f, 0x6a4daeee,
          0x982c7861, 0x893501c0, 0x71fc7709, 0x6812a362);
    Pass14(INITIAL, ONEA, 0x00000000, 0x00000000, 0x00000000, 0x00000000,
          0x982c7861, 0x893501c0, 0x71fc7709, 0x6812a362,
          0xfebd62fd, 0xaa4d8ae3, 0x53e33526, 0x28936a74);
    Pass15(INITIAL, ONEA, 0x00000000, 0x00000000, 0x00000000, 0x00000000,
          0xfebd62fd, 0xaa4d8ae3, 0x53e33526, 0x28936a74,
          0x52309e0b, 0xb8e94637, 0x49dee633, 0x50f422f3);
  }

  lemma OneABlock()
    ensures Compress(INITIAL, ONEA) == Regs(0xb975c10c, 0xa8b6f1c0, 0xe299c331, 0x61267769)
  {
    hide Operations;
    OneAHalf2();
  }

  lemma OneAIsBlock()
    ensures |ONEA_ROW0 + BLANKS + BLANKS + ONEA_ROW3| == 64
    ensures WordsOf(ONEA_ROW0 + BLANKS + BLANKS + ONEA_ROW3) == ONEA
  {
    hide WordsOf, RowWords, ONEA_ROW0, ONEA_ROW3;
    BlankWords();
    OneARow0();
    OneARow3();
    WordsOfRows(ONEA_ROW0, BLANKS, BLANKS, ONEA_ROW3);
  }

  lemma OneA()
    ensures Digest(ONEA_TEXT)
         == [0x0c, 0xc1, 0x75, 0xb9, 0xc0, 0xf1, 0xb6, 0xa8,
             0x31, 0xc3, 0x99, 0xe2, 0x69, 0x77, 0x26, 0x61]
  {
    hide Blocks, Compress, WordsOf, Pad, LittleEndian, Ascii,
         BLANKS, ONEA, ONEA_ROW0, ONEA_ROW3;
    OneAPadding();
    OneAIsBlock();
    OneABlock();
    BlocksOne(INITIAL, ONEA_ROW0 + BLANKS + BLANKS + ONEA_ROW3);
    Shown(0xb975c10c, 0xb975c10c, 0x0c, 0xc1, 0x75, 0xb9);
    Shown(0xa8b6f1c0, 0xa8b6f1c0, 0xc0, 0xf1, 0xb6, 0xa8);
    Shown(0xe299c331, 0xe299c331, 0x31, 0xc3, 0x99, 0xe2);
    Shown(0x61267769, 0x61267769, 0x69, 0x77, 0x26, 0x61);
  }

  const ABC_ROW0: seq<Byte> := [97, 98, 99, 128, 0, 0, 0, 0, 0, 0, 0, 0, 0, 0, 0, 0]
  const ABC_ROW3: seq<Byte> := [0, 0, 0, 0, 0, 0, 0, 0, 24, 0, 0, 0, 0, 0, 0, 0]

  lemma AbcRow0()
    ensures |ABC_ROW0| == 16
    ensures RowWords(ABC_ROW0) == [0x80636261, 0x00000000, 0x00000000, 0x00000000]
  {
    hide RowWords;
    RowIs(ABC_ROW0, 0x80636261, 0x00000000, 0x00000000, 0x00000000);
  }

  lemma AbcRow3()
    ensures |ABC_ROW3| == 16
    ensures RowWords(ABC_ROW3) == [0x00000000, 0x00000000, 0x00000018, 0x00000000]
  {
    hide RowWords;
    RowIs(ABC_ROW3, 0x00000000, 0x00000000, 0x00000018, 0x00000000);
  }

  const ABC_TEXT: seq<Byte> := Ascii("abc")

  lemma AbcText0()
    ensures Ascii("abc") == ABC_ROW0[..3]
  {
  }

  lemma AbcPadding()
    ensures Pad(ABC_TEXT) ==
            ABC_ROW0 + BLANKS + BLANKS + ABC_ROW3
  {
    hide Pad, Ascii, Zeros;
    assert |ABC_TEXT| == 3;
    AbcText0();
    assert ZeroFill(3) == 52;
    PadOf(ABC_TEXT, 52);
    assert 24 % 256 == 24 && 24 / 256 == 0;
  }

  const ABC: seq<Word> := [
    0x80636261, 0x00000000, 0x00000000, 0x00000000, 0x00000000, 0x00000000, 0x00000000, 0x00000000,
    0x00000000, 0x00000000, 0x00000000, 0x00000000, 0x00000000, 0x00000000, 0x00000018, 0x00000000]

  lemma AbcWords()
    ensures |ABC| == 16
    ensures ABC[0] == 0x80636261 && ABC[1] == 0x00000000 && ABC[2] == 0x00000000 && ABC[3] == 0x00000000
    ensures ABC[4] == 0x00000000 && ABC[5] == 0x00000000 && ABC[6] == 0x00000000 && ABC[7] == 0x00000000
    ensures ABC[8] == 0x00000000 && ABC[9] == 0x00000000 && ABC[10] == 0x00000000 && ABC[11] == 0x00000000
    ensures ABC[12] == 0x00000000 && ABC[13] == 0x00000000 && ABC[14] == 0x00000018 && ABC[15] == 0x00000000
  {
  }

  lemma AbcHalf1()
    ensures Operations(INITIAL, ABC, 32) == Regs(0x790a77fb, 0x726342d3, 0xa62884aa, 0x9f47e4f8)
  {
    hide Operations, ABC;
    AbcWords();
    NoOperations(INITIAL, ABC);
    Pass0(INITIAL, ABC, 0x80636261, 0x00000000, 0x00000000, 0x00000000,
          0x67452301, 0xefcdab89, 0x98badcfe, 0x10325476,
          0xd6d117b4, 0x7ad956f2, 0x2f6fbd72, 0x344a8432);
    Pass1(INITIAL, ABC, 0x00000000, 0x00000000, 0x00000000, 0x00000000,
          0xd6d117b4, 0x7ad956f2, 0x2f6fbd72, 0x344a8432,
          0xc73741ef, 0x928d99f6, 0x207dc67b, 0x8bac3051);
    Pass2(INITIAL, ABC, 0x00000000, 0x00000000, 0x00000000, 0x00000000,
          0xc73741ef, 0x928d99f6, 0x207dc67b, 0x8bac3051,
          0x854b3712, 0x5ed49596, 0x3020401c, 0x74e2f284);
    Pass3(INITIAL, ABC, 0x00000000, 0x00000000, 0x00000018, 0x00000000,
          0x854b3712, 0x5ed49596, 0x3020401c, 0x74e2f284,
          0xdda9b9a6, 0x72aff2e0, 0xe396856b, 0xa1051895);
    Pass4(INITIAL, ABC, 0x00000000, 0x00000000, 0x00000000, 0x80636261,
          0xdda9b9a6, 0x72aff2e0, 0xe396856b, 0xa1051895,
          0x3e9e9126, 0xb5b204e4, 0xe25e1652, 0x4a1d804e);
    Pass5(INITIAL, ABC, 0x00000000, 0x00000000, 0x00000000, 0x00000000,
          0x3e9e9126, 0xb5b204e4, 0xe25e1652, 0x4a1d804e,
          0x59a8ffda, 0x47092c07, 0xabfc7920, 0x6d002f1e);
    Pass6(INITIAL, ABC, 0x00000000, 0x00000018, 0x00000000, 0x00000000,
          0x59a8ffda, 0x47092c07, 0xabfc7920, 0x6d002f1e,
          0xb7f268cf, 0x786acb8f, 0xfe1623b1, 0x09388eff);
    Pass7(INITIAL, ABC, 0x00000000, 0x00000000, 0x00000000, 0x00000000,
          0xb7f268cf, 0x786acb8f, 0xfe1623b1, 0x09388eff,
          0x790a77fb, 0x726342d3, 0xa62884aa, 0x9f47e4f8);
  }

  lemma AbcHalf2()
    ensures Operations(INITIAL, ABC, 64) == Regs(0x310ade8f, 0xc08226b3, 0xe484b9d8, 0x624d8cb2)
  {
    hide Operations, ABC;
    AbcWords();
    AbcHalf1();
    Pass8(INITIAL, ABC, 0x00000000, 0x00000000, 0x00000000, 0x00000018,
          0x790a77fb, 0x726342d3, 0xa62884aa, 0x9f47e4f8,
          0xb3707ebf, 0x3b0875c7, 0x8d212ff5, 0x60127b2e);
    Pass9(INITIAL, ABC, 0x00000000, 0x00000000, 0x00000000, 0x00000000,
          0xb3707ebf, 0x3b0875c7, 0x8d212ff5, 0x60127b2e,
          0x21b117b9, 0x5a2f5ea5, 0x3575227e, 0x6e7429d5);
    Pass10(INITIAL, ABC, 0x00000000, 0x80636261, 0x00000000, 0x00000000,
          0x21b117b9, 0x5a2f5ea5, 0x3575227e, 0x6e7429d5,
          0x11de1779, 0x4c6124f4, 0x31c465ca, 0xfadcaa38);
    Pass11(INITIAL, ABC, 0x00000000, 0x00000000, 0x00000000, 0x00000000,
          0x11de1779, 0x4c6124f4, 0x31c465ca, 0xfadcaa38,
          0x7f2e507b, 0x7beb9700, 0x8fae6399, 0x99d9679d);
    Pass12(INITIAL, ABC, 0x80636261, 0x00000000, 0x00000018, 0x00000000,
          0x7f2e507b, 0x7beb9700, 0x8fae6399, 0x99d9679d,
          0x7b201df8, 0x8bf025c4, 0xb298cefd, 0xf4e8e96e);
    Pass13(INITIAL, ABC, 0x00000000, 0x00000000, 0x00000000, 0x00000000,
          0x7b201df8, 0x8bf025c4, 0xb298cefd, 0xf4e8e96e,
          0x06cc5e8a, 0x3bfa2c27, 0x7d632dd0, 0x5b0d97aa);
    Pass14(INITIAL, ABC, 0x00000000, 0x00000000, 0x00000000, 0x00000000,
          0x06cc5e8a, 0x3bfa2c27, 0x7d632dd0, 0x5b0d97aa,
          0x7f81cc35, 0x7327d604, 0x4f9dbe3f, 0x094454ab);
    Pass15(INITIAL, ABC, 0x00000000, 0x00000000, 0x00000000, 0x00000000,
          0x7f81cc35, 0x7327d604, 0x4f9dbe3f, 0x094454ab,
          0x310ade8f, 0xc08226b3, 0xe484b9d8, 0x624d8cb2);
  }

  lemma AbcBlock()
    ensures Compress(INITIAL, ABC) == Regs(0x98500190, 0xb04fd23c, 0x7d3f96d6, 0x727fe128)
  {
    hide Operations;
    AbcHalf2();
  }

  lemma AbcIsBlock()
    ensures |ABC_ROW0 + BLANKS + BLANKS + ABC_ROW3| == 64
    ensures WordsOf(ABC_ROW0 + BLANKS + BLANKS + ABC_ROW3) == ABC
  {
    hide WordsOf, RowWords, ABC_ROW0, ABC_ROW3;
    BlankWords();
    AbcRow0();
    AbcRow3();
    WordsOfRows(ABC_ROW0, BLANKS, BLANKS, ABC_ROW3);
  }

  lemma Abc()
    ensures Digest(ABC_TEXT)
         == [0x90, 0x01, 0x50, 0x98, 0x3c, 0xd2, 0x4f, 0xb0,
             0xd6, 0x96, 0x3f, 0x7d, 0x28, 0xe1, 0x7f, 0x72]
  {
    hide Blocks, Compress, WordsOf, Pad, LittleEndian, Ascii,
         ABC, ABC_ROW0, ABC_ROW3, BLANKS;
    AbcPadding();
    AbcIsBlock();
    AbcBlock();
    BlocksOne(INITIAL, ABC_ROW0 + BLANKS + BLANKS + ABC_ROW3);
    Shown(0x98500190, 0x98500190, 0x90, 0x01, 0x50, 0x98);
    Shown(0xb04fd23c, 0xb04fd23c, 0x3c, 0xd2, 0x4f, 0xb0);
    Shown(0x7d3f96d6, 0x7d3f96d6, 0xd6, 0x96, 0x3f, 0x7d);
    Shown(0x727fe128, 0x727fe128, 0x28, 0xe1, 0x7f, 0x72);
  }

  const MESSAGE_ROW0: seq<Byte> := [109, 101, 115, 115, 97, 103, 101, 32, 100, 105, 103, 101, 115, 116, 128, 0]
  const MESSAGE_ROW3: seq<Byte> := [0, 0, 0, 0, 0, 0, 0, 0, 112, 0, 0, 0, 0, 0, 0, 0]

  lemma MessageRow0()
    ensures |MESSAGE_ROW0| == 16
    ensures RowWords(MESSAGE_ROW0) == [0x7373656d, 0x20656761, 0x65676964, 0x00807473]
  {
    hide RowWords;
    RowIs(MESSAGE_ROW0, 0x7373656d, 0x20656761, 0x65676964, 0x00807473);
  }

  lemma MessageRow3()
    ensures |MESSAGE_ROW3| == 16
    ensures RowWords(MESSAGE_ROW3) == [0x00000000, 0x00000000, 0x00000070, 0x00000000]
  {
    hide RowWords;
    RowIs(MESSAGE_ROW3, 0x00000000, 0x00000000, 0x00000070, 0x00000000);
  }

  const MESSAGE_TEXT: seq<Byte> := Ascii("message digest")

  lemma MessageText0()
    ensures Ascii("message digest") == MESSAGE_ROW0[..14]
  {
  }

  lemma MessagePadding()
    ensures Pad(MESSAGE_TEXT) ==
            MESSAGE_ROW0 + BLANKS + BLANKS + MESSAGE_ROW3
  {
    hide Pad, Ascii, Zeros;
    assert |MESSAGE_TEXT| == 14;
    MessageText0();
    assert ZeroFill(14) == 41;
    PadOf(MESSAGE_TEXT, 41);
    assert 112 % 256 == 112 && 112 / 256 == 0;
  }

  const MESSAGE: seq<Word> := [
    0x7373656d, 0x20656761, 0x65676964, 0x00807473, 0x00000000, 0x00000000, 0x00000000, 0x00000000,
    0x00000000, 0x00000000, 0x00000000, 0x00000000, 0x00000000, 0x00000000, 0x00000070, 0x00000000]

  lemma MessageWords()
    ensures |MESSAGE| == 16
    ensures MESSAGE[0] == 0x7373656d && MESSAGE[1] == 0x20656761
    ensures MESSAGE[2] == 0x65676964 && MESSAGE[3] == 0x00807473
    ensures MESSAGE[4] == 0x00000000 && MESSAGE[5] == 0x00000000
    ensures MESSAGE[6] == 0x00000000 && MESSAGE[7] == 0x00000000
    ensures MESSAGE[8] == 0x00000000 && MESSAGE[9] == 0x00000000
    ensures MESSAGE[10] == 0x00000000 && MESSAGE[11] == 0x00000000
    ensures MESSAGE[12] == 0x00000000 && MESSAGE[13] == 0x00000000
    ensures MESSAGE[14] == 0x00000070 && MESSAGE[15] == 0x00000000
  {
  }

  lemma MessageHalf1()
    ensures Operations(INITIAL, MESSAGE, 32) == Regs(0xc64f6e00, 0x29209d1f, 0x99ccfca3, 0x4e341514)
  {
    hide Operations, MESSAGE;
    MessageWords();
    NoOperations(INITIAL, MESSAGE);
    Pass0(INITIAL, MESSAGE, 0x7373656d, 0x20656761, 0x65676964, 0x00807473,
          0x67452301, 0xefcdab89, 0x98badcfe, 0x10325476,
          0x5ed29dae, 0xb9940c11, 0x9073e056, 0xe2a2fc32);
    Pass1(INITIAL, MESSAGE, 0x00000000, 0x00000000, 0x00000000, 0x00000000,
          0x5ed29dae, 0xb9940c11, 0x9073e056, 0xe2a2fc32,
          0xfa62d3a4, 0xc63616cd, 0xa089a530, 0xb88dc1c7);
    Pass2(INITIAL, MESSAGE, 0x00000000, 0x00000000, 0x00000000, 0x00000000,
          0xfa62d3a4, 0xc63616cd, 0xa089a530, 0xb88dc1c7,
          0xfcced5db, 0x5ff4a4e8, 0x4731c077, 0x9bb4c658);
    Pass3(INITIAL, MESSAGE, 0x00000000, 0x00000000, 0x00000070, 0x00000000,
          0xfcced5db, 0x5ff4a4e8, 0x4731c077, 0x9bb4c658,
          0x27c95b7f, 0xb760921a, 0x872d34d8, 0x034e9992);
    Pass4(INITIAL, MESSAGE, 0x20656761, 0x00000000, 0x00000000, 0x7373656d,
          0x27c95b7f, 0xb760921a, 0x872d34d8, 0x034e9992,
          0x6d3425b2, 0xf615fbe5, 0x62cdb24b, 0x551aefa3);
    Pass5(INITIAL, MESSAGE, 0x00000000, 0x00000000, 0x00000000, 0x00000000,
          0x6d3425b2, 0xf615fbe5, 0x62cdb24b, 0x551aefa3,
          0x3d3c3afc, 0xe7f48f59, 0x99351d3c, 0x343bff12);
    Pass6(INITIAL, MESSAGE, 0x00000000, 0x00000070, 0x00807473, 0x00000000,
          0x3d3c3afc, 0xe7f48f59, 0x99351d3c, 0x343bff12,
          0x7247931a, 0x2460ff57, 0x709f1676, 0xe37cf5f6);
    Pass7(INITIAL, MESSAGE, 0x00000000, 0x65676964, 0x00000000, 0x00000000,
          0x7247931a, 0x2460ff57, 0x709f1676, 0xe37cf5f6,
          0xc64f6e00, 0x29209d1f, 0x99ccfca3, 0x4e341514);
  }

  lemma MessageHalf2()
    ensures Operations(INITIAL, MESSAGE, 64) == Regs(0x162448f8, 0x9dc60bf3, 0x98747d54, 0xc02f9d34)
  {
    hide Operations, MESSAGE;
    MessageWords();
    MessageHalf1();
    Pass8(INITIAL, MESSAGE, 0x00000000, 0x00000000, 0x00000000, 0x00000070,
          0xc64f6e00, 0x29209d1f, 0x99ccfca3, 0x4e341514,
          0x7b425bcb, 0x77401eff, 0x8139174f, 0x1d72c0d5);
    Pass9(INITIAL, MESSAGE, 0x20656761, 0x00000000, 0x00000000, 0x00000000,
          0x7b425bcb, 0x77401eff, 0x8139174f, 0x1d72c0d5,
          0x2e678c51, 0x1eaad7f9, 0x26bbf48d, 0xaf1a865c);
    Pass10(INITIAL, MESSAGE, 0x00000000, 0x7373656d, 0x00807473, 0x00000000,
          0x2e678c51, 0x1eaad7f9, 0x26bbf48d, 0xaf1a865c,
          0xff95dbf7, 0x49bd582a, 0x580f8d8e, 0x9ff8129c);
    Pass11(INITIAL, MESSAGE, 0x00000000, 0x00000000, 0x00000000, 0x65676964,
          0xff95dbf7, 0x49bd582a, 0x580f8d8e, 0x9ff8129c,
          0xc5148eb0, 0x8f920a7f, 0x8ee8cb35, 0x9551398b);
    Pass12(INITIAL, MESSAGE, 0x7373656d, 0x00000000, 0x00000070, 0x00000000,
          0xc5148eb0, 0x8f920a7f, 0x8ee8cb35, 0x9551398b,
          0x1158f562, 0xed9ac5d4, 0x3250a790, 0x3a3bd4bf);
    Pass13(INITIAL, MESSAGE, 0x00000000, 0x00807473, 0x00000000, 0x20656761,
          0x1158f562, 0xed9ac5d4, 0x3250a790, 0x3a3bd4bf,
          0x7e40a029, 0xc004fc5d, 0x555e3d90, 0x778e9f99);
    Pass14(INITIAL, MESSAGE, 0x00000000, 0x00000000, 0x00000000, 0x00000000,
          0x7e40a029, 0xc004fc5d, 0x555e3d90, 0x778e9f99,
          0x853d163f, 0x671dc236, 0x61367f65, 0x57ff85d4);
    Pass15(INITIAL, MESSAGE, 0x00000000, 0x00000000, 0x65676964, 0x00000000,
          0x853d163f, 0x671dc236, 0x61367f65, 0x57ff85d4,
          0x162448f8, 0x9dc60bf3, 0x98747d54, 0xc02f9d34);
  }

  lemma MessageBlock()
    ensures Compress(INITIAL, MESSAGE) == Regs(0x7d696bf9, 0x8d93b77c, 0x312f5a52, 0xd061f1aa)
  {
    hide Operations;
    MessageHalf2();
  }

  lemma MessageIsBlock()
    ensures |MESSAGE_ROW0 + BLANKS + BLANKS + MESSAGE_ROW3| == 64
    ensures WordsOf(MESSAGE_ROW0 + BLANKS + BLANKS + MESSAGE_ROW3) == MESSAGE
  {
    hide WordsOf, RowWords, MESSAGE_ROW0, MESSAGE_ROW3;
    BlankWords();
    MessageRow0();
    MessageRow3();
    WordsOfRows(MESSAGE_ROW0, BLANKS, BLANKS, MESSAGE_ROW3);
  }

  lemma Message()
    ensures Digest(MESSAGE_TEXT)
         == [0xf9, 0x6b, 0x69, 0x7d, 0x7c, 0xb7, 0x93, 0x8d,
             0x52, 0x5a, 0x2f, 0x31, 0xaa, 0xf1, 0x61, 0xd0]
  {
    hide Blocks, Compress, WordsOf, Pad, LittleEndian, Ascii,
         BLANKS, MESSAGE, MESSAGE_ROW0, MESSAGE_ROW3;
    MessagePadding();
    MessageIsBlock();
    MessageBlock();
    BlocksOne(INITIAL, MESSAGE_ROW0 + BLANKS + BLANKS + MESSAGE_ROW3);
    Shown(0x7d696bf9, 0x7d696bf9, 0xf9, 0x6b, 0x69, 0x7d);
    Shown(0x8d93b77c, 0x8d93b77c, 0x7c, 0xb7, 0x93, 0x8d);
    Shown(0x312f5a52, 0x312f5a52, 0x52, 0x5a, 0x2f, 0x31);
    Shown(0xd061f1aa, 0xd061f1aa, 0xaa, 0xf1, 0x61, 0xd0);
  }

  const LOWER_ROW0: seq<Byte> := [97, 98, 99, 100, 101, 102, 103, 104, 105, 106, 107, 108, 109, 110, 111, 112]
  const LOWER_ROW1: seq<Byte> := [113, 114, 115, 116, 117, 118, 119, 120, 121, 122, 128, 0, 0, 0, 0, 0]
  const LOWER_ROW3: seq<Byte> := [0, 0, 0, 0, 0, 0, 0, 0, 208, 0, 0, 0, 0, 0, 0, 0]

  lemma LowerRow0()
    ensures |LOWER_ROW0| == 16
    ensures RowWords(LOWER_ROW0) == [0x64636261, 0x68676665, 0x6c6b6a69, 0x706f6e6d]
  {
    hide RowWords;
    RowIs(LOWER_ROW0, 0x64636261, 0x68676665, 0x6c6b6a69, 0x706f6e6d);
  }

  lemma LowerRow1()
    ensures |LOWER_ROW1| == 16
    ensures RowWords(LOWER_ROW1) == [0x74737271, 0x78777675, 0x00807a79, 0x00000000]
  {
    hide RowWords;
    RowIs(LOWER_ROW1, 0x74737271, 0x78777675, 0x00807a79, 0x00000000);
  }

  lemma LowerRow3()
    ensures |LOWER_ROW3| == 16
    ensures RowWords(LOWER_ROW3) == [0x00000000, 0x00000000, 0x000000d0, 0x00000000]
  {
    hide RowWords;
    RowIs(LOWER_ROW3, 0x00000000, 0x00000000, 0x000000d0, 0x00000000);
  }

  const LOWER_TEXT: seq<Byte> := 
    Ascii("abcdefghijklmnop") + Ascii("qrstuvwxyz")

  lemma LowerText0()
    ensures Ascii("abcdefghijklmnop") == LOWER_ROW0
  {
  }

  lemma LowerText1()
    ensures Ascii("qrstuvwxyz") == LOWER_ROW1[..10]
  {
  }

  lemma LowerPadding()
    ensures Pad(LOWER_TEXT) ==
            LOWER_ROW0 + LOWER_ROW1 + BLANKS + LOWER_ROW3
  {
    hide Pad, Ascii, Zeros;
    assert |LOWER_TEXT| == 26;
    LowerText0();
    LowerText1();
    assert ZeroFill(26) == 29;
    PadOf(LOWER_TEXT, 29);
    assert 208 % 256 == 208 && 208 / 256 == 0;
  }

  const LOWER: seq<Word> := [
    0x64636261, 0x68676665, 0x6c6b6a69, 0x706f6e6d, 0x74737271, 0x78777675, 0x00807a79, 0x00000000,
    0x00000000, 0x00000000, 0x00000000, 0x00000000, 0x00000000, 0x00000000, 0x000000d0, 0x00000000]

  lemma LowerWords()
    ensures |LOWER| == 16
    ensures LOWER[0] == 0x64636261 && LOWER[1] == 0x68676665 && LOWER[2] == 0x6c6b6a69 && LOWER[3] == 0x706f6e6d
    ensures LOWER[4] == 0x74737271 && LOWER[5] == 0x78777675 && LOWER[6] == 0x00807a79 && LOWER[7] == 0x00000000
    ensures LOWER[8] == 0x00000000 && LOWER[9] == 0x00000000 && LOWER[10] == 0x00000000 && LOWER[11] == 0x00000000
    ensures LOWER[12] == 0x00000000 && LOWER[13] == 0x00000000 && LOWER[14] == 0x000000d0 && LOWER[15] == 0x00000000
  {
  }

  lemma LowerHalf1()
    ensures Operations(INITIAL, LOWER, 32) == Regs(0xf54d8710, 0xaeb35766, 0x2e69afc7, 0x927b72e2)
  {
    hide Operations, LOWER;
    LowerWords();
    NoOperations(INITIAL, LOWER);
    Pass0(INITIAL, LOWER, 0x64636261, 0x68676665, 0x6c6b6a69, 0x706f6e6d,
          0x67452301, 0xefcdab89, 0x98badcfe, 0x10325476,
          0xd6d117a6, 0x4503b812, 0x227d8cf1, 0xaab1aaaa);
    Pass1(INITIAL, LOWER, 0x74737271, 0x78777675, 0x00807a79, 0x00000000,
          0xd6d117a6, 0x4503b812, 0x227d8cf1, 0xaab1aaaa,
          0xfe15f787, 0xda9bbb0d, 0xb71122fc, 0xa811b278);
    Pass2(INITIAL, LOWER, 0x00000000, 0x00000000, 0x00000000, 0x00000000,
          0xfe15f787, 0xda9bbb0d, 0xb71122fc, 0xa811b278,
          0xae752899, 0x56cfa5cb, 0x7d4bd80b, 0x2bbe757f);
    Pass3(INITIAL, LOWER, 0x00000000, 0x00000000, 0x000000d0, 0x00000000,
          0xae752899, 0x56cfa5cb, 0x7d4bd80b, 0x2bbe757f,
          0x1754a316, 0x608d6b7e, 0x00df74d5, 0x85567d90);
    Pass4(INITIAL, LOWER, 0x68676665, 0x00807a79, 0x00000000, 0x64636261,
          0x1754a316, 0x608d6b7e, 0x00df74d5, 0x85567d90,
          0x2d8071cc, 0x4c2145b3, 0xedfe7e4b, 0x5dcee119);
    Pass5(INITIAL, LOWER, 0x78777675, 0x00000000, 0x00000000, 0x74737271,
          0x2d8071cc, 0x4c2145b3, 0xedfe7e4b, 0x5dcee119,
          0x570c43e0, 0xc9f162d4, 0xc28ab49d, 0x977efd2a);
    Pass6(INITIAL, LOWER, 0x00000000, 0x000000d0, 0x706f6e6d, 0x00000000,
          0x570c43e0, 0xc9f162d4, 0xc28ab49d, 0x977efd2a,
          0x25bfae3b, 0xe6d3b398, 0xf8c8365f, 0x89980104);
    Pass7(INITIAL, LOWER, 0x00000000, 0x6c6b6a69, 0x00000000, 0x00000000,
          0x25bfae3b, 0xe6d3b398, 0xf8c8365f, 0x89980104,
          0xf54d8710, 0xaeb35766, 0x2e69afc7, 0x927b72e2);
  }

  lemma LowerHalf2()
    ensures Operations(INITIAL, LOWER, 64) == Regs(0x708ed9c2, 0x1116e6d8, 0xd38f1e7f, 0x2baf1354)
  {
    hide Operations, LOWER;
    LowerWords();
    LowerHalf1();
    Pass8(INITIAL, LOWER, 0x78777675, 0x00000000, 0x00000000, 0x000000d0,
          0xf54d8710, 0xaeb35766, 0x2e69afc7, 0x927b72e2,
          0xb4bf680e, 0x06a5e211, 0x2361ed0a, 0x4c8ffa80);
    Pass9(INITIAL, LOWER, 0x68676665, 0x74737271, 0x00000000, 0x00000000,
          0xb4bf680e, 0x06a5e211, 0x2361ed0a, 0x4c8ffa80,
          0xb9c0c733, 0x8d41bf99, 0x23a9451b, 0xf1e6dc7a);
    Pass10(INITIAL, LOWER, 0x00000000, 0x64636261, 0x706f6e6d, 0x00807a79,
          0xb9c0c733, 0x8d41bf99, 0x23a9451b, 0xf1e6dc7a,
          0xa3e88ead, 0x90a35af5, 0x66f6468d, 0x02c0b11c);
    Pass11(INITIAL, LOWER, 0x00000000, 0x00000000, 0x00000000, 0x6c6b6a69,
          0xa3e88ead, 0x90a35af5, 0x66f6468d, 0x02c0b11c,
          0xb5d41f9c, 0x71d10367, 0x703d54d8, 0xa04b4904);
    Pass12(INITIAL, LOWER, 0x64636261, 0x00000000, 0x000000d0, 0x78777675,
          0xb5d41f9c, 0x71d10367, 0x703d54d8, 0xa04b4904,
          0xfc32dd6e, 0x33edb197, 0xb35602cb, 0x65456b34);
    Pass13(INITIAL, LOWER, 0x00000000, 0x706f6e6d, 0x00000000, 0x68676665,
          0xfc32dd6e, 0x33edb197, 0xb35602cb, 0x65456b34,
          0xc1e942f1, 0x83877d1b, 0x23a68048, 0xd9bb987c);
    Pass14(INITIAL, LOWER, 0x00000000, 0x00000000, 0x00807a79, 0x00000000,
          0xc1e942f1, 0x83877d1b, 0x23a68048, 0xd9bb987c,
          0x0077c208, 0x5e6bc930, 0xa3e2247f, 0x847fc2e7);
    Pass15(INITIAL, LOWER, 0x74737271, 0x00000000, 0x6c6b6a69, 0x00000000,
          0x0077c208, 0x5e6bc930, 0xa3e2247f, 0x847fc2e7,
          0x708ed9c2, 0x1116e6d8, 0xd38f1e7f, 0x2baf1354);
  }

  lemma LowerBlock()
    ensures Compress(INITIAL, LOWER) == Regs(0xd7d3fcc3, 0x00e49261, 0x6c49fb7d, 0x3be167ca)
  {
    hide Operations;
    LowerHalf2();
  }

  lemma LowerIsBlock()
    ensures |LOWER_ROW0 + LOWER_ROW1 + BLANKS + LOWER_ROW3| == 64
    ensures WordsOf(LOWER_ROW0 + LOWER_ROW1 + BLANKS + LOWER_ROW3) == LOWER
  {
    hide WordsOf, RowWords, LOWER_ROW0, LOWER_ROW1, LOWER_ROW3;
    BlankWords();
    LowerRow0();
    LowerRow1();
    LowerRow3();
    WordsOfRows(LOWER_ROW0, LOWER_ROW1, BLANKS, LOWER_ROW3);
  }

  lemma Lower()
    ensures Digest(LOWER_TEXT)
         == [0xc3, 0xfc, 0xd3, 0xd7, 0x61, 0x92, 0xe4, 0x00,
             0x7d, 0xfb, 0x49, 0x6c, 0xca, 0x67, 0xe1, 0x3b]
  {
    hide Blocks, Compress, WordsOf, Pad, LittleEndian, Ascii,
         BLANKS, LOWER, LOWER_ROW0, LOWER_ROW1, LOWER_ROW3;
    LowerPadding();
    LowerIsBlock();
    LowerBlock();
    BlocksOne(INITIAL, LOWER_ROW0 + LOWER_ROW1 + BLANKS + LOWER_ROW3);
    Shown(0xd7d3fcc3, 0xd7d3fcc3, 0xc3, 0xfc, 0xd3, 0xd7);
    Shown(0x00e49261, 0x00e49261, 0x61, 0x92, 0xe4, 0x00);
    Shown(0x6c49fb7d, 0x6c49fb7d, 0x7d, 0xfb, 0x49, 0x6c);
    Shown(0x3be167ca, 0x3be167ca, 0xca, 0x67, 0xe1, 0x3b);
  }

  const ALNUM_ROW0: seq<Byte> := [65, 66, 67, 68, 69, 70, 71, 72, 73, 74, 75, 76, 77, 78, 79, 80]
  const ALNUM_ROW1: seq<Byte> := [81, 82, 83, 84, 85, 86, 87, 88, 89, 90, 97, 98, 99, 100, 101, 102]
  const ALNUM_ROW2: seq<Byte> := [103, 104, 105, 106, 107, 108, 109, 110, 111, 112, 113, 114, 115, 116, 117, 118]
  const ALNUM_ROW3: seq<Byte> := [119, 120, 121, 122, 48, 49, 50, 51, 52, 53, 54, 55, 56, 57, 128, 0]
  const ALNUM_ROW7: seq<Byte> := [0, 0, 0, 0, 0, 0, 0, 0, 240, 1, 0, 0, 0, 0, 0, 0]

  lemma AlnumRow0()
    ensures |ALNUM_ROW0| == 16
    ensures RowWords(ALNUM_ROW0) == [0x44434241, 0x48474645, 0x4c4b4a49, 0x504f4e4d]
  {
    hide RowWords;
    RowIs(ALNUM_ROW0, 0x44434241, 0x48474645, 0x4c4b4a49, 0x504f4e4d);
  }

  lemma AlnumRow1()
    ensures |ALNUM_ROW1| == 16
    ensures RowWords(ALNUM_ROW1) == [0x54535251, 0x58575655, 0x62615a59, 0x66656463]
  {
    hide RowWords;
    RowIs(ALNUM_ROW1, 0x54535251, 0x58575655, 0x62615a59, 0x66656463);
  }

  lemma AlnumRow2()
    ensures |ALNUM_ROW2| == 16
    ensures RowWords(ALNUM_ROW2) == [0x6a696867, 0x6e6d6c6b, 0x7271706f, 0x76757473]
  {
    hide RowWords;
    RowIs(ALNUM_ROW2, 0x6a696867, 0x6e6d6c6b, 0x7271706f, 0x76757473);
  }

  lemma AlnumRow3()
    ensures |ALNUM_ROW3| == 16
    ensures RowWords(ALNUM_ROW3) == [0x7a797877, 0x33323130, 0x37363534, 0x00803938]
  {
    hide RowWords;
    RowIs(ALNUM_ROW3, 0x7a797877, 0x33323130, 0x37363534, 0x00803938);
  }

  lemma AlnumRow7()
    ensures |ALNUM_ROW7| == 16
    ensures RowWords(ALNUM_ROW7) == [0x00000000, 0x00000000, 0x000001f0, 0x00000000]
  {
    hide RowWords;
    RowIs(ALNUM_ROW7, 0x00000000, 0x00000000, 0x000001f0, 0x00000000);
  }

  const ALNUM_TEXT: seq<Byte> := 
    Ascii("ABCDEFGHIJKLMNOP") + Ascii("QRSTUVWXYZabcdef") + Ascii("ghijklmnopqrstuv")
    + Ascii("wxyz0123456789")

  lemma AlnumText0()
    ensures Ascii("ABCDEFGHIJKLMNOP") == ALNUM_ROW0
  {
  }

  lemma AlnumText1()
    ensures Ascii("QRSTUVWXYZabcdef") == ALNUM_ROW1
  {
  }

  lemma AlnumText2()
    ensures Ascii("ghijklmnopqrstuv") == ALNUM_ROW2
  {
  }

  lemma AlnumText3()
    ensures Ascii("wxyz0123456789") == ALNUM_ROW3[..14]
  {
  }

  lemma AlnumPadding()
    ensures Pad(ALNUM_TEXT) ==
            (ALNUM_ROW0 + ALNUM_ROW1 + ALNUM_ROW2 + ALNUM_ROW3) + (BLANKS + BLANKS + BLANKS + ALNUM_ROW7)
  {
    hide Pad, Ascii, Zeros;
    assert |ALNUM_TEXT| == 62;
    AlnumText0();
    AlnumText1();
    AlnumText2();
    AlnumText3();
    assert ZeroFill(62) == 57;
    PadOf(ALNUM_TEXT, 57);
    assert 496 % 256 == 240 && 496 / 256 == 1;
  }

  const ALNUM1: seq<Word> := [
    0x44434241, 0x48474645, 0x4c4b4a49, 0x504f4e4d, 0x54535251, 0x58575655, 0x62615a59, 0x66656463,
    0x6a696867, 0x6e6d6c6b, 0x7271706f, 0x76757473, 0x7a797877, 0x33323130, 0x37363534, 0x00803938]

  lemma Alnum1Words()
    ensures |ALNUM1| == 16
    ensures ALNUM1[0] == 0x44434241 && ALNUM1[1] == 0x48474645
    ensures ALNUM1[2] == 0x4c4b4a49 && ALNUM1[3] == 0x504f4e4d
    ensures ALNUM1[4] == 0x54535251 && ALNUM1[5] == 0x58575655
    ensures ALNUM1[6] == 0x62615a59 && ALNUM1[7] == 0x66656463
    ensures ALNUM1[8] == 0x6a696867 && ALNUM1[9] == 0x6e6d6c6b
    ensures ALNUM1[10] == 0x7271706f && ALNUM1[11] == 0x76757473
    ensures ALNUM1[12] == 0x7a797877 && ALNUM1[13] == 0x33323130
    ensures ALNUM1[14] == 0x37363534 && ALNUM1[15] == 0x00803938
  {
  }

  lemma Alnum1Half1()
    ensures Operations(INITIAL, ALNUM1, 32) == Regs(0x9b085fa9, 0xdd789ecc, 0x5993248f, 0x4400a9bd)
  {
    hide Operations, ALNUM1;
    Alnum1Words();
    NoOperations(INITIAL, ALNUM1);
    Pass0(INITIAL, ALNUM1, 0x44434241, 0x48474645, 0x4c4b4a49, 0x504f4e4d,
          0x67452301, 0xefcdab89, 0x98badcfe, 0x10325476,
          0xc6c10796, 0x27bce07a, 0x11067980, 0x99a09999);
    Pass1(INITIAL, ALNUM1, 0x54535251, 0x58575655, 0x62615a59, 0x66656463,
          0xc6c10796, 0x27bce07a, 0x11067980, 0x99a09999,
          0xf22e6c4e, 0xa4799506, 0xa95a2fc0, 0xb4ac9218);
    Pass2(INITIAL, ALNUM1, 0x6a696867, 0x6e6d6c6b, 0x7271706f, 0x76757473,
          0xf22e6c4e, 0xa4799506, 0xa95a2fc0, 0xb4ac9218,
          0x1eb3e7c1, 0x8a7612ec, 0xca27520b, 0xa6e70cfe);
    Pass3(INITIAL, ALNUM1, 0x7a797877, 0x33323130, 0x37363534, 0x00803938,
          0x1eb3e7c1, 0x8a7612ec, 0xca27520b, 0xa6e70cfe,
          0x3cbdcd45, 0x5d38e690, 0xfa148c8a, 0xb8dec763);
    Pass4(INITIAL, ALNUM1, 0x48474645, 0x62615a59, 0x76757473, 0x44434241,
          0x3cbdcd45, 0x5d38e690, 0xfa148c8a, 0xb8dec763,
          0x04b9d52a, 0x47ae7c81, 0xd3ee3ed1, 0x783002eb);
    Pass5(INITIAL, ALNUM1, 0x58575655, 0x7271706f, 0x00803938, 0x54535251,
          0x04b9d52a, 0x47ae7c81, 0xd3ee3ed1, 0x783002eb,
          0x2d7d8a3f, 0x75292030, 0x4b534dc3, 0xd1210823);
    Pass6(INITIAL, ALNUM1, 0x6e6d6c6b, 0x37363534, 0x504f4e4d, 0x6a696867,
          0x2d7d8a3f, 0x75292030, 0x4b534dc3, 0xd1210823,
          0x9d2a6e33, 0xf2ff6ea0, 0xd473b564, 0x0e8d2e44);
    Pass7(INITIAL, ALNUM1, 0x33323130, 0x4c4b4a49, 0x66656463, 0x7a797877,
          0x9d2a6e33, 0xf2ff6ea0, 0xd473b564, 0x0e8d2e44,
          0x9b085fa9, 0xdd789ecc, 0x5993248f, 0x4400a9bd);
  }

  lemma Alnum1Half2()
    ensures Operations(INITIAL, ALNUM1, 64) == Regs(0x1cb80f0a, 0xef2e3a46, 0x10f68731, 0xea3d3eb4)
  {
    hide Operations, ALNUM1;
    Alnum1Words();
    Alnum1Half1();
    Pass8(INITIAL, ALNUM1, 0x58575655, 0x6a696867, 0x76757473, 0x37363534,
          0x9b085fa9, 0xdd789ecc, 0x5993248f, 0x4400a9bd,
          0x21c8d2b7, 0x1b9504f8, 0x056ec119, 0x1d55a18e);
    Pass9(INITIAL, ALNUM1, 0x48474645, 0x54535251, 0x66656463, 0x7271706f,
          0x21c8d2b7, 0x1b9504f8, 0x056ec119, 0x1d55a18e,
          0x436b7fe9, 0xcf0341ed, 0xf404c2f6, 0x075800c1);
    Pass10(INITIAL, ALNUM1, 0x33323130, 0x44434241, 0x504f4e4d, 0x62615a59,
          0x436b7fe9, 0xcf0341ed, 0xf404c2f6, 0x075800c1,
          0x888e7d8a, 0x047b9419, 0xce620273, 0xbbdaecd8);
    Pass11(INITIAL, ALNUM1, 0x6e6d6c6b, 0x7a797877, 0x00803938, 0x4c4b4a49,
          0x888e7d8a, 0x047b9419, 0xce620273, 0xbbdaecd8,
          0x2dbee21d, 0xf166f514, 0xee46e961, 0xe95c3a43);
    Pass12(INITIAL, ALNUM1, 0x44434241, 0x66656463, 0x37363534, 0x58575655,
          0x2dbee21d, 0xf166f514, 0xee46e961, 0xe95c3a43,
          0xe47fd4f3, 0x7a13bc5c, 0xf22aedcc, 0xfb887751);
    Pass13(INITIAL, ALNUM1, 0x7a797877, 0x504f4e4d, 0x7271706f, 0x48474645,
          0xe47fd4f3, 0x7a13bc5c, 0xf22aedcc, 0xfb887751,
          0xa691d430, 0xefb0e72f, 0x3fc23df6, 0x528452f2);
    Pass14(INITIAL, ALNUM1, 0x6a696867, 0x00803938, 0x62615a59, 0x33323130,
          0xa691d430, 0xefb0e72f, 0x3fc23df6, 0x528452f2,
          0x27145703, 0x49d9a5b4, 0x374fbe79, 0x21a11069);
    Pass15(INITIAL, ALNUM1, 0x54535251, 0x76757473, 0x4c4b4a49, 0x6e6d6c6b,
          0x27145703, 0x49d9a5b4, 0x374fbe79, 0x21a11069,
          0x1cb80f0a, 0xef2e3a46, 0x10f68731, 0xea3d3eb4);
  }

  lemma Alnum1Block()
    ensures Compress(INITIAL, ALNUM1) == Regs(0x83fd320b, 0xdefbe5cf, 0xa9b1642f, 0xfa6f932a)
  {
    hide Operations;
    Alnum1Half2();
  }

  lemma Alnum1IsBlock()
    ensures |ALNUM_ROW0 + ALNUM_ROW1 + ALNUM_ROW2 + ALNUM_ROW3| == 64
    ensures WordsOf(ALNUM_ROW0 + ALNUM_ROW1 + ALNUM_ROW2 + ALNUM_ROW3) == ALNUM1
  {
    hide WordsOf, RowWords, ALNUM_ROW0, ALNUM_ROW1, ALNUM_ROW2, ALNUM_ROW3;
    BlankWords();
    AlnumRow0();
    AlnumRow1();
    AlnumRow2();
    AlnumRow3();
    WordsOfRows(ALNUM_ROW0, ALNUM_ROW1, ALNUM_ROW2, ALNUM_ROW3);
  }

  const ALNUM2_START: Regs := Regs(0x83fd320b, 0xdefbe5cf, 0xa9b1642f, 0xfa6f932a)

  const ALNUM2: seq<Word> := [
    0x00000000, 0x00000000, 0x00000000, 0x00000000, 0x00000000, 0x00000000, 0x00000000, 0x00000000,
    0x00000000, 0x00000000, 0x00000000, 0x00000000, 0x00000000, 0x00000000, 0x000001f0, 0x00000000]

  lemma Alnum2Words()
    ensures |ALNUM2| == 16
    ensures ALNUM2[0] == 0x00000000 && ALNUM2[1] == 0x00000000
    ensures ALNUM2[2] == 0x00000000 && ALNUM2[3] == 0x00000000
    ensures ALNUM2[4] == 0x00000000 && ALNUM2[5] == 0x00000000
    ensures ALNUM2[6] == 0x00000000 && ALNUM2[7] == 0x00000000
    ensures ALNUM2[8] == 0x00000000 && ALNUM2[9] == 0x00000000
    ensures ALNUM2[10] == 0x00000000 && ALNUM2[11] == 0x00000000
    ensures ALNUM2[12] == 0x00000000 && ALNUM2[13] == 0x00000000
    ensures ALNUM2[14] == 0x000001f0 && ALNUM2[15] == 0x00000000
  {
  }

  lemma Alnum2Half1()
    ensures Operations(ALNUM2_START, ALNUM2, 32) == Regs(0x24eba695, 0x9c03e2e8, 0x10c42a2f, 0x4bd0378b)
  {
    hide Operations, ALNUM2;
    Alnum2Words();
    NoOperations(ALNUM2_START, ALNUM2);
    Pass0(ALNUM2_START, ALNUM2, 0x00000000, 0x00000000, 0x00000000, 0x00000000,
          0x83fd320b, 0xdefbe5cf, 0xa9b1642f, 0xfa6f932a,
          0xeda23ed1, 0xddcf0634, 0x3c307338, 0x989939cf);
    Pass1(ALNUM2_START, ALNUM2, 0x00000000, 0x00000000, 0x00000000, 0x00000000,
          0xeda23ed1, 0xddcf0634, 0x3c307338, 0x989939cf,
          0x75144433, 0x99b6b699, 0xc783cb60, 0xc8875807);
    Pass2(ALNUM2_START, ALNUM2, 0x00000000, 0x00000000, 0x00000000, 0x00000000,
          0x75144433, 0x99b6b699, 0xc783cb60, 0xc8875807,
          0xa60a3f69, 0x64cc7c5a, 0x64db26e9, 0xaa6630be);
    Pass3(ALNUM2_START, ALNUM2, 0x00000000, 0x00000000, 0x000001f0, 0x00000000,
          0xa60a3f69, 0x64cc7c5a, 0x64db26e9, 0xaa6630be,
          0xa70737da, 0xa36f556f, 0x96f6586e, 0x5473f8a7);
    Pass4(ALNUM2_START, ALNUM2, 0x00000000, 0x00000000, 0x00000000, 0x00000000,
          0xa70737da, 0xa36f556f, 0x96f6586e, 0x5473f8a7,
          0xa5050ad3, 0x82b8827c, 0x27dcd8b4, 0x28776046);
    Pass5(ALNUM2_START, ALNUM2, 0x00000000, 0x00000000, 0x00000000, 0x00000000,
          0xa5050ad3, 0x82b8827c, 0x27dcd8b4, 0x28776046,
          0xe04f070c, 0xdf35cb56, 0xc0d22b61, 0x2f3cd2a2);
    Pass6(ALNUM2_START, ALNUM2, 0x00000000, 0x000001f0, 0x00000000, 0x00000000,
          0xe04f070c, 0xdf35cb56, 0xc0d22b61, 0x2f3cd2a2,
          0x242dd210, 0x2291191a, 0x5c295967, 0x576ace33);
    Pass7(ALNUM2_START, ALNUM2, 0x00000000, 0x00000000, 0x00000000, 0x00000000,
          0x242dd210, 0x2291191a, 0x5c295967, 0x576ace33,
          0x24eba695, 0x9c03e2e8, 0x10c42a2f, 0x4bd0378b);
  }

  lemma Alnum2Half2()
    ensures Operations(ALNUM2_START, ALNUM2, 64) == Regs(0x14ae42c6, 0x16dd9203, 0x826afd76, 0xa52dae75)
  {
    hide Operations, ALNUM2;
    Alnum2Words();
    Alnum2Half1();
    Pass8(ALNUM2_START, ALNUM2, 0x00000000, 0x00000000, 0x00000000, 0x000001f0,
          0x24eba695, 0x9c03e2e8, 0x10c42a2f, 0x4bd0378b,
          0x5be1d526, 0xa2448453, 0x9f4a1a7e, 0x9e414279);
    Pass9(ALNUM2_START, ALNUM2, 0x00000000, 0x00000000, 0x00000000, 0x00000000,
          0x5be1d526, 0xa2448453, 0x9f4a1a7e, 0x9e414279,
          0xe14e403d, 0xfe314121, 0x60cc183a, 0xe8cfd670);
    Pass10(ALNUM2_START, ALNUM2, 0x00000000, 0x00000000, 0x00000000, 0x00000000,
          0xe14e403d, 0xfe314121, 0x60cc183a, 0xe8cfd670,
          0xfff62809, 0x7c7e974c, 0x8cb5221c, 0xe37209ac);
    Pass11(ALNUM2_START, ALNUM2, 0x00000000, 0x00000000, 0x00000000, 0x00000000,
          0xfff62809, 0x7c7e974c, 0x8cb5221c, 0xe37209ac,
          0x54c9eb3a, 0x79c0710a, 0x2ec86f72, 0xd4d9c6ac);
    Pass12(ALNUM2_START, ALNUM2, 0x00000000, 0x00000000, 0x000001f0, 0x00000000,
          0x54c9eb3a, 0x79c0710a, 0x2ec86f72, 0xd4d9c6ac,
          0x02095af1, 0x2ba98e3f, 0xa8dcfe26, 0x13d245fd);
    Pass13(ALNUM2_START, ALNUM2, 0x00000000, 0x00000000, 0x00000000, 0x00000000,
          0x02095af1, 0x2ba98e3f, 0xa8dcfe26, 0x13d245fd,
          0xe126c1aa, 0xfb7bcee0, 0x6f287ff5, 0x96b00fa7);
    Pass14(ALNUM2_START, ALNUM2, 0x00000000, 0x00000000, 0x00000000, 0x00000000,
          0xe126c1aa, 0xfb7bcee0, 0x6f287ff5, 0x96b00fa7,
          0x452c1099, 0x5ac74608, 0xc197ea8e, 0xca801ba6);
    Pass15(ALNUM2_START, ALNUM2, 0x00000000, 0x00000000, 0x00000000, 0x00000000,
          0x452c1099, 0x5ac74608, 0xc197ea8e, 0xca801ba6,
          0x14ae42c6, 0x16dd9203, 0x826afd76, 0xa52dae75);
  }

  lemma Alnum2Block()
    ensures Compress(ALNUM2_START, ALNUM2) == Regs(0x98ab74d1, 0xf5d977d2, 0x2c1c61a5, 0x9f9d419f)
  {
    hide Operations;
    Alnum2Half2();
  }

  lemma Alnum2IsBlock()
    ensures |BLANKS + BLANKS + BLANKS + ALNUM_ROW7| == 64
    ensures WordsOf(BLANKS + BLANKS + BLANKS + ALNUM_ROW7) == ALNUM2
  {
    hide WordsOf, RowWords, ALNUM_ROW7;
    BlankWords();
    AlnumRow7();
    WordsOfRows(BLANKS, BLANKS, BLANKS, ALNUM_ROW7);
  }

  lemma Alnum()
    ensures Digest(ALNUM_TEXT)
         == [0xd1, 0x74, 0xab, 0x98, 0xd2, 0x77, 0xd9, 0xf5,
             0xa5, 0x61, 0x1c, 0x2c, 0x9f, 0x41, 0x9d, 0x9f]
  {
    hide Blocks, Compress, WordsOf, Pad, LittleEndian, Ascii,
         ALNUM1, ALNUM2, ALNUM_ROW0, ALNUM_ROW1, ALNUM_ROW2, ALNUM_ROW3, ALNUM_ROW7, BLANKS;
    AlnumPadding();
    Alnum1IsBlock();
    Alnum1Block();
    Alnum2IsBlock();
    Alnum2Block();
    BlocksOne(INITIAL, ALNUM_ROW0 + ALNUM_ROW1 + ALNUM_ROW2 + ALNUM_ROW3);
    BlocksOne(ALNUM2_START, BLANKS + BLANKS + BLANKS + ALNUM_ROW7);
    BlocksConcat(INITIAL, ALNUM_ROW0 + ALNUM_ROW1 + ALNUM_ROW2 + ALNUM_ROW3, BLANKS + BLANKS + BLANKS + ALNUM_ROW7);
    Shown(0x98ab74d1, 0x98ab74d1, 0xd1, 0x74, 0xab, 0x98);
    Shown(0xf5d977d2, 0xf5d977d2, 0xd2, 0x77, 0xd9, 0xf5);
    Shown(0x2c1c61a5, 0x2c1c61a5, 0xa5, 0x61, 0x1c, 0x2c);
    Shown(0x9f9d419f, 0x9f9d419f, 0x9f, 0x41, 0x9d, 0x9f);
  }

  const DIGITS_ROW0: seq<Byte> := [49, 50, 51, 52, 53, 54, 55, 56, 57, 48, 49, 50, 51, 52, 53, 54]
  const DIGITS_ROW1: seq<Byte> := [55, 56, 57, 48, 49, 50, 51, 52, 53, 54, 55, 56, 57, 48, 49, 50]
  const DIGITS_ROW2: seq<Byte> := [51, 52, 53, 54, 55, 56, 57, 48, 49, 50, 51, 52, 53, 54, 55, 56]
  const DIGITS_ROW3: seq<Byte> := [57, 48, 49, 50, 51, 52, 53, 54, 55, 56, 57, 48, 49, 50, 51, 52]
  const DIGITS_ROW4: seq<Byte> := [53, 54, 55, 56, 57, 48, 49, 50, 51, 52, 53, 54, 55, 56, 57, 48]
  const DIGITS_ROW5: seq<Byte> := [128, 0, 0, 0, 0, 0, 0, 0, 0, 0, 0, 0, 0, 0, 0, 0]
  const DIGITS_ROW7: seq<Byte> := [0, 0, 0, 0, 0, 0, 0, 0, 128, 2, 0, 0, 0, 0, 0, 0]

  lemma DigitsRow0()
    ensures |DIGITS_ROW0| == 16
    ensures RowWords(DIGITS_ROW0) == [0x34333231, 0x38373635, 0x32313039, 0x36353433]
  {
    hide RowWords;
    RowIs(DIGITS_ROW0, 0x34333231, 0x38373635, 0x32313039, 0x36353433);
  }

  lemma DigitsRow1()
    ensures |DIGITS_ROW1| == 16
    ensures RowWords(DIGITS_ROW1) == [0x30393837, 0x34333231, 0x38373635, 0x32313039]
  {
    hide RowWords;
    RowIs(DIGITS_ROW1, 0x30393837, 0x34333231, 0x38373635, 0x32313039);
  }

  lemma DigitsRow2()
    ensures |DIGITS_ROW2| == 16
    ensures RowWords(DIGITS_ROW2) == [0x36353433, 0x30393837, 0x34333231, 0x38373635]
  {
    hide RowWords;
    RowIs(DIGITS_ROW2, 0x36353433, 0x30393837, 0x34333231, 0x38373635);
  }

  lemma DigitsRow3()
    ensures |DIGITS_ROW3| == 16
    ensures RowWords(DIGITS_ROW3) == [0x32313039, 0x36353433, 0x30393837, 0x34333231]
  {
    hide RowWords;
    RowIs(DIGITS_ROW3, 0x32313039, 0x36353433, 0x30393837, 0x34333231);
  }

  lemma DigitsRow4()
    ensures |DIGITS_ROW4| == 16
    ensures RowWords(DIGITS_ROW4) == [0x38373635, 0x32313039, 0x36353433, 0x30393837]
  {
    hide RowWords;
    RowIs(DIGITS_ROW4, 0x38373635, 0x32313039, 0x36353433, 0x30393837);
  }

  lemma DigitsRow5()
    ensures |DIGITS_ROW5| == 16
    ensures RowWords(DIGITS_ROW5) == [0x00000080, 0x00000000, 0x00000000, 0x00000000]
  {
    hide RowWords;
    RowIs(DIGITS_ROW5, 0x00000080, 0x00000000, 0x00000000, 0x00000000);
  }

  lemma DigitsRow7()
    ensures |DIGITS_ROW7| == 16
    ensures RowWords(DIGITS_ROW7) == [0x00000000, 0x00000000, 0x00000280, 0x00000000]
  {
    hide RowWords;
    RowIs(DIGITS_ROW7, 0x00000000, 0x00000000, 0x00000280, 0x00000000);
  }

  const DIGITS_TEXT: seq<Byte> := 
    Ascii("1234567890123456") + Ascii("7890123456789012") + Ascii("3456789012345678")
    + Ascii("9012345678901234") + Ascii("5678901234567890")

  lemma DigitsText0()
    ensures Ascii("1234567890123456") == DIGITS_ROW0
  {
  }

  lemma DigitsText1()
    ensures Ascii("7890123456789012") == DIGITS_ROW1
  {
  }

  lemma DigitsText2()
    ensures Ascii("3456789012345678") == DIGITS_ROW2
  {
  }

  lemma DigitsText3()
    ensures Ascii("9012345678901234") == DIGITS_ROW3
  {
  }

  lemma DigitsText4()
    ensures Ascii("5678901234567890") == DIGITS_ROW4
  {
  }

  lemma DigitsPadding()
    ensures Pad(DIGITS_TEXT) ==
            (DIGITS_ROW0 + DIGITS_ROW1 + DIGITS_ROW2 + DIGITS_ROW3) + (DIGITS_ROW4 + DIGITS_ROW5 + BLANKS + DIGITS_ROW7)
  {
    hide Pad, Ascii, Zeros;
    assert |DIGITS_TEXT| == 80;
    DigitsText0();
    DigitsText1();
    DigitsText2();
    DigitsText3();
    DigitsText4();
    assert ZeroFill(80) == 39;
    PadOf(DIGITS_TEXT, 39);
    assert 640 % 256 == 128 && 640 / 256 == 2;
  }

  const DIGITS1: seq<Word> := [
    0x34333231, 0x38373635, 0x32313039, 0x36353433, 0x30393837, 0x34333231, 0x38373635, 0x32313039,
    0x36353433, 0x30393837, 0x34333231, 0x38373635, 0x32313039, 0x36353433, 0x30393837, 0x34333231]

  lemma Digits1Words()
    ensures |DIGITS1| == 16
    ensures DIGITS1[0] == 0x34333231 && DIGITS1[1] == 0x38373635
    ensures DIGITS1[2] == 0x32313039 && DIGITS1[3] == 0x36353433
    ensures DIGITS1[4] == 0x30393837 && DIGITS1[5] == 0x34333231
    ensures DIGITS1[6] == 0x38373635 && DIGITS1[7] == 0x32313039
    ensures DIGITS1[8] == 0x36353433 && DIGITS1[9] == 0x30393837
    ensures DIGITS1[10] == 0x34333231 && DIGITS1[11] == 0x38373635
    ensures DIGITS1[12] == 0x32313039 && DIGITS1[13] == 0x36353433
    ensures DIGITS1[14] == 0x30393837 && DIGITS1[15] == 0x34333231
  {
  }

  lemma Digits1Half1()
    ensures Operations(INITIAL, DIGITS1, 32) == Regs(0xf8bcfbb0, 0x1bf25662, 0x99a0f1b8, 0xd760ed39)
  {
    hide Operations, DIGITS1;
    Digits1Words();
    NoOperations(INITIAL, DIGITS1);
    Pass0(INITIAL, DIGITS1, 0x34333231, 0x38373635, 0x32313039, 0x36353433,
          0x67452301, 0xefcdab89, 0x98badcfe, 0x10325476,
          0xbeb8ff8e, 0x862797b0, 0xf8cdf95d, 0x7d989d89);
    Pass1(INITIAL, DIGITS1, 0x30393837, 0x34333231, 0x38373635, 0x32313039,
          0xbeb8ff8e, 0x862797b0, 0xf8cdf95d, 0x7d989d89,
          0x8c17de9f, 0xc57e78c1, 0xe99fec1b, 0xc0f32d81);
    Pass2(INITIAL, DIGITS1, 0x36353433, 0x30393837, 0x34333231, 0x38373635,
          0x8c17de9f, 0xc57e78c1, 0xe99fec1b, 0xc0f32d81,
          0x7c0aceb7, 0xa5f36f8d, 0x5186a8ba, 0x8869d2d8);
    Pass3(INITIAL, DIGITS1, 0x32313039, 0x36353433, 0x30393837, 0x34333231,
          0x7c0aceb7, 0xa5f36f8d, 0x5186a8ba, 0x8869d2d8,
          0x5157e49e, 0xaf506a03, 0x27e983a0, 0xffac907e);
    Pass4(INITIAL, DIGITS1, 0x38373635, 0x38373635, 0x38373635, 0x34333231,
          0x5157e49e, 0xaf506a03, 0x27e983a0, 0xffac907e,
          0x8d18e0e8, 0x04280170, 0xef223167, 0x07de0df2);
    Pass5(INITIAL, DIGITS1, 0x34333231, 0x34333231, 0x34333231, 0x30393837,
          0x8d18e0e8, 0x04280170, 0xef223167, 0x07de0df2,
          0x78929ee0, 0xad400a91, 0xb18aca50, 0x375c6c2c);
    Pass6(INITIAL, DIGITS1, 0x30393837, 0x30393837, 0x36353433, 0x36353433,
          0x78929ee0, 0xad400a91, 0xb18aca50, 0x375c6c2c,
          0xbb45f43f, 0xb70e35a9, 0x98ade6b5, 0xd61f8a0f);
    Pass7(INITIAL, DIGITS1, 0x36353433, 0x32313039, 0x32313039, 0x32313039,
          0xbb45f43f, 0xb70e35a9, 0x98ade6b5, 0xd61f8a0f,
          0xf8bcfbb0, 0x1bf25662, 0x99a0f1b8, 0xd760ed39);
  }

  lemma Digits1Half2()
    ensures Operations(INITIAL, DIGITS1, 64) == Regs(0x614868eb, 0xb4d33102, 0x5133129b, 0xa09f38a7)
  {
    hide Operations, DIGITS1;
    Digits1Words();
    Digits1Half1();
    Pass8(INITIAL, DIGITS1, 0x34333231, 0x36353433, 0x38373635, 0x30393837,
          0xf8bcfbb0, 0x1bf25662, 0x99a0f1b8, 0xd760ed39,
          0x3dbd76ca, 0xe0162f49, 0xc7ed7c30, 0xfd056171);
    Pass9(INITIAL, DIGITS1, 0x38373635, 0x30393837, 0x32313039, 0x34333231,
          0x3dbd76ca, 0xe0162f49, 0xc7ed7c30, 0xfd056171,
          0x3b32c408, 0x1d4d6f72, 0x9ef871ad, 0x7338d8b7);
    Pass10(INITIAL, DIGITS1, 0x36353433, 0x34333231, 0x36353433, 0x38373635,
          0x3b32c408, 0x1d4d6f72, 0x9ef871ad, 0x7338d8b7,
          0xc661460a, 0x89e3c4d7, 0xd6d5b879, 0xd2bf04c9);
    Pass11(INITIAL, DIGITS1, 0x30393837, 0x32313039, 0x34333231, 0x32313039,
          0xc661460a, 0x89e3c4d7, 0xd6d5b879, 0xd2bf04c9,
          0x697032ec, 0xdb4197da, 0xefc2c171, 0xfa597bfc);
    Pass12(INITIAL, DIGITS1, 0x34333231, 0x32313039, 0x30393837, 0x34333231,
          0x697032ec, 0xdb4197da, 0xefc2c171, 0xfa597bfc,
          0x57b91aca, 0xcaa25b01, 0x21efbd88, 0x210c9ebc);
    Pass13(INITIAL, DIGITS1, 0x32313039, 0x36353433, 0x34333231, 0x38373635,
          0x57b91aca, 0xcaa25b01, 0x21efbd88, 0x210c9ebc,
          0x633d3f7c, 0x7713f5df, 0xccaa1524, 0x1a4d3beb);
    Pass14(INITIAL, DIGITS1, 0x36353433, 0x34333231, 0x38373635, 0x36353433,
          0x633d3f7c, 0x7713f5df, 0xccaa1524, 0x1a4d3beb,
          0x8448b430, 0x660a801d, 0x7e294727, 0x71c93463);
    Pass15(INITIAL, DIGITS1, 0x30393837, 0x38373635, 0x32313039, 0x30393837,
          0x8448b430, 0x660a801d, 0x7e294727, 0x71c93463,
          0x614868eb, 0xb4d33102, 0x5133129b, 0xa09f38a7);
  }

  lemma Digits1Block()
    ensures Compress(INITIAL, DIGITS1) == Regs(0xc88d8bec, 0xa4a0dc8b, 0xe9edef99, 0xb0d18d1d)
  {
    hide Operations;
    Digits1Half2();
  }

  lemma Digits1IsBlock()
    ensures |DIGITS_ROW0 + DIGITS_ROW1 + DIGITS_ROW2 + DIGITS_ROW3| == 64
    ensures WordsOf(DIGITS_ROW0 + DIGITS_ROW1 + DIGITS_ROW2 + DIGITS_ROW3) == DIGITS1
  {
    hide WordsOf, RowWords, DIGITS_ROW0, DIGITS_ROW1, DIGITS_ROW2, DIGITS_ROW3;
    BlankWords();
    DigitsRow0();
    DigitsRow1();
    DigitsRow2();
    DigitsRow3();
    WordsOfRows(DIGITS_ROW0, DIGITS_ROW1, DIGITS_ROW2, DIGITS_ROW3);
  }

  const DIGITS2_START: Regs := Regs(0xc88d8bec, 0xa4a0dc8b, 0xe9edef99, 0xb0d18d1d)

  const DIGITS2: seq<Word> := [
    0x38373635, 0x32313039, 0x36353433, 0x30393837, 0x00000080, 0x00000000, 0x00000000, 0x00000000,
    0x00000000, 0x00000000, 0x00000000, 0x00000000, 0x00000000, 0x00000000, 0x00000280, 0x00000000]

  lemma Digits2Words()
    ensures |DIGITS2| == 16
    ensures DIGITS2[0] == 0x38373635 && DIGITS2[1] == 0x32313039
    ensures DIGITS2[2] == 0x36353433 && DIGITS2[3] == 0x30393837
    ensures DIGITS2[4] == 0x00000080 && DIGITS2[5] == 0x00000000
    ensures DIGITS2[6] == 0x00000000 && DIGITS2[7] == 0x00000000
    ensures DIGITS2[8] == 0x00000000 && DIGITS2[9] == 0x00000000
    ensures DIGITS2[10] == 0x00000000 && DIGITS2[11] == 0x00000000
    ensures DIGITS2[12] == 0x00000000 && DIGITS2[13] == 0x00000000
    ensures DIGITS2[14] == 0x00000280 && DIGITS2[15] == 0x00000000
  {
  }

  lemma Digits2Half1()
    ensures Operations(DIGITS2_START, DIGITS2, 32) == Regs(0x8761f38e, 0x67092c33, 0x061bc867, 0x7a516116)
  {
    hide Operations, DIGITS2;
    Digits2Words();
    NoOperations(DIGITS2_START, DIGITS2);
    Pass0(DIGITS2_START, DIGITS2, 0x38373635, 0x32313039, 0x36353433, 0x30393837,
          0xc88d8bec, 0xa4a0dc8b, 0xe9edef99, 0xb0d18d1d,
          0x353af7cf, 0x45e88f2c, 0x63356537, 0x3a4f735a);
    Pass1(DIGITS2_START, DIGITS2, 0x00000080, 0x00000000, 0x00000000, 0x00000000,
          0x353af7cf, 0x45e88f2c, 0x63356537, 0x3a4f735a,
          0x3527497e, 0x377c7d0a, 0x948347ae, 0xab92660e);
    Pass2(DIGITS2_START, DIGITS2, 0x00000000, 0x00000000, 0x00000000, 0x00000000,
          0x3527497e, 0x377c7d0a, 0x948347ae, 0xab92660e,
          0xcc912f27, 0xb9ede40c, 0xae23894d, 0x6945a3d5);
    Pass3(DIGITS2_START, DIGITS2, 0x00000000, 0x00000000, 0x00000280, 0x00000000,
          0xcc912f27, 0xb9ede40c, 0xae23894d, 0x6945a3d5,
          0xdb4ff71c, 0x58b12eab, 0x04396a39, 0x9b6b4960);
    Pass4(DIGITS2_START, DIGITS2, 0x32313039, 0x00000000, 0x00000000, 0x38373635,
          0xdb4ff71c, 0x58b12eab, 0x04396a39, 0x9b6b4960,
          0x52c00cae, 0x50f8de8c, 0xa476af6f, 0xaad2a216);
    Pass5(DIGITS2_START, DIGITS2, 0x00000000, 0x00000000, 0x00000000, 0x00000080,
          0x52c00cae, 0x50f8de8c, 0xa476af6f, 0xaad2a216,
          0x0d6e6d91, 0x043cb080, 0xd5b7a850, 0x17d64195);
    Pass6(DIGITS2_START, DIGITS2, 0x00000000, 0x00000280, 0x30393837, 0x00000000,
          0x0d6e6d91, 0x043cb080, 0xd5b7a850, 0x17d64195,
          0x74f9377e, 0xcb00b96e, 0xe775c8ca, 0x01f2addd);
    Pass7(DIGITS2_START, DIGITS2, 0x00000000, 0x36353433, 0x00000000, 0x00000000,
          0x74f9377e, 0xcb00b96e, 0xe775c8ca, 0x01f2addd,
          0x8761f38e, 0x67092c33, 0x061bc867, 0x7a516116);
  }

  lemma Digits2Half2()
    ensures Operations(DIGITS2_START, DIGITS2, 64) == Regs(0xda67616b, 0xb12906a0, 0x44ec5a13, 0xc9e47a04)
  {
    hide Operations, DIGITS2;
    Digits2Words();
    Digits2Half1();
    Pass8(DIGITS2_START, DIGITS2, 0x00000000, 0x00000000, 0x00000000, 0x00000280,
          0x8761f38e, 0x67092c33, 0x061bc867, 0x7a516116,
          0x91044d5d, 0x2ee1e3fe, 0xc0175fa8, 0x610954eb);
    Pass9(DIGITS2_START, DIGITS2, 0x32313039, 0x00000080, 0x00000000, 0x00000000,
          0x91044d5d, 0x2ee1e3fe, 0xc0175fa8, 0x610954eb,
          0xae26ed7d, 0xdbd1bff6, 0xff4a94dc, 0x71d8ecea);
    Pass10(DIGITS2_START, DIGITS2, 0x00000000, 0x38373635, 0x30393837, 0x00000000,
          0xae26ed7d, 0xdbd1bff6, 0xff4a94dc, 0x71d8ecea,
          0x9c350028, 0x56b3692f, 0xfacaaf06, 0x97e5da92);
    Pass11(DIGITS2_START, DIGITS2, 0x00000000, 0x00000000, 0x00000000, 0x36353433,
          0x9c350028, 0x56b3692f, 0xfacaaf06, 0x97e5da92,
          0x71123afa, 0x1df7010a, 0xe6a8a386, 0xdc9c8ddb);
    Pass12(DIGITS2_START, DIGITS2, 0x38373635, 0x00000000, 0x00000280, 0x00000000,
          0x71123afa, 0x1df7010a, 0xe6a8a386, 0xdc9c8ddb,
          0xd29007e7, 0xc8797828, 0xd3248109, 0x7241a77e);
    Pass13(DIGITS2_START, DIGITS2, 0x00000000, 0x30393837, 0x00000000, 0x32313039,
          0xd29007e7, 0xc8797828, 0xd3248109, 0x7241a77e,
          0x7a504abd, 0x9b31b114, 0xa290d6ce, 0x211cc65d);
    Pass14(DIGITS2_START, DIGITS2, 0x00000000, 0x00000000, 0x00000000, 0x00000000,
          0x7a504abd, 0x9b31b114, 0xa290d6ce, 0x211cc65d,
          0x723fd22d, 0x4dc4f33d, 0x3d79cf74, 0xd21d6a3b);
    Pass15(DIGITS2_START, DIGITS2, 0x00000080, 0x00000000, 0x36353433, 0x00000000,
          0x723fd22d, 0x4dc4f33d, 0x3d79cf74, 0xd21d6a3b,
          0xda67616b, 0xb12906a0, 0x44ec5a13, 0xc9e47a04);
  }

  lemma Digits2Block()
    ensures Compress(DIGITS2_START, DIGITS2) == Regs(0xa2f4ed57, 0x55c9e32b, 0x2eda49ac, 0x7ab60721)
  {
    hide Operations;
    Digits2Half2();
  }

  lemma Digits2IsBlock()
    ensures |DIGITS_ROW4 + DIGITS_ROW5 + BLANKS + DIGITS_ROW7| == 64
    ensures WordsOf(DIGITS_ROW4 + DIGITS_ROW5 + BLANKS + DIGITS_ROW7) == DIGITS2
  {
    hide WordsOf, RowWords, DIGITS_ROW4, DIGITS_ROW5, DIGITS_ROW7;
    BlankWords();
    DigitsRow4();
    DigitsRow5();
    DigitsRow7();
    WordsOfRows(DIGITS_ROW4, DIGITS_ROW5, BLANKS, DIGITS_ROW7);
  }

  lemma Digits()
    ensures Digest(DIGITS_TEXT)
         == [0x57, 0xed, 0xf4, 0xa2, 0x2b, 0xe3, 0xc9, 0x55,
             0xac, 0x49, 0xda, 0x2e, 0x21, 0x07, 0xb6, 0x7a]
  {
    hide Blocks, Compress, WordsOf, Pad, LittleEndian, Ascii,
         BLANKS, DIGITS1, DIGITS2, DIGITS_ROW0, DIGITS_ROW1, DIGITS_ROW2, DIGITS_ROW3, DIGITS_ROW4,
         DIGITS_ROW5, DIGITS_ROW7;
    DigitsPadding();
    Digits1IsBlock();
    Digits1Block();
    Digits2IsBlock();
    Digits2Block();
    BlocksOne(INITIAL, DIGITS_ROW0 + DIGITS_ROW1 + DIGITS_ROW2 + DIGITS_ROW3);
    BlocksOne(DIGITS2_START, DIGITS_ROW4 + DIGITS_ROW5 + BLANKS + DIGITS_ROW7);
    BlocksConcat(INITIAL, DIGITS_ROW0 + DIGITS_ROW1 + DIGITS_ROW2 + DIGITS_ROW3,
                 DIGITS_ROW4 + DIGITS_ROW5 + BLANKS + DIGITS_ROW7);
    Shown(0xa2f4ed57, 0xa2f4ed57, 0x57, 0xed, 0xf4, 0xa2);
    Shown(0x55c9e32b, 0x55c9e32b, 0x2b, 0xe3, 0xc9, 0x55);
    Shown(0x2eda49ac, 0x2eda49ac, 0xac, 0x49, 0xda, 0x2e);
    Shown(0x7ab60721, 0x7ab60721, 0x21, 0x07, 0xb6, 0x7a);
  }
}
