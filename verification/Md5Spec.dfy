/** MD5 as sections 3.1 to 3.5 of RFC 1321 define it: one message in, one digest out. */
module Md5Spec {
  import opened Bytes

  type Word = bv32

  datatype Regs = Regs(a: Word, b: Word, c: Word, d: Word)

  const INITIAL: Regs := Regs(0x67452301, 0xefcdab89, 0x98badcfe, 0x10325476)

  const T1: seq<Word> := [
    0xd76aa478, 0xe8c7b756, 0x242070db, 0xc1bdceee, 0xf57c0faf, 0x4787c62a, 0xa8304613, 0xfd469501]
  const T2: seq<Word> := [
    0x698098d8, 0x8b44f7af, 0xffff5bb1, 0x895cd7be, 0x6b901122, 0xfd987193, 0xa679438e, 0x49b40821]
  const T3: seq<Word> := [
    0xf61e2562, 0xc040b340, 0x265e5a51, 0xe9b6c7aa, 0xd62f105d, 0x02441453, 0xd8a1e681, 0xe7d3fbc8]
  const T4: seq<Word> := [
    0x21e1cde6, 0xc33707d6, 0xf4d50d87, 0x455a14ed, 0xa9e3e905, 0xfcefa3f8, 0x676f02d9, 0x8d2a4c8a]
  const T5: seq<Word> := [
    0xfffa3942, 0x8771f681, 0x6d9d6122, 0xfde5380c, 0xa4beea44, 0x4bdecfa9, 0xf6bb4b60, 0xbebfbc70]
  const T6: seq<Word> := [
    0x289b7ec6, 0xeaa127fa, 0xd4ef3085, 0x04881d05, 0xd9d4d039, 0xe6db99e5, 0x1fa27cf8, 0xc4ac5665]
  const T7: seq<Word> := [
    0xf4292244, 0x432aff97, 0xab9423a7, 0xfc93a039, 0x655b59c3, 0x8f0ccc92, 0xffeff47d, 0x85845dd1]
  const T8: seq<Word> := [
    0x6fa87e4f, 0xfe2ce6e0, 0xa3014314, 0x4e0811a1, 0xf7537e82, 0xbd3af235, 0x2ad7d2bb, 0xeb86d391]
  const T: seq<Word> := T1 + T2 + T3 + T4 + T5 + T6 + T7 + T8

  // ----- section 3.4: the four auxiliary functions and the 64 operations

  function F(x: Word, y: Word, z: Word): Word { (x & y) | (!x & z) }
  function G(x: Word, y: Word, z: Word): Word { (x & z) | (y & !z) }
  function H(x: Word, y: Word, z: Word): Word { x ^ y ^ z }
  function I(x: Word, y: Word, z: Word): Word { y ^ (x | !z) }

  function Aux(i: nat, x: Word, y: Word, z: Word): Word {
    if i < 16 then F(x, y, z) else if i < 32 then G(x, y, z) else if i < 48 then H(x, y, z) else I(x, y, z)
  }

  /** Which message word operation i adds. */
  function K(i: nat): (k: nat)
    ensures k < 16
  {
    var j := i % 16;
    if i < 16 then j else if i < 32 then (1 + 5 * j) % 16 else if i < 48 then (5 + 3 * j) % 16 else 7 * j % 16
  }

  /** How far operation i rotates. */
  function S(i: nat): (s: Word)
    ensures 0 < s < 32
  {
    var row: seq<Word> := if i < 16 then [7, 12, 17, 22] else if i < 32 then [5, 9, 14, 20]
               else if i < 48 then [4, 11, 16, 23] else [6, 10, 15, 21];
    row[i % 4]
  }

  function Rotate(w: Word, s: Word): Word
    requires 0 < s < 32
  {
    (w << s) | (w >> (32 - s))
  }

  function Blend(a: Word, f: Word, x: Word, t: Word, s: Word, b: Word): Word
    requires 0 < s < 32
  {
    b + Rotate(a + f + x + t, s)
  }

  /** [abcd k s i]: a = b + ((a + f(b,c,d) + X[k] + T[i]) <<< s). */
  function Mix(i: nat, a: Word, b: Word, c: Word, d: Word, x: seq<Word>): Word
    requires i < 64 && |x| == 16
  {
    Blend(a, Aux(i, b, c, d), x[K(i)], T[i], S(i), b)
  }

  /** Operations run as [ABCD], [DABC], [CDAB], [BCDA], over and over. */
  function Operation(r: Regs, x: seq<Word>, i: nat): Regs
    requires i < 64 && |x| == 16
  {
    if i % 4 == 0 then r.(a := Mix(i, r.a, r.b, r.c, r.d, x))
    else if i % 4 == 1 then r.(d := Mix(i, r.d, r.a, r.b, r.c, x))
    else if i % 4 == 2 then r.(c := Mix(i, r.c, r.d, r.a, r.b, x))
    else r.(b := Mix(i, r.b, r.c, r.d, r.a, x))
  }

  function Operations(r: Regs, x: seq<Word>, n: nat): Regs
    requires n <= 64 && |x| == 16
  {
    if n == 0 then r else Operation(Operations(r, x, n - 1), x, n - 1)
  }

  function Plus(x: Word, y: Word): Word { x + y }

  function Add(r: Regs, q: Regs): Regs {
    Regs(Plus(q.a, r.a), Plus(q.b, r.b), Plus(q.c, r.c), Plus(q.d, r.d))
  }

  function Compress(r: Regs, x: seq<Word>): Regs
    requires |x| == 16
  {
    Add(r, Operations(r, x, 64))
  }

  // ----- words and blocks

  function Number(b: seq<Byte>): (v: nat)
    requires |b| == 4
    ensures v < 0x1_0000_0000
  {
    var b0: int, b1: int, b2: int, b3: int := b[0], b[1], b[2], b[3];
    b0 + 0x100 * b1 + 0x1_0000 * b2 + 0x100_0000 * b3
  }

  function Word32(b: seq<Byte>): Word
    requires |b| == 4
  {
    Number(b) as Word
  }

  function WordsOf(block: seq<Byte>): (x: seq<Word>)
    requires |block| == 64
    ensures |x| == 16
  {
    seq(16, j requires 0 <= j < 16 => Word32(block[4 * j..4 * j + 4]))
  }

  function AbsorbBlock(r: Regs, block: seq<Byte>): Regs {
    if |block| == 64 then Compress(r, WordsOf(block)) else r
  }

  /** Runs f over the consecutive 64-byte blocks of the data. */
  function FoldBlocks<R>(f: (R, seq<Byte>) -> R, r: R, data: seq<Byte>): R
    requires |data| % 64 == 0
    decreases |data|
  {
    if data == [] then r else FoldBlocks(f, f(r, data[..64]), data[64..])
  }

  function Blocks(r: Regs, data: seq<Byte>): Regs
    requires |data| % 64 == 0
  {
    FoldBlocks(AbsorbBlock, r, data)
  }

  // ----- sections 3.1, 3.2 and 3.5: padding, length, output

  function LittleEndian(v: nat, n: nat): (b: seq<Byte>)
    ensures |b| == n
  {
    if n == 0 then [] else [v % 256] + LittleEndian(v / 256, n - 1)
  }

  function Zeros(n: nat): (z: seq<Byte>)
    ensures |z| == n && forall i :: 0 <= i < n ==> z[i] == 0
  {
    seq(n, _ => 0)
  }

  /** The number of zero bytes after the 0x80 marker: the least that leaves 8 bytes of a block. */
  function ZeroFill(len: nat): (k: nat)
    ensures k < 64 && (len + 1 + k) % 64 == 56
  {
    (119 - len % 64) % 64
  }

  function Pad(msg: seq<Byte>): (p: seq<Byte>)
    ensures |p| % 64 == 0
  {
    assert (|msg| + 1 + ZeroFill(|msg|) + 8) % 64 == 0;
    msg + [0x80] + Zeros(ZeroFill(|msg|)) + LittleEndian(8 * |msg| % 0x1_0000_0000_0000_0000, 8)
  }

  function Output(r: Regs): seq<Byte> {
    LittleEndian(r.a as nat, 4) + LittleEndian(r.b as nat, 4)
    + LittleEndian(r.c as nat, 4) + LittleEndian(r.d as nat, 4)
  }

  function Digest(msg: seq<Byte>): seq<Byte> {
    Output(Blocks(INITIAL, Pad(msg)))
  }

  lemma {:induction false} FoldConcat<R>(f: (R, seq<Byte>) -> R, r: R, p: seq<Byte>, q: seq<Byte>)
    requires |p| % 64 == 0 && |q| % 64 == 0
    ensures FoldBlocks(f, r, p + q) == FoldBlocks(f, FoldBlocks(f, r, p), q)
    decreases |p|
  {
    if p == [] {
      assert p + q == q;
    } else {
      assert (p + q)[..64] == p[..64] && (p + q)[64..] == p[64..] + q;
      FoldConcat(f, f(r, p[..64]), p[64..], q);
    }
  }

  /** Hashing blocks in two goes is hashing them in one. */
  lemma BlocksConcat(r: Regs, p: seq<Byte>, q: seq<Byte>)
    requires |p| % 64 == 0 && |q| % 64 == 0
    ensures Blocks(r, p + q) == Blocks(Blocks(r, p), q)
  {
    hide AbsorbBlock;
    FoldConcat(AbsorbBlock, r, p, q);
  }

  lemma BlocksOne(r: Regs, block: seq<Byte>)
    requires |block| == 64
    ensures Blocks(r, block) == Compress(r, WordsOf(block))
  {
    hide Compress, WordsOf;
    assert block[..64] == block && block[64..] == [];
    assert FoldBlocks(AbsorbBlock, AbsorbBlock(r, block), []) == AbsorbBlock(r, block);
  }

  lemma BlocksNone(r: Regs)
    ensures Blocks(r, []) == r
  {
  }

  lemma CompressAdds(r: Regs, x: seq<Word>)
    requires |x| == 16
    ensures Compress(r, x) == Add(r, Operations(r, x, 64))
  {
    hide Add, Operations;
  }
}
