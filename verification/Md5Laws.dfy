/** What the words and bytes of MD5 are, by position: the functions the code and its specification share. */
module Md5Laws {
  import opened Bytes
  import opened Md5Spec
  import opened Md5

  // ----- the digest, byte by byte

  function Register(r: Regs, i: nat): Word
    requires i < 4
  {
    match i case 0 => r.a case 1 => r.b case 2 => r.c case _ => r.d
  }

  /** Byte j of a 32-bit number, the least significant first. */
  function ByteOf(v: nat, j: nat): (b: nat)
    requires j < 4
    ensures b < 256
  {
    match j case 0 => v % 256 case 1 => v / 0x100 % 256 case 2 => v / 0x1_0000 % 256 case _ => v / 0x100_0000 % 256
  }

  lemma Quotients(v: nat)
    ensures v / 256 / 256 == v / 0x1_0000 && v / 256 / 256 / 256 == v / 0x100_0000
  {
  }

  lemma LittleEndianAt(v: nat, j: nat)
    requires j < 4
    ensures LittleEndian(v, 4)[j] == ByteOf(v, j)
  {
    hide LittleEndian;
    LittleEndian4(v);
    Quotients(v);
  }

  /** Bytes 4 i to 4 i + 3 of the output are the i-th of A, B, C, D, low byte first. */
  lemma OutputAt(r: Regs, i: nat, j: nat)
    requires i < 4 && j < 4
    ensures |Output(r)| == 16 && Output(r)[4 * i + j] == ByteOf(Register(r, i) as nat, j)
  {
    hide LittleEndian, ByteOf;
    LittleEndianAt(Register(r, i) as nat, j);
    assert i == 0 || i == 1 || i == 2 || i == 3;
  }

  lemma DigestAt(msg: seq<Byte>, i: nat, j: nat)
    requires i < 4 && j < 4
    ensures |Digest(msg)| == 16
    ensures Digest(msg)[4 * i + j] == ByteOf(Register(Blocks(INITIAL, Pad(msg)), i) as nat, j)
  {
    hide Output, Blocks, Pad, ByteOf;
    OutputAt(Blocks(INITIAL, Pad(msg)), i, j);
  }

  // ----- rotation, bit by bit

  function BitAt(w: Word, k: Word): Word
    requires k < 32
  {
    (w >> k) & 1
  }

  lemma RotateWords(w: Word, s: Word, k: Word)
    requires 0 < s < 32 && k < 32
    ensures (((w << s) | (w >> (32 - s))) >> k) & 1 == (w >> ((k - s) & 31)) & 1
  {
  }

  /** Bit k of the rotated word is bit k - s, modulo 32, of the word. */
  lemma RotateBits(w: Word, s: Word, k: Word, j: Word)
    requires 0 < s < 32 && k < 32 && j == (k - s) & 31 && j < 32
    ensures BitAt(Rotate(w, s), k) == BitAt(w, j)
  {
    RotateWords(w, s, k);
  }

  // ----- words of a block

  lemma FourBytes(v: nat)
    requires v < TWO32
    ensures v == ByteOf(v, 0) + 0x100 * ByteOf(v, 1) + 0x1_0000 * ByteOf(v, 2) + 0x100_0000 * ByteOf(v, 3)
  {
    assert v / 0x100 / 0x100 == v / 0x1_0000 && v / 0x1_0000 / 0x100 == v / 0x100_0000;
  }

  lemma WordRange(w: Word)
    ensures w as nat < TWO32 && (w as nat) as Word == w
  {
  }

  lemma NumberOf(v: nat)
    requires v < TWO32
    ensures Number(LittleEndian(v, 4)) == v
  {
    hide LittleEndian;
    LittleEndianAt(v, 0);
    LittleEndianAt(v, 1);
    LittleEndianAt(v, 2);
    LittleEndianAt(v, 3);
    FourBytes(v);
    hide ByteOf;
  }

  /** Reading back the four bytes of a word gives the word. */
  lemma WordOfBytes(w: Word)
    ensures Word32(LittleEndian(w as nat, 4)) == w
  {
    hide LittleEndian, Number;
    WordRange(w);
    NumberOf(w as nat);
  }

  /** The bytes of a sequence of words, each low byte first. */
  function BytesOf(x: seq<Word>): (b: seq<Byte>)
    ensures |b| == 4 * |x|
  {
    if x == [] then [] else LittleEndian(x[0] as nat, 4) + BytesOf(x[1..])
  }

  lemma {:induction false} BytesOfAt(x: seq<Word>, i: nat)
    requires i < |x|
    ensures BytesOf(x)[4 * i..4 * i + 4] == LittleEndian(x[i] as nat, 4)
    decreases i
  {
    hide LittleEndian;
    var b, c := LittleEndian(x[0] as nat, 4), BytesOf(x[1..]);
    assert BytesOf(x) == b + c;
    if i > 0 {
      BytesOfAt(x[1..], i - 1);
      assert (b + c)[4 * i..4 * i + 4] == c[4 * (i - 1)..4 * (i - 1) + 4];
    } else {
      assert (b + c)[..4] == b;
    }
  }

  /** The words of a block are the words whose bytes it holds, in order. */
  lemma WordsOfBytes(x: seq<Word>)
    requires |x| == 16
    ensures WordsOf(BytesOf(x)) == x
  {
    hide LittleEndian, BytesOf, Word32;
    forall i | 0 <= i < 16
      ensures WordsOf(BytesOf(x))[i] == x[i]
    {
      BytesOfAt(x, i);
      WordOfBytes(x[i]);
    }
  }
}
