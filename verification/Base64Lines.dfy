/** Line wrapping of `to64`: the plain base64 text, cut into lines of 72 characters. */
module Base64Lines {
  import opened Bytes
  import opened Base64
  import opened BitNat

  const WIDTH: nat := 72

  /** One chunk after the other, without line breaks. */
  function Plain(u: seq<Byte>): seq<Byte>
    decreases |u|
  {
    if u == [] then [] else FirstChunk(u) + Plain(AfterChunk(u))
  }

  /** Text in lines of WIDTH characters, the last one shorter, each closed by a line break. */
  function Wrapped(t: seq<Byte>): seq<Byte>
    decreases |t|
  {
    if t == [] then []
    else if |t| <= WIDTH then t + [LF]
    else t[..WIDTH] + [LF] + Wrapped(t[WIDTH..])
  }

  /** The same when the current line already holds ct characters. */
  function WrappedFrom(t: seq<Byte>, ct: nat): seq<Byte>
    requires ct < WIDTH
  {
    if |t| <= WIDTH - ct then if t == [] && ct == 0 then [] else t + [LF]
    else t[..WIDTH - ct] + [LF] + Wrapped(t[WIDTH - ct..])
  }

  lemma WrapChunk(q: seq<Byte>, t: seq<Byte>, ct: nat)
    requires |q| == 4 && ct < WIDTH && ct % 4 == 0
    ensures WrappedFrom(q + t, ct) ==
            if ct + 4 == WIDTH then q + [LF] + Wrapped(t) else q + WrappedFrom(t, ct + 4)
  {
    hide Wrapped;
    var s := q + t;
    if ct + 4 == WIDTH {
      if t == [] {
        WrapNothing();
        assert s == q;
      } else {
        assert s[..4] == q && s[4..] == t;
      }
    } else if |s| <= WIDTH - ct {
      assert s + [LF] == q + (t + [LF]);
    } else {
      var k := WIDTH - ct;
      assert s[..k] == q + t[..k - 4] && s[k..] == t[k - 4..];
    }
  }

  lemma WrapNothing()
    ensures Wrapped([]) == []
  {
  }

  lemma WrapFromStart(t: seq<Byte>)
    ensures WrappedFrom(t, 0) == Wrapped(t)
  {
  }

  lemma WrapsNothing(ct: nat)
    requires ct < WIDTH
    ensures Encode([], ct) == WrappedFrom(Plain([]), ct)
  {
    hide Wrapped;
    EncodeNothing(ct);
  }

  lemma {:induction false} EncodeWrapsFrom(u: seq<Byte>, ct: nat)
    requires ct < WIDTH && ct % 4 == 0
    ensures Encode(u, ct) == WrappedFrom(Plain(u), ct)
    decreases |u|
  {
    hide FirstChunk, Wrapped, AfterChunk, Encode, WrappedFrom, Plain;
    if u == [] {
      WrapsNothing(ct);
    } else {
      EncodeUnfold(u, ct);
      PlainStep(u);
      var q, rest := FirstChunk(u), AfterChunk(u);
      WrapChunk(q, Plain(rest), ct);
      if ct + 4 == WIDTH {
        EncodeWrapsFrom(rest, 0);
        WrapFromStart(Plain(rest));
      } else {
        EncodeWrapsFrom(rest, ct + 4);
      }
    }
  }

  lemma PlainStep(u: seq<Byte>)
    requires u != []
    ensures Plain(u) == FirstChunk(u) + Plain(AfterChunk(u))
  {
    hide FirstChunk;
  }

  /** to64 writes the plain base64 text of the translated input in lines of 72 characters. */
  lemma EncodeWraps(u: seq<Byte>)
    ensures Encode(u, 0) == Wrapped(Plain(u))
  {
    EncodeWrapsFrom(u, 0);
    WrapFromStart(Plain(u));
  }

  /** Four characters for every three bytes or part of them, none of them white space. */
  lemma {:induction false} PlainText(u: seq<Byte>)
    ensures |Plain(u)| == (|u| + 2) / 3 * 4
    ensures forall i :: 0 <= i < |Plain(u)| ==> !IsSpace(Plain(u)[i])
    decreases |u|
  {
    hide FirstChunk, IsSpace;
    if u != [] {
      PlainText(AfterChunk(u));
    }
  }

  /** Plain base64 text is built from the left, three bytes at a time. */
  lemma {:induction false} PlainConcat(u: seq<Byte>, v: seq<Byte>)
    requires |u| % 3 == 0
    ensures Plain(u + v) == Plain(u) + Plain(v)
    decreases |u|
  {
    if u == [] {
      assert u + v == v;
    } else {
      hide Chunk;
      var w := u + v;
      assert AfterChunk(w) == AfterChunk(u) + v;
      PlainConcat(AfterChunk(u), v);
    }
  }

  // ----- the plain text, letter by letter

  /** Bit k of the input, the first byte's most significant bit first, and zeros behind the end. */
  predicate InputBit(u: seq<Byte>, k: nat) {
    k / 8 < |u| && Bit(u[k / 8], 7 - k % 8)
  }

  /** Bits 6 i to 6 i + 5 of the input as a number. */
  function Sextet(u: seq<Byte>, i: nat): (v: nat)
    ensures v < 64
  {
    var bits := seq(6, t requires 0 <= t < 6 => InputBit(u, 6 * i + t));
    BitValueBound(bits);
    assert Pow2(6) == 64;
    BitValue(bits)
  }

  /** The byte at position j, zero behind the end. */
  function ByteAt(u: seq<Byte>, j: nat): Byte {
    if j < |u| then u[j] else 0
  }

  lemma InputBitOfByte(u: seq<Byte>, j: nat, t: nat)
    requires t < 8
    ensures InputBit(u, 8 * j + t) == MsbFirst(ByteAt(u, j), 8)[t]
  {
    hide Bit;
    assert (8 * j + t) / 8 == j && (8 * j + t) % 8 == t;
    BitOfZero(7 - t);
  }

  /** The front and the back of a byte. */
  lemma SplitByte(x: Byte, k: nat, p: nat)
    requires k <= 8 && p == Pow2(8 - k)
    ensures x == BitValue(MsbFirst(x, 8)[..k]) * p + BitValue(MsbFirst(x, 8)[k..]) && BitValue(MsbFirst(x, 8)[k..]) < p
  {
    assert Pow2(8) == 256;
    hide Bit, BitValue, Pow2;
    var s := MsbFirst(x, 8);
    MsbFirstValue(x, 8);
    assert s == s[..k] + s[k..];
    BitValueConcat(s[..k], s[k..]);
    BitValueBound(s[k..]);
  }

  /** A sextet made of the last m bits of byte j and the first 6 - m of the next. */
  lemma SextetSpans(u: seq<Byte>, i: nat, j: nat, m: nat)
    requires m <= 6 && 6 * i == 8 * j + 8 - m
    ensures Sextet(u, i) == BitValue(MsbFirst(ByteAt(u, j), 8)[8 - m..]) * Pow2(6 - m)
                            + BitValue(MsbFirst(ByteAt(u, j + 1), 8)[..6 - m])
  {
    hide Bit, BitValue, Pow2, InputBit;
    var p, q := MsbFirst(ByteAt(u, j), 8)[8 - m..], MsbFirst(ByteAt(u, j + 1), 8)[..6 - m];
    var bits := seq(6, t requires 0 <= t < 6 => InputBit(u, 6 * i + t));
    forall t | 0 <= t < 6
      ensures bits[t] == (p + q)[t]
    {
      if t < m {
        InputBitOfByte(u, j, 8 - m + t);
      } else {
        InputBitOfByte(u, j + 1, t - m);
      }
    }
    assert bits == p + q;
    BitValueConcat(p, q);
  }

  /** A sextet inside one byte. */
  lemma SextetWithin(u: seq<Byte>, i: nat, j: nat, k: nat)
    requires k <= 2 && 6 * i == 8 * j + k
    ensures Sextet(u, i) == BitValue(MsbFirst(ByteAt(u, j), 8)[k..k + 6])
  {
    hide Bit, BitValue, InputBit;
    var bits := seq(6, t requires 0 <= t < 6 => InputBit(u, 6 * i + t));
    forall t | 0 <= t < 6
      ensures bits[t] == MsbFirst(ByteAt(u, j), 8)[k..k + 6][t]
    {
      InputBitOfByte(u, j, k + t);
    }
    assert bits == MsbFirst(ByteAt(u, j), 8)[k..k + 6];
  }

  lemma SplitSix(x: Byte)
    ensures BitValue(MsbFirst(x, 8)[..6]) == x / 4 && BitValue(MsbFirst(x, 8)[6..]) == x % 4
  {
    assert Pow2(2) == 4;
    hide Pow2, BitValue, MsbFirst;
    SplitByte(x, 6, 4);
  }

  lemma SplitFour(x: Byte)
    ensures BitValue(MsbFirst(x, 8)[..4]) == x / 16 && BitValue(MsbFirst(x, 8)[4..]) == x % 16
  {
    assert Pow2(4) == 16;
    hide Pow2, BitValue, MsbFirst;
    SplitByte(x, 4, 16);
  }

  lemma SplitTwo(x: Byte)
    ensures BitValue(MsbFirst(x, 8)[..2]) == x / 64 && BitValue(MsbFirst(x, 8)[2..]) == x % 64
  {
    assert Pow2(6) == 64;
    hide Pow2, BitValue, MsbFirst;
    SplitByte(x, 2, 64);
  }

  lemma FirstSextets(u: seq<Byte>)
    ensures var a, b, c := ByteAt(u, 0), ByteAt(u, 1), ByteAt(u, 2);
            && Sextet(u, 0) == a / 4 && Sextet(u, 1) == (a % 4) * 16 + b / 16
            && Sextet(u, 2) == (b % 16) * 4 + c / 64 && Sextet(u, 3) == c % 64
  {
    assert Pow2(2) == 4 && Pow2(4) == 16;
    hide Pow2, BitValue, MsbFirst, ByteAt, Sextet;
    var a, b, c := ByteAt(u, 0), ByteAt(u, 1), ByteAt(u, 2);
    SplitSix(a);
    SplitFour(b);
    SplitTwo(c);
    SextetWithin(u, 0, 0, 0);
    SextetSpans(u, 1, 0, 2);
    SextetSpans(u, 2, 1, 4);
    SextetWithin(u, 3, 2, 2);
    assert MsbFirst(a, 8)[0..6] == MsbFirst(a, 8)[..6] && MsbFirst(c, 8)[2..8] == MsbFirst(c, 8)[2..];
  }

  lemma ShiftedBit(u: seq<Byte>, k: nat)
    requires |u| > 3
    ensures InputBit(u, k + 24) == InputBit(u[3..], k)
  {
    hide Bit;
    assert (k + 24) / 8 == k / 8 + 3 && (k + 24) % 8 == k % 8;
  }

  lemma ShiftedSextet(u: seq<Byte>, i: nat)
    requires |u| > 3
    ensures Sextet(u, i + 4) == Sextet(u[3..], i)
  {
    hide InputBit, BitValue;
    var s := seq(6, t requires 0 <= t < 6 => InputBit(u, 6 * (i + 4) + t));
    var r := seq(6, t requires 0 <= t < 6 => InputBit(u[3..], 6 * i + t));
    forall t | 0 <= t < 6
      ensures s[t] == r[t]
    {
      ShiftedBit(u, 6 * i + t);
    }
    assert s == r;
  }

  lemma ChunkLetters(u: seq<Byte>, i: nat)
    requires u != [] && i < 4
    ensures FirstChunk(u)[i] == if 6 * i < 8 * |u| then Basis(Sextet(u, i)) else PAD
  {
    hide Sextet, Basis;
    FirstSextets(u);
    assert i == 0 || i == 1 || i == 2 || i == 3;
  }

  /** Character i is the letter for bits 6 i to 6 i + 5 of the input, or a pad if all of them lie behind
      its end: section 4 of RFC 4648. */
  lemma {:induction false} PlainLetters(u: seq<Byte>, i: nat)
    requires i < |Plain(u)|
    ensures Plain(u)[i] == if 6 * i < 8 * |u| then Basis(Sextet(u, i)) else PAD
    decreases |u|
  {
    hide Sextet, FirstChunk, Basis, Plain;
    PlainText(u);
    PlainStep(u);
    if i < 4 {
      ChunkLetters(u, i);
    } else {
      PlainText(AfterChunk(u));
      ShiftedSextet(u, i - 4);
      PlainLetters(AfterChunk(u), i - 4);
    }
  }
}
