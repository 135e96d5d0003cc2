/** What the base64 codec does to given characters: the alphabet, newlines, pads, and text that is no base64. */
module Base64Laws {
  import opened Bytes
  import opened Base64

  const CAPITALS: string := "ABCDEFGHIJKLMNOPQRSTUVWXYZ"
  const SMALL: string := "abcdefghijklmnopqrstuvwxyz"
  const DIGITS: string := "0123456789"

  /** Letter v of the alphabet of section 6.8 of RFC 2045. */
  function Letter(v: nat): int
    requires v < 64
  {
    if v < 26 then CAPITALS[v] as int else if v < 52 then SMALL[v - 26] as int
    else if v < 62 then DIGITS[v - 52] as int else if v == 62 then '+' as int else '/' as int
  }

  lemma Capital(v: nat)
    requires v < 26
    ensures CAPITALS[v] as int == 65 + v
  {
  }

  lemma Small(v: nat)
    requires v < 26
    ensures SMALL[v] as int == 97 + v
  {
  }

  lemma Numeral(v: nat)
    requires v < 10
    ensures DIGITS[v] as int == 48 + v
  {
  }

  /** The encoder's alphabet, and its pad. */
  lemma Alphabet(v: nat)
    requires v < 64
    ensures Basis(v) == Letter(v) && PAD == '=' as int
  {
    hide CAPITALS, SMALL, DIGITS;
    CaseSizes();
    if v < 26 {
      Capital(v);
    } else if v < 52 {
      Small(v - 26);
    } else if v < 62 {
      Numeral(v - 52);
    }
  }

  lemma CaseSizes()
    ensures |CAPITALS| == 26 && |SMALL| == 26 && |DIGITS| == 10
  {
  }

  /** Only the letters of the alphabet have a value, each its position. */
  lemma IndexIs(c: Byte)
    ensures if Index(c) < 0 then Index(c) == -1 && forall v: nat | v < 64 :: Letter(v) != c
            else Letter(Index(c)) == c
  {
    hide Letter;
    if Index(c) >= 0 {
      Alphabet(Index(c));
      assert Basis(Index(c)) == c;
    } else {
      forall v: nat | v < 64
        ensures Letter(v) != c
      {
        Alphabet(v);
        assert Index(Basis(v)) == v;
      }
    }
  }

  // ----- newlines

  /** Every CR LF replaced by LF, and nothing else changed. */
  function Unix(s: seq<int>): seq<int> {
    if s == [] then []
    else if |s| >= 2 && s[0] == 13 && s[1] == 10 then [10] + Unix(s[2..])
    else [s[0]] + Unix(s[1..])
  }

  lemma UnixStep(c: int, s: seq<int>)
    ensures Unix([c] + s) == if c == 13 && s != [] && s[0] == 10 then [10] + Unix(s[1..]) else [c] + Unix(s)
  {
    var t := [c] + s;
    assert t[1..] == s;
    if s != [] {
      assert t[2..] == s[1..];
    }
  }

  lemma UnixNothing()
    ensures Unix([]) == []
  {
  }

  ghost predicate AreBytes(s: seq<int>) {
    forall i :: 0 <= i < |s| ==> 0 <= s[i] < 256
  }

  /** almostputc with portable newlines, for any bytes: lone CR and lone LF come out as they are. */
  lemma {:induction false} CollapseIs(s: seq<int>, pending: bool)
    requires AreBytes(s)
    ensures Collapse(s, true, pending, true) == Unix((if pending then [13] else []) + s)
    decreases |s|
  {
    hide Collapse, Unix, AlmostPut;
    if s == [] {
      CollapseEnd();
      UnixNothing();
      UnixStep(13, []);
      assert [13] + [] == [13] && [] + s == [];
    } else {
      var c, rest := s[0], s[1..];
      assert s == [c] + rest && [] + s == s && [] + rest == rest;
      CollapseOne(c, rest, true, pending, true);
      CollapseIs(rest, AlmostPut(c, pending, true).pending);
      if pending {
        PutBehindCr(c, rest);
      } else {
        PutFree(c, rest);
      }
    }
  }

  lemma PutFree(c: int, rest: seq<int>)
    requires 0 <= c < 256
    ensures var p := AlmostPut(c, false, true);
            p.out + Unix((if p.pending then [13] else []) + rest) == Unix([c] + rest)
  {
    hide Unix;
    UnixStep(c, rest);
    assert [] + rest == rest;
  }

  lemma PutBehindCr(c: int, rest: seq<int>)
    requires 0 <= c < 256
    ensures var p := AlmostPut(c, true, true);
            p.out + Unix((if p.pending then [13] else []) + rest) == Unix([13] + ([c] + rest))
  {
    hide Unix;
    var s := [c] + rest;
    assert s[1..] == rest && [] + rest == rest;
    UnixStep(13, s);
    UnixStep(c, rest);
    assert [13, c] + Unix(rest) == [13] + ([c] + Unix(rest));
  }

  /** When the text breaks off inside a group, a held-back CR is lost, and nothing else. */
  lemma {:induction false} CollapseUnflushed(s: seq<int>, pending: bool)
    requires AreBytes(s)
    ensures Collapse(s, true, pending, true)
         == Collapse(s, false, pending, true)
            + if (if s == [] then pending else s[|s| - 1] == 13) then [13] else []
    decreases |s|
  {
    hide Collapse;
    CollapseEnd();
    UnflushedEnd(pending);
    if s != [] {
      var c, rest := s[0], s[1..];
      assert s == [c] + rest;
      CollapseOne(c, rest, true, pending, true);
      CollapseOne(c, rest, false, pending, true);
      CollapseUnflushed(rest, AlmostPut(c, pending, true).pending);
    }
  }

  lemma UnflushedEnd(pending: bool)
    ensures Collapse([], false, pending, true) == []
  {
  }

  /** A value below zero, from characters that are no base64, is written as its low byte. */
  lemma PutNegative(c: int, pending: bool, portable: bool)
    requires -256 <= c < 0
    ensures AlmostPut(c, pending, portable) == Put((if pending then [13] else []) + [c + 256], false)
  {
    assert c % 256 == c + 256;
  }

  // ----- groups of four characters

  /** The value of a letter, and all ones for any other character. */
  function Sextet(c: Byte): int {
    if Index(c) < 0 then 255 else Index(c)
  }

  function Ones(i: int): int {
    if i < 0 then 255 else i
  }

  lemma TopTwo(i: int)
    requires -1 <= i < 64
    ensures 0 <= i / 16 % 4 == Ones(i) / 16 % 4 < 4
  {
    if i < 0 {
      assert i / 16 == -1;
    }
  }

  lemma Wrapped(i: int, t: int)
    requires -1 <= i < 64 && 0 <= t < 4
    ensures (4 * i + t) % 256 == 4 * Ones(i) % 256 + t
  {
    if i < 0 {
      assert t == 0 || t == 1 || t == 2 || t == 3;
    }
  }

  lemma Value1Is(i1: int, i2: int)
    requires -1 <= i1 < 64 && -1 <= i2 < 64
    ensures Value1(i1, i2) % 256 == 4 * Ones(i1) % 256 + Ones(i2) / 16 % 4
  {
    hide Ones;
    TopTwo(i2);
    Wrapped(i1, i2 / 16 % 4);
  }

  lemma Value2Is(i2: int, i3: int)
    requires -1 <= i2 < 64 && -1 <= i3 < 64
    ensures Value2(i2, i3) % 256 == Ones(i2) % 16 * 16 + Ones(i3) / 4 % 16
  {
    assert i2 % 16 == Ones(i2) % 16;
    assert i3 / 4 % 16 == Ones(i3) / 4 % 16;
  }

  lemma Value3Is(i3: int, i4: int)
    requires -1 <= i3 < 64 && -1 <= i4 < 64
    ensures Value3(i3, i4) % 256 == if i4 < 0 then 255 else Ones(i3) % 4 * 64 + i4
  {
    assert i3 % 4 == Ones(i3) % 4;
  }

  /** The bytes of a group without pads: the bits of the letters one behind the other. */
  lemma GroupBytes(c1: Byte, c2: Byte, c3: Byte, c4: Byte)
    requires c1 != 61 && c2 != 61 && c3 != 61 && c4 != 61
    ensures var (e1, e2, e3, e4) := (Sextet(c1), Sextet(c2), Sextet(c3), Sextet(c4));
            var g := Group(c1, c2, c3, c4);
            && !g.1 && |g.0| == 3
            && g.0[0] % 256 == 4 * e1 % 256 + e2 / 16 % 4
            && g.0[1] % 256 == e2 % 16 * 16 + e3 / 4 % 16
            && g.0[2] % 256 == if e4 == 255 then 255 else e3 % 4 * 64 + e4
  {
    hide Index, Value1, Value2, Value3;
    Value1Is(Index(c1), Index(c2));
    Value2Is(Index(c2), Index(c3));
    Value3Is(Index(c3), Index(c4));
  }

  lemma PadGroup(c1: Byte, c2: Byte, c3: Byte, c4: Byte)
    requires c1 == 61 || c2 == 61 || c3 == 61 || c4 == 61
    ensures var g := Group(c1, c2, c3, c4);
            && g.1 && |g.0| == (if c1 == 61 || c2 == 61 then 0 else if c3 == 61 then 1 else 2)
            && (c1 != 61 && c2 != 61 ==> g.0[0] % 256 == 4 * Sextet(c1) % 256 + Sextet(c2) / 16 % 4)
            && (c1 != 61 && c2 != 61 && c3 != 61 ==> g.0[1] % 256 == Sextet(c2) % 16 * 16 + Sextet(c3) / 4 % 16)
  {
    hide Index, Value1, Value2, Value3;
    Value1Is(Index(c1), Index(c2));
    Value2Is(Index(c2), Index(c3));
  }

  /** A pad ends the data: what is behind it is ignored, and it cuts the group to two, one or no bytes. */
  lemma PadEnds(q: seq<Byte>, rest: seq<Byte>)
    requires |q| == 4 && (q[0] == 61 || q[1] == 61 || q[2] == 61 || q[3] == 61)
    ensures Groups(q + rest) == Group(q[0], q[1], q[2], q[3])
  {
    hide Groups, Group;
    var s := q + rest;
    assert s[0] == q[0] && s[1] == q[1] && s[2] == q[2] && s[3] == q[3];
    PadGroup(q[0], q[1], q[2], q[3]);
    GroupsUnfold(s);
  }

  ghost predicate NoPad(u: seq<Byte>) {
    forall i :: 0 <= i < |u| ==> u[i] != 61
  }

  /** Whole groups without pads are decoded one after the other. */
  lemma {:induction false} GroupsConcat(u: seq<Byte>, v: seq<Byte>)
    requires |u| % 4 == 0 && NoPad(u)
    ensures Groups(u).1 && Groups(u + v) == (Groups(u).0 + Groups(v).0, Groups(v).1)
    decreases |u|
  {
    hide Groups, Group;
    GroupsNothing();
    if u == [] {
      assert u + v == v && [] + Groups(v).0 == Groups(v).0;
      assert Groups(u) == ([], true) && Groups(v) == (Groups(v).0, Groups(v).1);
    } else {
      var s := u + v;
      assert s[0] == u[0] && s[1] == u[1] && s[2] == u[2] && s[3] == u[3] && s[4..] == u[4..] + v;
      GroupsUnfold(s);
      GroupsUnfold(u);
      GroupGoesOn(u[0], u[1], u[2], u[3]);
      GroupsConcat(u[4..], v);
      var vals, a, b := Group(u[0], u[1], u[2], u[3]).0, Groups(u[4..]).0, Groups(v).0;
      assert vals + (a + b) == vals + a + b;
    }
  }

  lemma GroupsNothing()
    ensures Groups([]) == ([], true)
  {
  }

  lemma GroupGoesOn(c1: Byte, c2: Byte, c3: Byte, c4: Byte)
    requires c1 != 61 && c2 != 61 && c3 != 61 && c4 != 61
    ensures !Group(c1, c2, c3, c4).1
  {
  }

  /** A group cut short is dropped, and with it the final flush. */
  lemma CutShort(u: seq<Byte>, r: seq<Byte>)
    requires |u| % 4 == 0 && NoPad(u) && 1 <= |r| <= 3
    ensures Groups(u + r) == (Groups(u).0, false)
  {
    hide Groups;
    GroupsConcat(u, r);
    ShortGroup(r);
    assert Groups(u).0 + [] == Groups(u).0;
  }

  lemma ShortGroup(r: seq<Byte>)
    requires 1 <= |r| <= 3
    ensures Groups(r) == ([], false)
  {
  }

  lemma LoneNewlineGroup()
    ensures Group(89, 81, 112, 105) == ([97, 10, 98], false)
  {
    assert Index(89) == 24 && Index(81) == 16 && Index(112) == 41 && Index(105) == 34;
    hide Index;
    assert Value1(24, 16) == 97 && Value2(16, 41) == 10 && Value3(41, 34) == 98;
  }

  lemma LoneNewlineText()
    ensures Groups(Strip([89, 81, 112, 105])) == ([97, 10, 98], true)
  {
    var t: seq<Byte> := [89, 81, 112, 105];
    StripText(t);
    hide Groups, Group, Strip;
    LoneNewlineGroup();
    GroupsUnfold(t);
    GroupsNothing();
    assert t[4..] == [] && [97, 10, 98] + [] == [97, 10, 98];
  }

  lemma UnixUnchanged()
    ensures Unix([97, 10, 98]) == [97, 10, 98]
  {
    hide Unix;
    UnixNothing();
    assert [98] == [98] + [] && [10, 98] == [10] + [98] && [97, 10, 98] == [97] + [10, 98];
    UnixStep(98, []);
    UnixStep(10, [98]);
    UnixStep(97, [10, 98]);
  }

  /** "YQpi" is "a", newline, "b", with portable newlines or without. */
  lemma LoneNewline(portable: bool)
    ensures Decode(['Y' as int, 'Q' as int, 'p' as int, 'i' as int], portable) == ['a' as int, '\n' as int, 'b' as int]
  {
    hide Groups, Strip, Collapse, Unix;
    LoneNewlineText();
    if portable {
      CollapseIs([97, 10, 98], false);
      UnixUnchanged();
      assert [] + [97, 10, 98] == [97, 10, 98];
    } else {
      CollapsePlain([97, 10, 98]);
    }
  }
}
