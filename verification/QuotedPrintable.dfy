/** The quoted-printable codec of mmencode: `toqp` and `fromqp` (section 6.7 of RFC 2045). */
module QuotedPrintable {
  import opened Bytes

  const TAB: Byte := 9
  const BLANK: Byte := 32
  const DOT: Byte := 46
  const EQ: Byte := 61
  const FROM: seq<Byte> := [70, 114, 111, 109, 32]            // "From "
  const QUOTED_FROM: seq<Byte> := [61, 52, 54, 114, 111, 109]  // "=46rom"
  const SOFT_BREAK: seq<Byte> := [61, 10]

  predicate IsBlank(c: int) {
    c == BLANK || c == TAB
  }

  function HexDigit(v: nat): Byte
    requires v < 16
  {
    if v < 10 then 48 + v else 55 + v
  }

  /** `hexchar`, on characters and on EOF seen through an unsigned variable. */
  function HexValue(c: int): int {
    if 48 <= c <= 57 then c - 48
    else if 65 <= c <= 70 then c - 55
    else if 97 <= c <= 102 then c - 87
    else -1
  }

  /** The low byte of `c1<<4 | c2`, where -1 stands for all ones. */
  function HexByte(h1: int, h2: int): Byte
    requires -1 <= h1 < 16 && -1 <= h2 < 16
  {
    if h2 == -1 then 255 else if h1 == -1 then 240 + h2 else 16 * h1 + h2
  }

  function Quoted(c: Byte): seq<Byte> {
    [EQ, HexDigit(c / 16), HexDigit(c % 16)]
  }

  predicate MustQuote(c: Byte, ct: nat) {
    || (c < 32 && c != LF && c != TAB)
    || c == EQ
    || c >= 127
    || (ct == 0 && c == DOT)
  }

  // ----- what one turn of toqp's loop does

  datatype Turn = Turn(out: seq<Byte>, used: nat, ct: nat, prev: int)

  /** How much of "From" the input starts with. */
  function FromMatch(s: seq<Byte>): nat {
    if |s| < 2 || s[1] != FROM[1] then 1
    else if |s| < 3 || s[2] != FROM[2] then 2
    else if |s| < 4 || s[3] != FROM[3] then 3
    else 4
  }

  function FromTurn(s: seq<Byte>, ct: nat): (t: Turn)
    requires s != [] && s[0] == FROM[0]
    ensures 1 <= t.used <= |s| && t.prev == 120
  {
    var m := FromMatch(s);
    if m == 4 && |s| > 4 && s[4] == BLANK then Turn(QUOTED_FROM, 4, ct + 6, 120)
    else Turn(s[..m], m, ct + m, 120)
  }

  function PlainTurn(s: seq<Byte>, ct: nat, prev: int): (t: Turn)
    requires s != []
    ensures 1 <= t.used <= |s|
  {
    var c := s[0];
    if MustQuote(c, ct) then Turn(Quoted(c), 1, ct + 3, 65)
    else if c == LF then Turn((if IsBlank(prev) then SOFT_BREAK else []) + [LF], 1, 0, LF)
    else if c == FROM[0] && prev == LF then FromTurn(s, ct)
    else Turn([c], 1, ct + 1, c)
  }

  function LoopTurn(s: seq<Byte>, ct: nat, prev: int): (t: Turn)
    requires s != []
    ensures 1 <= t.used <= |s|
  {
    var t := PlainTurn(s, ct, prev);
    if t.ct > 72 then Turn(t.out + SOFT_BREAK, t.used, 0, LF) else t
  }

  function Encode(s: seq<Byte>, ct: nat, prev: int): seq<Byte>
    decreases |s|
  {
    if s == [] then if ct > 0 then SOFT_BREAK else []
    else
      var t := LoopTurn(s, ct, prev);
      t.out + Encode(s[t.used..], t.ct, t.prev)
  }

  lemma EncodeTurn(s: seq<Byte>, ct: nat, prev: int)
    requires s != []
    ensures var t := LoopTurn(s, ct, prev);
            Encode(s, ct, prev) == t.out + Encode(s[t.used..], t.ct, t.prev)
  {
    hide LoopTurn;
  }

  lemma EncodeEnd(ct: nat, prev: int)
    ensures Encode([], ct, prev) == if ct > 0 then SOFT_BREAK else []
  {
  }

  lemma Regroup(a: seq<Byte>, b: seq<Byte>, c: seq<Byte>)
    ensures (a + b) + c == a + (b + c)
  {
  }

  // ----- toqp

  method Getc(s: seq<Byte>, pos: nat) returns (c: int, next: nat)
    requires pos <= |s|
    ensures pos <= next <= |s|
    ensures if pos < |s| then c == s[pos] && next == pos + 1 else c == EOF && next == pos
  {
    if pos < |s| { c, next := s[pos], pos + 1; } else { c, next := EOF, pos; }
  }

  /** The look-ahead for "From " behind an F at the start of a line, with its one-character pushback. */
  method FromHack(s: seq<Byte>, at: nat, ct: nat) returns (out: seq<Byte>, pos: nat, ct': nat)
    requires at < |s| && s[at] == FROM[0]
    ensures var t := FromTurn(s[at..], ct); out == t.out && pos == at + t.used && ct' == t.ct
  {
    var c;
    c, pos := Getc(s, at + 1);
    if c == FROM[1] {
      c, pos := Getc(s, pos);
      if c == FROM[2] {
        c, pos := Getc(s, pos);
        if c == FROM[3] {
          c, pos := Getc(s, pos);
          if c == BLANK {
            out, ct' := QUOTED_FROM, ct + 6;
          } else {
            out, ct' := FROM[..4], ct + 4;
          }
        } else {
          out, ct' := FROM[..3], ct + 3;
        }
      } else {
        out, ct' := FROM[..2], ct + 2;
      }
    } else {
      out, ct' := FROM[..1], ct + 1;
    }
    if c != EOF {
      pos := pos - 1;          // ungetc
    }
  }

  /** `toqp`. */
  method ToQp(s: seq<Byte>) returns (out: seq<Byte>)
    ensures out == Encode(s, 0, 255)
  {
    hide Encode, FromTurn;
    out := [];
    var ct, prevc, pos := 0, 255, 0;
    assert s[0..] == s;
    while pos < |s|
      invariant 0 <= pos <= |s| && 0 <= ct
      invariant out + Encode(s[pos..], ct, prevc) == Encode(s, 0, 255)
    {
      ghost var before, rest, t := out, s[pos..], LoopTurn(s[pos..], ct, prevc);
      EncodeTurn(rest, ct, prevc);
      var c := s[pos];
      if MustQuote(c, ct) {
        out := out + [EQ] + [HexDigit(c / 16)] + [HexDigit(c % 16)];
        ct := ct + 3;
        prevc := 65;
        pos := pos + 1;
      } else if c == LF {
        if IsBlank(prevc) {
          out := out + [EQ] + [c];
        }
        out := out + [c];
        ct := 0;
        prevc := c;
        pos := pos + 1;
      } else if c == FROM[0] && prevc == LF {
        var piece;
        piece, pos, ct := FromHack(s, pos, ct);
        out := out + piece;
        prevc := 120;
      } else {
        out := out + [c];
        ct := ct + 1;
        prevc := c;
        pos := pos + 1;
      }
      if ct > 72 {
        out := out + [EQ] + [LF];
        ct := 0;
        prevc := LF;
      }
      assert ct == t.ct && prevc == t.prev;
      assert s[pos..] == rest[t.used..];
      assert out == before + t.out;
      Regroup(before, t.out, Encode(s[pos..], ct, prevc));
    }
    EncodeEnd(ct, prevc);
    assert s[pos..] == [];
    if ct > 0 {
      out := out + [EQ] + [LF];
    }
  }

  // ----- fromqp, without boundaries

  function Decode(t: seq<Byte>, need: bool): seq<Byte>
    decreases |t|
  {
    if t == [] then if need then [LF] else []
    else
      (if need then [LF] else []) +
      if t[0] == EQ then
        if |t| > 1 && t[1] == LF then Decode(t[2..], false)
        else
          var c1 := if |t| > 1 then t[1] else EOF;
          var c2 := if |t| > 2 then t[2] else EOF;
          [HexByte(HexValue(c1), HexValue(c2))] + Decode(if |t| > 3 then t[3..] else [], false)
      else if t[0] == LF then Decode(t[1..], true)
      else [t[0]] + Decode(t[1..], false)
  }

  /** `fromqp` with boundaries == NULL, the way mmencode calls it. */
  method FromQp(t: seq<Byte>) returns (out: seq<Byte>)
    ensures out == Decode(t, false)
  {
    hide Decode;
    out := [];
    var neednewline, pos := false, 0;
    assert t[0..] == t;
    while pos < |t|
      invariant 0 <= pos <= |t|
      invariant out + Decode(t[pos..], neednewline) == Decode(t, false)
    {
      ghost var before, rest := out, t[pos..];
      if neednewline {
        LazyNewline(rest);
        out := out + [LF];
        neednewline := false;
        Regroup(before, [LF], Decode(rest, false));
      }
      assert out + Decode(rest, false) == Decode(t, false);
      DecodeTurn(rest);
      before := out;
      var c1: int, c2: int;
      c1, pos := Getc(t, pos);
      if c1 == EQ {
        c1, pos := Getc(t, pos);
        if c1 != LF {
          c2, pos := Getc(t, pos);
          c1, c2 := HexValue(c1), HexValue(c2);
          out := out + [HexByte(c1, c2)];
          assert t[pos..] == if |rest| > 3 then rest[3..] else [];
          Regroup(before, [HexByte(c1, c2)], Decode(t[pos..], false));
        } else {
          assert t[pos..] == rest[2..];
        }
      } else if c1 == LF {
        neednewline := true;
        assert t[pos..] == rest[1..];
      } else {
        out := out + [c1];
        assert t[pos..] == rest[1..];
        Regroup(before, [c1], Decode(t[pos..], false));
      }
    }
    assert t[pos..] == [];
    DecodeEnd(neednewline);
    if neednewline {
      out := out + [LF];
    }
  }

  lemma DecodeTurn(t: seq<Byte>)
    requires t != []
    ensures Decode(t, false) ==
            if t[0] == EQ then
              if |t| > 1 && t[1] == LF then Decode(t[2..], false)
              else
                var c1 := if |t| > 1 then t[1] else EOF;
                var c2 := if |t| > 2 then t[2] else EOF;
                [HexByte(HexValue(c1), HexValue(c2))] + Decode(if |t| > 3 then t[3..] else [], false)
            else if t[0] == LF then Decode(t[1..], true)
            else [t[0]] + Decode(t[1..], false)
  {
  }

  lemma DecodeEnd(need: bool)
    ensures Decode([], need) == if need then [LF] else []
  {
  }

  // ----- the round trip

  lemma LazyNewline(t: seq<Byte>)
    ensures Decode(t, true) == [LF] + Decode(t, false)
  {
  }

  lemma DecodeQuoted(c: Byte, rest: seq<Byte>)
    ensures Decode(Quoted(c) + rest, false) == [c] + Decode(rest, false)
  {
    var t := Quoted(c) + rest;
    assert t[3..] == rest;
    assert HexValue(HexDigit(c / 16)) == c / 16 && HexValue(HexDigit(c % 16)) == c % 16;
  }

  lemma DecodeSoftBreak(rest: seq<Byte>)
    ensures Decode(SOFT_BREAK + rest, false) == Decode(rest, false)
  {
    assert (SOFT_BREAK + rest)[2..] == rest;
  }

  lemma {:induction false} DecodeLiteral(p: seq<Byte>, rest: seq<Byte>)
    requires EQ !in p && LF !in p
    ensures Decode(p + rest, false) == p + Decode(rest, false)
  {
    hide Decode;
    if p == [] {
      assert p + rest == rest;
    } else {
      assert (p + rest)[1..] == p[1..] + rest;
      DecodeTurn(p + rest);
      DecodeLiteral(p[1..], rest);
      assert [p[0]] + p[1..] == p;
    }
  }

  lemma DecodeFromTurn(s: seq<Byte>, ct: nat, rest: seq<Byte>)
    requires s != [] && s[0] == FROM[0]
    ensures var t := FromTurn(s, ct); Decode(t.out + rest, false) == s[..t.used] + Decode(rest, false)
  {
    hide Decode;
    var t := FromTurn(s, ct);
    if t.out == QUOTED_FROM {
      var tail := FROM[1..4];
      assert tail == [114, 111, 109];
      assert QUOTED_FROM + rest == Quoted(FROM[0]) + (tail + rest);
      DecodeQuoted(FROM[0], tail + rest);
      DecodeLiteral(tail, rest);
      assert s[..4] == [FROM[0]] + tail;
    } else {
      DecodeLiteral(t.out, rest);
    }
  }

  /** Decoding what one turn emits gives back what that turn consumed. */
  lemma DecodePlainTurn(s: seq<Byte>, ct: nat, prev: int, rest: seq<Byte>)
    requires s != []
    ensures var t := PlainTurn(s, ct, prev); Decode(t.out + rest, false) == s[..t.used] + Decode(rest, false)
  {
    var c := s[0];
    if MustQuote(c, ct) {
      DecodeQuoted(c, rest);
    } else if c == LF {
      LazyNewline(rest);
      assert ([LF] + rest)[1..] == rest;
      if IsBlank(prev) {
        assert SOFT_BREAK + [LF] + rest == SOFT_BREAK + ([LF] + rest);
        DecodeSoftBreak([LF] + rest);
      } else {
        assert [] + [LF] + rest == [LF] + rest;
      }
    } else if c == FROM[0] && prev == LF {
      DecodeFromTurn(s, ct, rest);
    } else {
      DecodeLiteral([c], rest);
    }
  }

  /** fromqp(toqp(s)) == s, from every state of the encoder's loop. */
  lemma {:induction false} RoundTripFrom(s: seq<Byte>, ct: nat, prev: int)
    ensures Decode(Encode(s, ct, prev), false) == s
    decreases |s|
  {
    hide Decode, PlainTurn, Encode;
    if s == [] {
      assert SOFT_BREAK + [] == SOFT_BREAK;
      DecodeSoftBreak([]);
      DecodeEnd(false);
      EncodeEnd(ct, prev);
    } else {
      var p, t := PlainTurn(s, ct, prev), LoopTurn(s, ct, prev);
      var rest := Encode(s[t.used..], t.ct, t.prev);
      EncodeTurn(s, ct, prev);
      RoundTripFrom(s[t.used..], t.ct, t.prev);
      if p.ct > 72 {
        assert t.out + rest == p.out + (SOFT_BREAK + rest);
        DecodePlainTurn(s, ct, prev, SOFT_BREAK + rest);
        DecodeSoftBreak(rest);
      } else {
        DecodePlainTurn(s, ct, prev, rest);
      }
      assert s == s[..t.used] + s[t.used..];
    }
  }

  lemma RoundTrip(s: seq<Byte>)
    ensures Decode(Encode(s, 0, 255), false) == s
  {
    RoundTripFrom(s, 0, 255);
  }
}
