/** What the quoted-printable codec does to given characters: hexadecimal spellings and text that needs no quoting. */
module QuotedLaws {
  import opened Bytes
  import opened QuotedPrintable

  const UPPER: string := "0123456789ABCDEF"
  const LOWER: string := "0123456789abcdef"

  lemma Characters()
    ensures LF == '\n' as int && TAB == '\t' as int && BLANK == ' ' as int && DOT == '.' as int && EQ == '=' as int
    ensures SOFT_BREAK == ['=' as int, '\n' as int]
    ensures FROM == ['F' as int, 'r' as int, 'o' as int, 'm' as int, ' ' as int]
    ensures QUOTED_FROM == ['=' as int, '4' as int, '6' as int, 'r' as int, 'o' as int, 'm' as int]
  {
  }

  // ----- hexadecimal digits

  /** c is a spelling of the digit x. */
  predicate Spells(c: Byte, x: nat)
    requires x < 16
  {
    c == UPPER[x] as int || c == LOWER[x] as int
  }

  predicate IsHex(c: Byte) {
    exists x: nat :: x < 16 && Spells(c, x)
  }

  lemma SpelledValue(c: Byte, x: nat)
    requires x < 16 && Spells(c, x)
    ensures HexValue(c) == x && c != LF && c != EQ
  {
  }

  lemma NoValue(c: Byte)
    ensures HexValue(c) < 0 <==> !IsHex(c)
    ensures HexValue(c) < 0 ==> HexValue(c) == -1
  {
    if 0 <= HexValue(c) {
      var x := HexValue(c);
      assert x < 16 && Spells(c, x);
    } else if x: nat :| x < 16 && Spells(c, x) {
      SpelledValue(c, x);
    }
  }

  /** The encoder writes its digits in upper case. */
  lemma QuotedDigits(c: Byte)
    ensures Quoted(c) == ['=' as int, UPPER[c / 16] as int, UPPER[c % 16] as int]
  {
    UpperDigit(c / 16);
    UpperDigit(c % 16);
  }

  lemma UpperDigit(v: nat)
    requires v < 16
    ensures HexDigit(v) == UPPER[v] as int
  {
  }

  lemma DecodeHex(h: Byte, l: Byte, rest: seq<Byte>)
    requires h != LF
    ensures Decode([EQ, h, l] + rest, false) == [HexByte(HexValue(h), HexValue(l))] + Decode(rest, false)
  {
    hide Decode;
    var t := [EQ, h, l] + rest;
    assert t[0] == EQ && t[1] == h && t[2] == l && t[3..] == rest;
    DecodeTurn(t);
    if |t| == 3 {
      assert rest == [];
    }
  }

  /** Two digits, in either case, stand for the byte they spell. */
  lemma DecodeSpelled(h: Byte, l: Byte, x: nat, y: nat, rest: seq<Byte>)
    requires x < 16 && y < 16 && Spells(h, x) && Spells(l, y)
    ensures Decode([EQ, h, l] + rest, false) == [16 * x + y] + Decode(rest, false)
  {
    hide Decode;
    SpelledValue(h, x);
    SpelledValue(l, y);
    DecodeHex(h, l, rest);
  }

  /** A first character that is no digit counts as all ones; a second one makes the byte all ones. */
  lemma DecodeMisspelled(h: Byte, l: Byte, rest: seq<Byte>)
    requires h != LF
    ensures !IsHex(l) ==> Decode([EQ, h, l] + rest, false) == [0xFF] + Decode(rest, false)
    ensures !IsHex(h) ==> forall y: nat | y < 16 && Spells(l, y) ::
              Decode([EQ, h, l] + rest, false) == [0xF0 + y] + Decode(rest, false)
  {
    hide Decode, IsHex;
    NoValue(h);
    NoValue(l);
    DecodeHex(h, l, rest);
    forall y: nat | y < 16 && Spells(l, y) && !IsHex(h)
      ensures Decode([EQ, h, l] + rest, false) == [0xF0 + y] + Decode(rest, false)
    {
      SpelledValue(l, y);
    }
  }

  /** So does a digit that is missing at the end of the text. */
  lemma DecodeCutShort(h: Byte)
    requires h != LF
    ensures Decode([EQ], false) == [0xFF] && Decode([EQ, h], false) == [0xFF]
  {
    hide Decode;
    DecodeTurn([EQ]);
    DecodeTurn([EQ, h]);
    DecodeEnd(false);
  }

  /** A newline that is not behind "=" stays. */
  lemma DecodeNewline(rest: seq<Byte>)
    ensures Decode([LF] + rest, false) == [LF] + Decode(rest, false)
  {
    hide Decode;
    assert ([LF] + rest)[1..] == rest;
    DecodeTurn([LF] + rest);
    LazyNewline(rest);
  }

  // ----- text that needs no quoting

  /** At most 72 printable characters or tabs, no "=", no dot at the start, no blank at the end; only the
      first line of a text may start with "From ". */
  predicate IsPlain(l: seq<Byte>, first: bool) {
    && |l| <= 72
    && (forall i :: 0 <= i < |l| ==> (32 <= l[i] < 127 || l[i] == 9) && l[i] != 61)
    && (l != [] ==> l[0] != 46 && l[|l| - 1] != 32 && l[|l| - 1] != 9)
    && (first || !([70, 114, 111, 109, 32] <= l))
  }

  /** From column k on the rest of the line is copied. */
  lemma {:induction false} RestCopied(l: seq<Byte>, k: nat, prev: int, rest: seq<Byte>, first: bool)
    requires IsPlain(l, first) && 1 <= k <= |l| && prev != LF && (k == |l| ==> !IsBlank(prev))
    ensures Encode(l[k..] + [LF] + rest, k, prev) == l[k..] + [LF] + Encode(rest, 0, LF)
    decreases |l| - k
  {
    hide Encode;
    var s := l[k..] + [LF] + rest;
    EncodeTurn(s, k, prev);
    if k == |l| {
      assert l[k..] == [] && s[0] == LF && s[1..] == rest;
      assert LoopTurn(s, k, prev) == Turn([LF], 1, 0, LF) by { assert [] + [LF] == [LF]; }
    } else {
      var c := l[k];
      assert s[0] == c && s[1..] == l[k + 1..] + [LF] + rest;
      assert LoopTurn(s, k, prev) == Turn([c], 1, k + 1, c);
      RestCopied(l, k + 1, c, rest, first);
      assert [c] + (l[k + 1..] + [LF] + Encode(rest, 0, LF)) == l[k..] + [LF] + Encode(rest, 0, LF);
    }
  }

  lemma FromTurnCopies(l: seq<Byte>, rest: seq<Byte>)
    requires IsPlain(l, false) && l != [] && l[0] == FROM[0]
    ensures var m := FromMatch(l + [LF] + rest);
            && m <= |l|
            && FromTurn(l + [LF] + rest, 0) == Turn(l[..m], m, m, 120)
  {
    var s := l + [LF] + rest;
    var m := FromMatch(s);
    assert forall i :: 0 <= i < |l| ==> s[i] == l[i];
    assert s[|l|] == LF;
    assert m <= |l|;
    assert s[..m] == l[..m];
    StartsWithFrom(l);
  }

  lemma StartsWithFrom(l: seq<Byte>)
    ensures |l| > 4 && l[0] == FROM[0] && l[1] == FROM[1] && l[2] == FROM[2] && l[3] == FROM[3] && l[4] == BLANK
        ==> FROM <= l
  {
  }

  lemma FromLineCopied(l: seq<Byte>, rest: seq<Byte>)
    requires IsPlain(l, false) && l != [] && l[0] == FROM[0]
    ensures Encode(l + [LF] + rest, 0, LF) == l + [LF] + Encode(rest, 0, LF)
  {
    hide Encode, FromTurn, FromMatch;
    var s := l + [LF] + rest;
    EncodeTurn(s, 0, LF);
    var m := FromMatch(s);
    FromTurnCopies(l, rest);
    assert LoopTurn(s, 0, LF) == Turn(l[..m], m, m, 120);
    hide LoopTurn;
    assert s[m..] == l[m..] + [LF] + rest;
    RestCopied(l, m, 120, rest, false);
    assert l[..m] + (l[m..] + [LF] + Encode(rest, 0, LF)) == l + [LF] + Encode(rest, 0, LF);
  }

  /** A plain line is copied as it is. */
  lemma LineCopied(l: seq<Byte>, prev: int, rest: seq<Byte>, first: bool)
    requires IsPlain(l, first) && prev == (if first then 255 else LF)
    ensures Encode(l + [LF] + rest, 0, prev) == l + [LF] + Encode(rest, 0, LF)
  {
    hide Encode;
    var s := l + [LF] + rest;
    EncodeTurn(s, 0, prev);
    if l == [] {
      assert s[0] == LF && s[1..] == rest;
      assert LoopTurn(s, 0, prev) == Turn([LF], 1, 0, LF) by { assert [] + [LF] == [LF]; }
      assert [] + [LF] + Encode(rest, 0, LF) == [LF] + Encode(rest, 0, LF);
    } else if l[0] == FROM[0] && prev == LF {
      FromLineCopied(l, rest);
    } else {
      assert s[0] == l[0] && s[1..] == l[1..] + [LF] + rest;
      assert LoopTurn(s, 0, prev) == Turn([l[0]], 1, 1, l[0]);
      RestCopied(l, 1, l[0], rest, first);
      assert [l[0]] + (l[1..] + [LF] + Encode(rest, 0, LF)) == l + [LF] + Encode(rest, 0, LF);
    }
  }

  function Joined(lines: seq<seq<Byte>>): seq<Byte> {
    if lines == [] then [] else lines[0] + [LF] + Joined(lines[1..])
  }

  lemma {:induction false} LinesCopied(lines: seq<seq<Byte>>, first: bool)
    requires forall i :: 0 <= i < |lines| ==> IsPlain(lines[i], first && i == 0)
    ensures Encode(Joined(lines), 0, if first then 255 else LF) == Joined(lines)
    decreases |lines|
  {
    hide Encode, IsPlain;
    if lines == [] {
      EncodeEnd(0, if first then 255 else LF);
    } else {
      LineCopied(lines[0], if first then 255 else LF, Joined(lines[1..]), first);
      LinesCopied(lines[1..], false);
    }
  }

  /** toqp leaves a text of plain lines alone. */
  lemma TextCopied(lines: seq<seq<Byte>>)
    requires forall i :: 0 <= i < |lines| ==> IsPlain(lines[i], i == 0)
    ensures Encode(Joined(lines), 0, 255) == Joined(lines)
  {
    hide Encode, IsPlain;
    LinesCopied(lines, true);
  }
}
