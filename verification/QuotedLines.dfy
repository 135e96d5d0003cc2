/** The shape of toqp's output lines: section 6.7 of RFC 2045, plus the two escapes for mail transports. */
module QuotedLines {
  import opened Bytes
  import opened QuotedPrintable

  function Lines(t: seq<Byte>): (l: seq<seq<Byte>>)
    ensures |l| >= 1
  {
    if t == [] then [[]]
    else if t[0] == LF then [[]] + Lines(t[1..])
    else var r := Lines(t[1..]); [[t[0]] + r[0]] + r[1..]
  }

  /** At most 76 characters, printable or blank, no blank at the end, no dot at the start, and no
      line but the first starting with "From ". */
  ghost predicate LineOk(line: seq<Byte>, first: bool) {
    && |line| <= 76
    && (forall c :: c in line ==> 32 <= c < 127 || c == 9)
    && (line != [] ==> line[|line| - 1] != 32 && line[|line| - 1] != 9)
    && (line != [] ==> line[0] != 46)
    && (!first ==> !([70, 114, 111, 109, 32] <= line))
  }

  /** The text t, read on from the unfinished line cur, consists of good lines and ends in a line break. */
  ghost predicate Good(cur: seq<Byte>, t: seq<Byte>, first: bool)
    decreases t
  {
    if t == [] then cur == []
    else if t[0] == LF then LineOk(cur, first) && Good([], t[1..], false)
    else Good(cur + [t[0]], t[1..], first)
  }

  /** The lines l, the first of them continuing cur, are good, and the last is empty. */
  ghost predicate GoodList(cur: seq<Byte>, l: seq<seq<Byte>>, first: bool)
    requires |l| >= 1
  {
    && (|l| == 1 ==> cur + l[0] == [])
    && l[|l| - 1] == []
    && (|l| > 1 ==> LineOk(cur + l[0], first))
    && forall i :: 1 <= i < |l| ==> LineOk(l[i], false)
  }

  lemma GoodListBreak(cur: seq<Byte>, r: seq<seq<Byte>>, first: bool)
    requires |r| >= 1 && LineOk(cur, first) && GoodList([], r, false)
    ensures GoodList(cur, [[]] + r, first)
  {
    EmptyLineOk();
    hide LineOk;
    var l := [[]] + r;
    assert cur + l[0] == cur;
    assert [] + r[0] == r[0];
    forall i | 1 <= i < |l|
      ensures LineOk(l[i], false)
    {
      assert l[i] == r[i - 1];
    }
  }

  lemma GoodListExtend(cur: seq<Byte>, c: Byte, r: seq<seq<Byte>>, first: bool)
    requires |r| >= 1 && GoodList(cur + [c], r, first)
    ensures GoodList(cur, [[c] + r[0]] + r[1..], first)
  {
    hide LineOk;
    var l := [[c] + r[0]] + r[1..];
    assert cur + l[0] == cur + [c] + r[0];
    forall i | 1 <= i < |l|
      ensures LineOk(l[i], false)
    {
      assert l[i] == r[i];
    }
  }

  lemma GoodListEnd(first: bool)
    ensures GoodList([], [[]], first)
  {
  }

  lemma EmptyLineOk()
    ensures LineOk([], false)
  {
  }

  lemma {:induction false} GoodLines(cur: seq<Byte>, t: seq<Byte>, first: bool)
    requires Good(cur, t, first)
    ensures GoodList(cur, Lines(t), first)
    decreases t
  {
    hide LineOk, GoodList;
    if t == [] {
      GoodListEnd(first);
    } else if t[0] == LF {
      GoodLines([], t[1..], false);
      GoodListBreak(cur, Lines(t[1..]), first);
    } else {
      GoodLines(cur + [t[0]], t[1..], first);
      GoodListExtend(cur, t[0], Lines(t[1..]), first);
    }
  }

  lemma {:induction false} GoodAppend(cur: seq<Byte>, p: seq<Byte>, t: seq<Byte>, first: bool)
    requires LF !in p
    ensures Good(cur, p + t, first) == Good(cur + p, t, first)
    decreases p
  {
    if p == [] {
      assert p + t == t && cur + p == cur;
    } else {
      assert (p + t)[1..] == p[1..] + t;
      assert cur + [p[0]] + p[1..] == cur + p;
      GoodAppend(cur + [p[0]], p[1..], t, first);
    }
  }

  lemma GoodBreak(cur: seq<Byte>, t: seq<Byte>, first: bool)
    ensures Good(cur, [LF] + t, first) == (LineOk(cur, first) && Good([], t, false))
  {
    assert ([LF] + t)[1..] == t;
  }

  lemma GoodEnd(first: bool)
    ensures Good([], [], first)
  {
  }

  // ----- what holds at the head of toqp's loop

  ghost predicate TextOk(cur: seq<Byte>, first: bool) {
    && (forall c :: c in cur ==> 32 <= c < 127 || c == TAB)
    && (cur != [] ==> cur[0] != DOT)
    && (!first ==> !(FROM <= cur))
  }

  /** A line that is about to become "From " is not continued that way by the input. */
  ghost predicate NoFrom(cur: seq<Byte>, s: seq<Byte>, first: bool) {
    !first && 1 <= |cur| <= 4 && cur == FROM[..|cur|] ==> s == [] || s[0] != FROM[|cur|]
  }

  ghost predicate AtHead(s: seq<Byte>, ct: nat, prev: int, cur: seq<Byte>, first: bool) {
    && |cur| == ct <= 72
    && (ct == 0 && !first ==> prev == LF)
    && (prev == LF ==> ct == 0)
    && (IsBlank(prev) <==> cur != [] && IsBlank(cur[|cur| - 1]))
    && TextOk(cur, first)
    && NoFrom(cur, s, first)
  }

  lemma QuotedTurn(s: seq<Byte>, ct: nat, prev: int, cur: seq<Byte>, first: bool)
    requires s != [] && AtHead(s, ct, prev, cur, first) && MustQuote(s[0], ct)
    ensures TextOk(cur + Quoted(s[0]), first) && NoFrom(cur + Quoted(s[0]), s[1..], first)
    ensures !IsBlank(Quoted(s[0])[2]) && LF !in Quoted(s[0])
  {
    var q := Quoted(s[0]);
    assert (cur + q)[|cur|] == EQ;
  }

  lemma LiteralTurn(s: seq<Byte>, ct: nat, prev: int, cur: seq<Byte>, first: bool)
    requires s != [] && AtHead(s, ct, prev, cur, first)
    requires !MustQuote(s[0], ct) && s[0] != LF && !(s[0] == FROM[0] && prev == LF)
    ensures TextOk(cur + [s[0]], first) && NoFrom(cur + [s[0]], s[1..], first)
  {
    var n := cur + [s[0]];
    assert |cur| <= 4 && n == FROM[..|n|] ==> cur == FROM[..|cur|] && s[0] == FROM[|cur|];
    assert |cur| > 4 && FROM <= n ==> FROM <= cur;
    assert |cur| == 4 && FROM <= n ==> n == FROM[..|n|];
  }

  lemma FromTurnText(s: seq<Byte>, ct: nat, first: bool)
    requires s != [] && s[0] == FROM[0]
    ensures var t := FromTurn(s, ct);
            && TextOk(t.out, first) && NoFrom(t.out, s[t.used..], first)
            && t.out != [] && !IsBlank(t.out[|t.out| - 1]) && LF !in t.out
            && |t.out| <= 6 && t.ct == ct + |t.out|
  {
  }

  lemma TurnKeepsText(s: seq<Byte>, ct: nat, prev: int, cur: seq<Byte>, first: bool)
    requires s != [] && s[0] != LF && AtHead(s, ct, prev, cur, first)
    ensures var t := PlainTurn(s, ct, prev);
            && LF !in t.out && t.ct == |cur + t.out| <= 75 && t.out != []
            && t.prev != LF
            && (IsBlank(t.prev) <==> IsBlank(t.out[|t.out| - 1]))
            && TextOk(cur + t.out, first) && NoFrom(cur + t.out, s[t.used..], first)
  {
    hide FromTurn, TextOk, NoFrom;
    if MustQuote(s[0], ct) {
      QuotedTurn(s, ct, prev, cur, first);
    } else if s[0] == FROM[0] && prev == LF {
      FromTurnText(s, ct, first);
      assert cur == [];
      assert cur + FromTurn(s, ct).out == FromTurn(s, ct).out;
    } else {
      LiteralTurn(s, ct, prev, cur, first);
    }
  }

  lemma {:induction false} EncodeGood(s: seq<Byte>, ct: nat, prev: int, cur: seq<Byte>, first: bool)
    requires AtHead(s, ct, prev, cur, first)
    ensures Good(cur, Encode(s, ct, prev), first)
    decreases |s|
  {
    hide Encode, PlainTurn, Good;
    if s == [] {
      EncodeEnd(ct, prev);
      GoodEnd(first);
      GoodEnd(false);
      if ct > 0 {
        assert SOFT_BREAK + [] == SOFT_BREAK;
        FinishLine(cur, [], first);
      }
    } else {
      EncodeTurn(s, ct, prev);
      var p, t := PlainTurn(s, ct, prev), LoopTurn(s, ct, prev);
      var rest := Encode(s[t.used..], t.ct, t.prev);
      if s[0] == LF {
        NewlineTurn(s, ct, prev, cur, first);
        EncodeGood(s[1..], 0, LF, [], false);
        if IsBlank(prev) {
          assert SOFT_BREAK + [LF] + rest == SOFT_BREAK + ([LF] + rest);
          FinishLine(cur, [LF] + rest, first);
          GoodBreak([], rest, false);
        } else {
          assert [] + [LF] + rest == [LF] + rest;
          GoodBreak(cur, rest, first);
        }
      } else {
        TurnKeepsText(s, ct, prev, cur, first);
        var cur' := cur + p.out;
        if p.ct > 72 {
          assert t.out + rest == p.out + (SOFT_BREAK + rest);
          EncodeGood(s[t.used..], 0, LF, [], false);
          FinishLine(cur', rest, first);
          GoodAppend(cur, p.out, SOFT_BREAK + rest, first);
        } else {
          EncodeGood(s[t.used..], t.ct, t.prev, cur', first);
          GoodAppend(cur, p.out, rest, first);
        }
      }
    }
  }

  lemma NewlineTurn(s: seq<Byte>, ct: nat, prev: int, cur: seq<Byte>, first: bool)
    requires s != [] && s[0] == LF
    ensures LoopTurn(s, ct, prev) == Turn((if IsBlank(prev) then SOFT_BREAK else []) + [LF], 1, 0, LF)
  {
  }

  /** A soft break may end any line of at most 75 characters. */
  lemma FinishLine(cur: seq<Byte>, rest: seq<Byte>, first: bool)
    requires |cur| <= 75 && TextOk(cur, first)
    requires cur != []
    ensures Good(cur, SOFT_BREAK + rest, first) == Good([], rest, false)
  {
    assert SOFT_BREAK + rest == [EQ] + ([LF] + rest);
    GoodAppend(cur, [EQ], [LF] + rest, first);
    GoodBreak(cur + [EQ], rest, first);
    FromStays(cur);
  }

  lemma FromStays(cur: seq<Byte>)
    ensures FROM <= cur + [EQ] ==> FROM <= cur
  {
    var n := cur + [EQ];
    assert n[|cur|] == EQ && FROM[4] != EQ;
    if FROM <= n {
      assert n[4] == FROM[4];
      assert n[..5] == FROM;
      assert |cur| >= 5 && cur[..5] == n[..5];
    }
  }

  /** Every line of every encoding is fit for transport, and the text ends with a line break. */
  lemma EncodedLines(s: seq<Byte>)
    ensures var l := Lines(Encode(s, 0, 255));
            && l[|l| - 1] == []
            && forall i :: 0 <= i < |l| ==> LineOk(l[i], i == 0)
  {
    EncodeGood(s, 0, 255, [], true);
    GoodLines([], Encode(s, 0, 255), true);
    var l := Lines(Encode(s, 0, 255));
    assert [] + l[0] == l[0];
  }
}
