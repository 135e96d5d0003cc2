/** The base64 codec of mmencode: `to64` and `from64` with their newline automata (section 6.8 of RFC 2045). */
module Base64 {
  import opened Bytes

  const CR: Byte := 13
  const PAD: Byte := 61

  /** `basis_64`. */
  function Basis(v: nat): (c: Byte)
    requires v < 64
    ensures Index(c) == v && c != PAD && !IsSpace(c)
  {
    if v < 26 then 65 + v else if v < 52 then 71 + v else if v < 62 then v - 4 else if v == 62 then 43 else 47
  }

  /** `char64`: the value of a base64 character, -1 for any other. */
  function Index(c: Byte): (v: int)
    ensures -1 <= v < 64
  {
    if 65 <= c <= 90 then c - 65
    else if 97 <= c <= 122 then c - 71
    else if 48 <= c <= 57 then c + 4
    else if c == 43 then 62
    else if c == 47 then 63
    else -1
  }

  predicate IsSpace(c: int) {
    9 <= c <= 13 || c == 32
  }

  // ----- reading with newline translation: nextcharin

  /** What nextcharin delivers for the whole input. */
  function Expand(s: seq<Byte>, portable: bool): seq<Byte> {
    if !portable then s
    else if s == [] then []
    else (if s[0] == LF then [CR, LF] else [s[0]]) + Expand(s[1..], portable)
  }

  /** Input still to come when nextcharin stands at `pos`, half-way through a newline or not. */
  function Coming(s: seq<Byte>, pos: nat, inNewline: bool, portable: bool): seq<Byte>
    requires pos <= |s|
  {
    (if inNewline then [LF] else []) + Expand(s[pos..], portable)
  }

  method NextCharIn(s: seq<Byte>, pos: nat, inNewline: bool, portable: bool)
    returns (c: int, pos': nat, inNewline': bool)
    requires pos <= |s| && (inNewline ==> portable)
    ensures pos' <= |s| && (inNewline' ==> portable)
    ensures var u, u' := Coming(s, pos, inNewline, portable), Coming(s, pos', inNewline', portable);
            if u == [] then c == EOF && u' == [] else c == u[0] && u' == u[1..]
  {
    pos', inNewline' := pos, inNewline;
    if portable && inNewline {
      inNewline' := false;
      return LF, pos', inNewline';
    }
    if pos == |s| {
      return EOF, pos', inNewline';
    }
    c := s[pos];
    assert s[pos..][1..] == s[pos + 1..];
    pos' := pos + 1;
    if portable && c == LF {
      inNewline' := true;
      c := CR;
    }
  }

  // ----- to64

  /** `output64chunk`. */
  function Chunk(c1: Byte, c2: Byte, c3: Byte, pads: nat): (q: seq<Byte>)
    ensures |q| == 4
    ensures forall i :: 0 <= i < 4 ==> !IsSpace(q[i])
  {
    var q2 := Basis((c1 % 4) * 16 + c2 / 16);
    var q3 := Basis((c2 % 16) * 4 + c3 / 64);
    if pads == 2 then [Basis(c1 / 4), q2, PAD, PAD]
    else if pads == 1 then [Basis(c1 / 4), q2, q3, PAD]
    else [Basis(c1 / 4), q2, q3, Basis(c3 % 64)]
  }

  function FirstChunk(u: seq<Byte>): (q: seq<Byte>)
    requires u != []
    ensures |q| == 4
    ensures forall i :: 0 <= i < 4 ==> !IsSpace(q[i])
  {
    if |u| == 1 then Chunk(u[0], 0, 0, 2)
    else if |u| == 2 then Chunk(u[0], u[1], 0, 1)
    else Chunk(u[0], u[1], u[2], 0)
  }

  function AfterChunk(u: seq<Byte>): seq<Byte> {
    if |u| > 3 then u[3..] else []
  }

  function Encode(u: seq<Byte>, ct: nat): seq<Byte>
    decreases |u|
  {
    if u == [] then if ct > 0 then [LF] else []
    else if ct + 4 > 71 then FirstChunk(u) + [LF] + Encode(AfterChunk(u), 0)
    else FirstChunk(u) + Encode(AfterChunk(u), ct + 4)
  }

  /** Reads the rest of a group of up to three characters and encodes it; u is the input from c1 on. */
  method ReadChunk(s: seq<Byte>, c1: int, pos: nat, inNewline: bool, portable: bool, ghost u: seq<Byte>)
    returns (chunk: seq<Byte>, pos': nat, inNewline': bool)
    requires pos <= |s| && (inNewline ==> portable)
    requires u != [] && c1 == u[0] && u[1..] == Coming(s, pos, inNewline, portable)
    ensures pos' <= |s| && (inNewline' ==> portable)
    ensures chunk == FirstChunk(u) && Coming(s, pos', inNewline', portable) == AfterChunk(u)
  {
    hide Coming, Chunk;
    var c2, c3: int;
    c2, pos', inNewline' := NextCharIn(s, pos, inNewline, portable);
    if c2 == EOF {
      chunk := Chunk(c1, 0, 0, 2);
    } else {
      c3, pos', inNewline' := NextCharIn(s, pos', inNewline', portable);
      if c3 == EOF {
        chunk := Chunk(c1, c2, 0, 1);
      } else {
        chunk := Chunk(c1, c2, c3, 0);
        assert u[1..][1..][1..] == u[3..];
      }
    }
  }

  /** `to64`. */
  method To64(s: seq<Byte>, portable: bool) returns (out: seq<Byte>)
    ensures out == Encode(Expand(s, portable), 0)
  {
    hide Expand, FirstChunk, Encode, AfterChunk;
    out := [];
    var ct, pos, inNewline, chunk := 0, 0, false, [];
    ghost var whole := Expand(s, portable);
    ghost var u := whole;
    assert s[0..] == s && [] + u == u && [] + Encode(u, 0) == Encode(u, 0);
    var c1;
    c1, pos, inNewline := NextCharIn(s, pos, inNewline, portable);
    while c1 != EOF
      invariant 0 <= pos <= |s| && (inNewline ==> portable) && 0 <= ct
      invariant if c1 == EOF then u == []
                else u != [] && c1 == u[0] && u[1..] == Coming(s, pos, inNewline, portable)
      invariant out + Encode(u, ct) == Encode(whole, 0)
      decreases |u|
    {
      EncodeStep(out, u, ct);
      chunk, pos, inNewline := ReadChunk(s, c1, pos, inNewline, portable, u);
      out := out + chunk;
      ct := ct + 4;
      if ct > 71 {
        out := out + [LF];
        ct := 0;
      }
      u := AfterChunk(u);
      c1, pos, inNewline := NextCharIn(s, pos, inNewline, portable);
    }
    EncodeNothing(ct);
    if ct > 0 {
      out := out + [LF];
    }
  }

  lemma EncodeUnfold(u: seq<Byte>, ct: nat)
    requires u != []
    ensures |AfterChunk(u)| < |u|
    ensures Encode(u, ct) == if ct + 4 > 71 then FirstChunk(u) + [LF] + Encode(AfterChunk(u), 0)
                             else FirstChunk(u) + Encode(AfterChunk(u), ct + 4)
  {
    hide FirstChunk;
  }

  lemma EncodeStep(out: seq<Byte>, u: seq<Byte>, ct: nat)
    requires u != []
    ensures |AfterChunk(u)| < |u|
    ensures out + Encode(u, ct) ==
            if ct + 4 > 71 then out + FirstChunk(u) + [LF] + Encode(AfterChunk(u), 0)
            else out + FirstChunk(u) + Encode(AfterChunk(u), ct + 4)
  {
    hide FirstChunk, Encode, AfterChunk;
    EncodeUnfold(u, ct);
  }

  lemma EncodeNothing(ct: nat)
    ensures Encode([], ct) == if ct > 0 then [LF] else []
  {
  }

  // ----- writing with newline translation: almostputc

  datatype Put = Put(out: seq<Byte>, pending: bool)

  /** `almostputc`; putc keeps the low byte of the int it is given. */
  function AlmostPut(c: int, pending: bool, portable: bool): Put {
    if pending then
      if c == LF then Put([LF], false)
      else if c == CR then Put([CR], true)
      else Put([CR, c % 256], false)
    else if portable && c == CR then Put([], true)
    else Put([c % 256], false)
  }

  /** All of the decoder's output for the values vals; `flush` tells whether the loop is left at the
      end of input rather than by the premature return. */
  function Collapse(vals: seq<int>, flush: bool, pending: bool, portable: bool): seq<Byte>
    decreases |vals|
  {
    if vals == [] then if flush && pending then [CR] else []
    else
      var p := AlmostPut(vals[0], pending, portable);
      p.out + Collapse(vals[1..], flush, p.pending, portable)
  }

  // ----- from64

  function Strip(t: seq<Byte>): seq<Byte> {
    if t == [] then [] else (if IsSpace(t[0]) then [] else [t[0]]) + Strip(t[1..])
  }

  function Value1(i1: int, i2: int): int { 4 * i1 + i2 / 16 % 4 }
  function Value2(i2: int, i3: int): int { i2 % 16 * 16 + i3 / 4 % 16 }
  function Value3(i3: int, i4: int): int { if i4 < 0 then i4 else i3 % 4 * 64 + i4 }

  /** The values one group of four characters yields, and whether it ends the data. */
  function Group(c1: Byte, c2: Byte, c3: Byte, c4: Byte): (seq<int>, bool) {
    if c1 == PAD || c2 == PAD then ([], true)
    else if c3 == PAD then ([Value1(Index(c1), Index(c2))], true)
    else if c4 == PAD then ([Value1(Index(c1), Index(c2)), Value2(Index(c2), Index(c3))], true)
    else ([Value1(Index(c1), Index(c2)), Value2(Index(c2), Index(c3)), Value3(Index(c3), Index(c4))], false)
  }

  /** The values decoded from text without white space, and whether the end of input is reached
      between groups. */
  function Groups(u: seq<Byte>): (seq<int>, bool)
    decreases |u|
  {
    if u == [] then ([], true)
    else if |u| < 4 then ([], false)
    else
      var (vals, done) := Group(u[0], u[1], u[2], u[3]);
      if done then (vals, true)
      else var r := Groups(u[4..]); (vals + r.0, r.1)
  }

  function Decode(t: seq<Byte>, portable: bool): seq<Byte> {
    var (vals, flush) := Groups(Strip(t));
    Collapse(vals, flush, false, portable)
  }

  /** `do c = getc (); while (c != EOF && isspace (c))`. */
  method SkipSpace(t: seq<Byte>, pos: nat) returns (c: int, pos': nat)
    requires pos <= |t|
    ensures pos <= pos' <= |t|
    ensures var u := Strip(t[pos..]);
            if u == [] then c == EOF && pos' == |t| else c == u[0] && pos < pos' && Strip(t[pos'..]) == u[1..]
  {
    pos' := pos;
    while pos' < |t| && IsSpace(t[pos'])
      invariant pos <= pos' <= |t| && Strip(t[pos'..]) == Strip(t[pos..])
    {
      assert t[pos'..][1..] == t[pos' + 1..];
      pos' := pos' + 1;
    }
    if pos' == |t| {
      c := EOF;
    } else {
      assert t[pos'..][1..] == t[pos' + 1..];
      c, pos' := t[pos'], pos' + 1;
    }
  }

  /** What from64 still has to write when u is the rest of its input, without white space. */
  function Remaining(u: seq<Byte>, done: bool, pending: bool, portable: bool): seq<Byte> {
    if done then if pending then [CR] else []
    else var g := Groups(u); Collapse(g.0, g.1, pending, portable)
  }

  lemma CollapseOne(v: int, w: seq<int>, flush: bool, pending: bool, portable: bool)
    ensures var p := AlmostPut(v, pending, portable);
            Collapse([v] + w, flush, pending, portable) == p.out + Collapse(w, flush, p.pending, portable)
  {
    assert ([v] + w)[1..] == w;
  }

  /** `from64` with boundaries == NULL, the way mmencode calls it. */
  method From64(t: seq<Byte>, portable: bool) returns (out: seq<Byte>)
    ensures out == Decode(t, portable)
  {
    hide Groups, Collapse, Index, Value1, Value2, Value3, AlmostPut, Strip, Remaining, Decode, Group;
    out := [];
    var pending, done, pos := false, false, 0;
    NothingRead(t, portable);
    assert t[0..] == t;
    while pos < |t|
      invariant 0 <= pos <= |t|
      invariant out + Remaining(Strip(t[pos..]), done, pending, portable) == Decode(t, portable)
    {
      ghost var u := Strip(t[pos..]);
      StripAt(t, pos);
      var c1 := t[pos];
      pos := pos + 1;
      if IsSpace(c1) {
        continue;
      }
      if done {
        DoneIgnoresRest(u, Strip(t[pos..]), pending, portable);
        continue;
      }
      var c2, c3, c4: int;
      c2, pos := SkipSpace(t, pos);
      assert |u| >= 2 ==> u[1..][1..] == u[2..];
      c3, pos := SkipSpace(t, pos);
      assert |u| >= 3 ==> u[2..][1..] == u[3..];
      c4, pos := SkipSpace(t, pos);
      assert |u| >= 4 ==> u[3..][1..] == u[4..];
      if c2 == EOF || c3 == EOF || c4 == EOF {
        PrematureEnd(u, pending, portable);
        return;
      }
      assert |u| >= 4 && c2 == u[1] && c3 == u[2] && c4 == u[3] && Strip(t[pos..]) == u[4..];
      GroupsStep(out, u, pending, portable);
      if c1 == PAD || c2 == PAD {
        done := true;
        continue;
      }
      var p := AlmostPut(Value1(Index(c1), Index(c2)), pending, portable);
      out, pending := out + p.out, p.pending;
      if c3 == PAD {
        done := true;
      } else {
        p := AlmostPut(Value2(Index(c2), Index(c3)), pending, portable);
        out, pending := out + p.out, p.pending;
        if c4 == PAD {
          done := true;
        } else {
          p := AlmostPut(Value3(Index(c3), Index(c4)), pending, portable);
          out, pending := out + p.out, p.pending;
        }
      }
    }
    FinalFlush(done, pending, portable);
    StripNothing();
    assert t[pos..] == [];
    if pending {
      out := out + [CR];
    }
  }

  lemma NothingRead(t: seq<Byte>, portable: bool)
    ensures [] + Remaining(Strip(t), false, false, portable) == Decode(t, portable)
  {
    hide Strip;
  }

  lemma StripAt(t: seq<Byte>, pos: nat)
    requires pos < |t|
    ensures var u, v := Strip(t[pos..]), Strip(t[pos + 1..]);
            if IsSpace(t[pos]) then u == v else u != [] && u[0] == t[pos] && u[1..] == v
  {
    assert t[pos..][1..] == t[pos + 1..];
  }

  lemma StripNothing()
    ensures Strip([]) == []
  {
  }

  lemma DoneIgnoresRest(u: seq<Byte>, v: seq<Byte>, pending: bool, portable: bool)
    ensures Remaining(u, true, pending, portable) == Remaining(v, true, pending, portable)
  {
  }

  lemma FinalFlush(done: bool, pending: bool, portable: bool)
    ensures Remaining([], done, pending, portable) == if pending then [CR] else []
  {
  }

  lemma PrematureEnd(u: seq<Byte>, pending: bool, portable: bool)
    requires 1 <= |u| < 4
    ensures Remaining(u, false, pending, portable) == []
  {
  }

  lemma GroupsUnfold(u: seq<Byte>)
    requires |u| >= 4
    ensures var (vals, done) := Group(u[0], u[1], u[2], u[3]);
            Groups(u) == if done then (vals, true) else (vals + Groups(u[4..]).0, Groups(u[4..]).1)
  {
    hide Group;
  }

  lemma CollapseEnd()
    ensures forall pending, portable :: Collapse([], true, pending, portable) == if pending then [CR] else []
  {
  }

  /** One group, put character by character behind what is already written. */
  lemma GroupsStep(out: seq<Byte>, u: seq<Byte>, pending: bool, portable: bool)
    requires |u| >= 4
    ensures var (i1, i2, i3, i4) := (Index(u[0]), Index(u[1]), Index(u[2]), Index(u[3]));
            var p1 := AlmostPut(Value1(i1, i2), pending, portable);
            var p2 := AlmostPut(Value2(i2, i3), p1.pending, portable);
            var p3 := AlmostPut(Value3(i3, i4), p2.pending, portable);
            var all := out + Remaining(u, false, pending, portable);
            if u[0] == PAD || u[1] == PAD then
              all == out + Remaining(u[4..], true, pending, portable)
            else if u[2] == PAD then
              all == out + p1.out + Remaining(u[4..], true, p1.pending, portable)
            else if u[3] == PAD then
              all == out + p1.out + p2.out + Remaining(u[4..], true, p2.pending, portable)
            else
              all == out + p1.out + p2.out + p3.out + Remaining(u[4..], false, p3.pending, portable)
  {
    hide Index, Value1, Value2, Value3, AlmostPut, Collapse, Groups;
    GroupsUnfold(u);
    CollapseEnd();
    var (i1, i2, i3, i4) := (Index(u[0]), Index(u[1]), Index(u[2]), Index(u[3]));
    var v1, v2, v3 := Value1(i1, i2), Value2(i2, i3), Value3(i3, i4);
    var p1 := AlmostPut(v1, pending, portable);
    var p2 := AlmostPut(v2, p1.pending, portable);
    var r := Groups(u[4..]);
    if u[0] == PAD || u[1] == PAD {
    } else if u[2] == PAD {
      assert [v1] + [] == [v1];
      CollapseOne(v1, [], true, pending, portable);
    } else if u[3] == PAD {
      assert [v1] + ([v2] + []) == [v1, v2];
      CollapseOne(v1, [v2] + [], true, pending, portable);
      CollapseOne(v2, [], true, p1.pending, portable);
    } else {
      assert [v1] + ([v2] + ([v3] + r.0)) == [v1, v2, v3] + r.0;
      CollapseOne(v1, [v2] + ([v3] + r.0), r.1, pending, portable);
      CollapseOne(v2, [v3] + r.0, r.1, p1.pending, portable);
      CollapseOne(v3, r.0, r.1, p2.pending, portable);
      var p3 := AlmostPut(v3, p2.pending, portable);
      Regroup3(out, p1.out, p2.out, p3.out, Collapse(r.0, r.1, p3.pending, portable));
    }
  }

  lemma Regroup3(s: seq<Byte>, a: seq<Byte>, b: seq<Byte>, c: seq<Byte>, d: seq<Byte>)
    ensures s + (a + (b + (c + d))) == s + a + b + c + d
  {
  }

  // ----- white space does not matter

  lemma {:induction false} StripConcat(a: seq<Byte>, b: seq<Byte>)
    ensures Strip(a + b) == Strip(a) + Strip(b)
  {
    if a == [] {
      assert a + b == b;
    } else {
      assert (a + b)[1..] == a[1..] + b;
      StripConcat(a[1..], b);
    }
  }

  lemma {:induction false} StripSpaces(w: seq<Byte>)
    requires forall i :: 0 <= i < |w| ==> IsSpace(w[i])
    ensures Strip(w) == []
  {
    if w != [] {
      StripSpaces(w[1..]);
    }
  }

  lemma {:induction false} StripText(w: seq<Byte>)
    requires forall i :: 0 <= i < |w| ==> !IsSpace(w[i])
    ensures Strip(w) == w
  {
    if w != [] {
      StripText(w[1..]);
    }
  }

  /** White space inserted anywhere in any text, well-formed or not, does not change its decoding. */
  lemma SpacesIgnored(a: seq<Byte>, w: seq<Byte>, b: seq<Byte>, portable: bool)
    requires forall i :: 0 <= i < |w| ==> w[i] in [9, 10, 11, 12, 13, 32]
    ensures Decode(a + w + b, portable) == Decode(a + b, portable)
  {
    StripConcat(a + w, b);
    StripConcat(a, w);
    StripConcat(a, b);
    StripSpaces(w);
    assert Strip(a) + [] == Strip(a);
  }

  // ----- the round trip

  lemma ChunkDecodes(u: seq<Byte>)
    requires u != []
    ensures var q := FirstChunk(u);
            Group(q[0], q[1], q[2], q[3]) == if |u| >= 3 then (u[..3], false) else (u, true)
  {
    hide Basis, Index, Value1, Value2, Value3;
    if |u| == 1 {
      SextetsJoin(u[0], 0, 0);
      assert u == [u[0]];
    } else if |u| == 2 {
      SextetsJoin(u[0], u[1], 0);
      assert u == [u[0], u[1]];
    } else {
      SextetsJoin(u[0], u[1], u[2]);
      assert u[..3] == [u[0], u[1], u[2]];
    }
  }

  lemma SextetsJoin(c1: Byte, c2: Byte, c3: Byte)
    ensures Value1(c1 / 4, (c1 % 4) * 16 + c2 / 16) == c1
    ensures Value2((c1 % 4) * 16 + c2 / 16, (c2 % 16) * 4 + c3 / 64) == c2
    ensures Value3((c2 % 16) * 4 + c3 / 64, c3 % 64) == c3
  {
    var q2, q3 := (c1 % 4) * 16 + c2 / 16, (c2 % 16) * 4 + c3 / 64;
    assert q2 / 16 == c1 % 4 && q2 % 16 == c2 / 16;
    assert q3 / 4 == c2 % 16 && q3 % 4 == c3 / 64;
  }

  lemma {:induction false} GroupsOfEncoding(u: seq<Byte>, ct: nat)
    ensures Groups(Strip(Encode(u, ct))) == (u, true)
    decreases |u|
  {
    hide FirstChunk, Group;
    if u == [] {
      StripSpaces([LF]);
    } else {
      var q, rest := FirstChunk(u), AfterChunk(u);
      var ct' := if ct + 4 > 71 then 0 else ct + 4;
      var tail := Encode(rest, ct');
      GroupsOfEncoding(rest, ct');
      StripText(q);
      StripSpaces([LF]);
      StripConcat(q + [LF], tail);
      StripConcat(q, [LF]);
      StripConcat(q, tail);
      var v := Strip(Encode(u, ct));
      assert v == q + Strip(tail);
      assert v[4..] == Strip(tail);
      ChunkDecodes(u);
      if |u| == 3 {
        assert u[..3] + [] == u;
      } else if |u| > 3 {
        assert u[..3] + u[3..] == u;
      }
    }
  }

  lemma {:induction false} CollapsePlain(s: seq<Byte>)
    ensures Collapse(s, true, false, false) == s
  {
    if s != [] {
      CollapsePlain(s[1..]);
      assert [s[0]] + s[1..] == s;
    }
  }

  /** A held-back CR comes out in front of whatever follows, be it a translated newline or not. */
  lemma {:induction false} CollapseExpanded(s: seq<Byte>, pending: bool)
    ensures Collapse(Expand(s, true), true, pending, true) == (if pending then [CR] else []) + s
  {
    hide Collapse;
    CollapseEnd();
    if s != [] {
      var e := Expand(s[1..], true);
      CollapseExpanded(s[1..], false);
      CollapseExpanded(s[1..], true);
      assert [s[0]] + s[1..] == s;
      if s[0] == LF {
        assert [CR] + ([LF] + e) == [CR, LF] + e;
        CollapseOne(CR, [LF] + e, true, pending, true);
        CollapseOne(LF, e, true, true, true);
      } else {
        CollapseOne(s[0], e, true, pending, true);
      }
    }
  }

  /** from64(to64(s)) == s for every byte sequence, in both newline modes. */
  lemma RoundTrip(s: seq<Byte>, portable: bool)
    ensures Decode(Encode(Expand(s, portable), 0), portable) == s
  {
    GroupsOfEncoding(Expand(s, portable), 0);
    if portable {
      CollapseExpanded(s, false);
    } else {
      CollapsePlain(s);
    }
  }
}
