/** The four alternative round implementations of `md5_process_block` (MD5SUM_SIZE_VS_SPEED 0 to 3). */
module Md5Rounds {
  import opened Md5Spec

  // The selectors of the source; FF is its optimised form of F.
  function FF(b: Word, c: Word, d: Word): Word { d ^ (b & (c ^ d)) }
  function FG(b: Word, c: Word, d: Word): Word { FF(d, b, c) }
  function FH(b: Word, c: Word, d: Word): Word { b ^ c ^ d }
  function FI(b: Word, c: Word, d: Word): Word { c ^ (b | !d) }

  const P_ROW1: seq<nat> := [0, 1, 2, 3, 4, 5, 6, 7, 8, 9, 10, 11, 12, 13, 14, 15]
  const P_ROW2: seq<nat> := [1, 6, 11, 0, 5, 10, 15, 4, 9, 14, 3, 8, 13, 2, 7, 12]
  const P_ROW3: seq<nat> := [5, 8, 11, 14, 1, 4, 7, 10, 13, 0, 3, 6, 9, 12, 15, 2]
  const P_ROW4: seq<nat> := [0, 7, 14, 5, 12, 3, 10, 1, 8, 15, 6, 13, 4, 11, 2, 9]
  const P_ARRAY: seq<nat> := P_ROW1 + P_ROW2 + P_ROW3 + P_ROW4

  const S_ARRAY: seq<Word> := [7, 12, 17, 22, 5, 9, 14, 20, 4, 11, 16, 23, 6, 10, 15, 21]

  lemma SelectBits(b: Word, c: Word, d: Word)
    ensures d ^ (b & (c ^ d)) == (b & c) | (!b & d)
  {
  }

  lemma SelectBitsSwapped(b: Word, c: Word, d: Word)
    ensures c ^ (d & (b ^ c)) == (b & d) | (c & !d)
  {
  }

  /** The selectors of the source are the four auxiliary functions of section 3.4. */
  lemma SelectorsMatch(b: Word, c: Word, d: Word)
    ensures FF(b, c, d) == F(b, c, d) && FG(b, c, d) == G(b, c, d)
    ensures FH(b, c, d) == H(b, c, d) && FI(b, c, d) == I(b, c, d)
  {
    assert FF(b, c, d) == F(b, c, d) by { SelectBits(b, c, d); }
    assert FG(b, c, d) == G(b, c, d) by { SelectBitsSwapped(b, c, d); }
  }

  lemma RowsMatch(j: nat)
    requires j < 16
    ensures |P_ROW1| == |P_ROW2| == |P_ROW3| == |P_ROW4| == 16
    ensures P_ROW1[j] == j && P_ROW2[j] == (1 + 5 * j) % 16 && P_ROW3[j] == (5 + 3 * j) % 16 && P_ROW4[j] == 7 * j % 16
  {
    assert j == 0 || j == 1 || j == 2 || j == 3 || j == 4 || j == 5 || j == 6 || j == 7
        || j == 8 || j == 9 || j == 10 || j == 11 || j == 12 || j == 13 || j == 14 || j == 15;
  }

  lemma WordIndicesMatch(i: nat)
    requires i < 64
    ensures P_ARRAY[i] == K(i)
  {
    hide P_ROW1, P_ROW2, P_ROW3, P_ROW4;
    RowsMatch(i % 16);
    if i < 16 {
      assert P_ARRAY[i] == P_ROW1[i % 16];
    } else if i < 32 {
      assert P_ARRAY[i] == P_ROW2[i % 16];
    } else if i < 48 {
      assert P_ARRAY[i] == P_ROW3[i % 16];
    } else {
      assert P_ARRAY[i] == P_ROW4[i % 16];
    }
  }

  lemma RotationsMatch(i: nat)
    requires i < 64
    ensures S_ARRAY[i / 16 * 4 + i % 4] == S(i)
  {
    var j := i % 4;
    assert j == 0 || j == 1 || j == 2 || j == 3;
    if i < 16 { assert i / 16 == 0; }
    else if i < 32 { assert i / 16 == 1; }
    else if i < 48 { assert i / 16 == 2; }
    else { assert i / 16 == 3; }
  }

  lemma TableSizes()
    ensures |T| == |P_ARRAY| == 64 && |S_ARRAY| == 16
  {
  }

  /** The registers as the rotating loops hold them after i operations. */
  function Rotated(r: Regs, i: nat): Regs {
    if i % 4 == 0 then r
    else if i % 4 == 1 then Regs(r.d, r.a, r.b, r.c)
    else if i % 4 == 2 then Regs(r.c, r.d, r.a, r.b)
    else Regs(r.b, r.c, r.d, r.a)
  }

  lemma OperationRotates(r: Regs, x: seq<Word>, i: nat)
    requires i < 64 && |x| == 16
    ensures var q := Rotated(r, i);
            Rotated(Operation(r, x, i), i + 1) == Regs(q.d, Mix(i, q.a, q.b, q.c, q.d, x), q.b, q.c)
  {
    hide Mix;
    if i % 4 == 0 { assert (i + 1) % 4 == 1; }
    else if i % 4 == 1 { assert (i + 1) % 4 == 2; }
    else if i % 4 == 2 { assert (i + 1) % 4 == 3; }
    else { assert (i + 1) % 4 == 0; }
  }

  /** One turn of the rotating loops is one operation. */
  lemma RotatedStep(r: Regs, x: seq<Word>, i: nat)
    requires i < 64 && |x| == 16
    ensures var q := Rotated(Operations(r, x, i), i);
            Rotated(Operations(r, x, i + 1), i + 1) == Regs(q.d, Mix(i, q.a, q.b, q.c, q.d, x), q.b, q.c)
  {
    hide Mix, Operation, Rotated;
    OperationRotates(Operations(r, x, i), x, i);
  }

  lemma RotatedEnds(r: Regs, x: seq<Word>)
    requires |x| == 16
    ensures Rotated(Operations(r, x, 0), 0) == r
    ensures Rotated(Operations(r, x, 64), 64) == Operations(r, x, 64)
  {
    hide Operation;
  }

  lemma AddCommutative(a: Word, b: Word)
    ensures a + b == b + a
  {
  }

  /** The body every variant shares: add selector, word and constant, rotate, add b. */
  function Turn(a: Word, f: Word, x: Word, t: Word, s: Word, b: Word): Word
    requires 0 < s < 32
  {
    Rotate(a + f + x + t, s) + b
  }

  lemma MixIsTurn(i: nat, a: Word, b: Word, c: Word, d: Word, x: seq<Word>)
    requires i < 64 && |x| == 16
    ensures Mix(i, a, b, c, d, x) == Turn(a, Aux(i, b, c, d), x[K(i)], T[i], S(i), b)
  {
    hide Aux, K, S, Rotate;
    AddCommutative(Rotate(a + Aux(i, b, c, d) + x[K(i)] + T[i], S(i)), b);
  }

  lemma OpFacts(i: nat, round: nat, j: nat)
    requires i < 64 && round == i / 16 && j == i % 4
    ensures P_ARRAY[i] == K(i) && S_ARRAY[4 * round + j] == S(i)
  {
    hide K, S, P_ARRAY, S_ARRAY;
    WordIndicesMatch(i);
    RotationsMatch(i);
  }

  lemma TurnFacts(r: Regs, x: seq<Word>, i: nat, A: Word, B: Word, C: Word, D: Word)
    requires i < 64 && |x| == 16 && Regs(A, B, C, D) == Rotated(Operations(r, x, i), i)
    ensures Aux(i, B, C, D) == match i / 16 case 0 => FF(B, C, D) case 1 => FG(B, C, D)
                                            case 2 => FH(B, C, D) case _ => FI(B, C, D)
    ensures Rotated(Operations(r, x, i + 1), i + 1)
         == Regs(D, Turn(A, Aux(i, B, C, D), x[K(i)], T[i], S(i), B), B, C)
  {
    hide Mix, Turn, Rotated, Operations, FF, FG, FH, FI, F, G, H, I, K, S, T;
    SelectorsMatch(B, C, D);
    RotatedStep(r, x, i);
    MixIsTurn(i, A, B, C, D, x);
  }

  lemma Quarters(i: nat)
    ensures (i - 1) / 16 == if i % 16 == 0 then i / 16 - 1 else i / 16
  {
  }

  /** MD5SUM_SIZE_VS_SPEED 3: one loop, a switch on the round, rotating registers. */
  method Rounds3(r: Regs, cwp: seq<Word>) returns (q: Regs)
    requires |cwp| == 16
    ensures q == Operations(r, cwp, 64)
  {
    hide Mix, Aux, Turn, Rotated, Operations, FF, FG, FH, FI, K, S, T, P_ARRAY, S_ARRAY;
    TableSizes();
    var A, B, C, D := r.a, r.b, r.c, r.d;
    var ps: int := -4;
    RotatedEnds(r, cwp);
    var i := 0;
    while i < 64
      invariant 0 <= i <= 64
      invariant ps == (i - 1) / 16 * 4
      invariant Regs(A, B, C, D) == Rotated(Operations(r, cwp, i), i)
    {
      Quarters(i);
      if i % 16 == 0 {
        ps := ps + 4;
      }
      assert ps == i / 16 * 4;
      OpFacts(i, i / 16, i % 4);
      TurnFacts(r, cwp, i, A, B, C, D);
      var f: Word;
      match i / 16 {
        case 0 => f := FF(B, C, D);
        case 1 => f := FG(B, C, D);
        case 2 => f := FH(B, C, D);
        case _ => f := FI(B, C, D);
      }
      var temp := Turn(A, f, cwp[P_ARRAY[i]], T[i], S_ARRAY[ps + i % 4], B);
      A, D, C, B := D, C, B, temp;
      i := i + 1;
    }
    q := Regs(A, B, C, D);
  }

  /** MD5SUM_SIZE_VS_SPEED 2, the one selected: four loops of 16 turns with rotating registers. */
  method Rounds2(r: Regs, cwp: seq<Word>) returns (q: Regs)
    requires |cwp| == 16
    ensures q == Operations(r, cwp, 64)
  {
    hide Mix, Aux, Turn, Rotated, Operations, FF, FG, FH, FI, K, S, T, P_ARRAY, S_ARRAY;
    TableSizes();
    var A, B, C, D := r.a, r.b, r.c, r.d;
    var ps := 0;
    var temp: Word;
    RotatedEnds(r, cwp);
    for i := 0 to 16
      invariant Regs(A, B, C, D) == Rotated(Operations(r, cwp, i), i)
    {
      OpFacts(i, 0, i % 4);
      TurnFacts(r, cwp, i, A, B, C, D);
      temp := Turn(A, FF(B, C, D), cwp[P_ARRAY[i]], T[i], S_ARRAY[ps + i % 4], B);
      A, D, C, B := D, C, B, temp;
    }
    ps := ps + 4;
    for i := 0 to 16
      invariant Regs(A, B, C, D) == Rotated(Operations(r, cwp, 16 + i), 16 + i)
    {
      OpFacts(16 + i, 1, i % 4);
      TurnFacts(r, cwp, 16 + i, A, B, C, D);
      temp := Turn(A, FG(B, C, D), cwp[P_ARRAY[16 + i]], T[16 + i], S_ARRAY[ps + i % 4], B);
      A, D, C, B := D, C, B, temp;
    }
    ps := ps + 4;
    for i := 0 to 16
      invariant Regs(A, B, C, D) == Rotated(Operations(r, cwp, 32 + i), 32 + i)
    {
      OpFacts(32 + i, 2, i % 4);
      TurnFacts(r, cwp, 32 + i, A, B, C, D);
      temp := Turn(A, FH(B, C, D), cwp[P_ARRAY[32 + i]], T[32 + i], S_ARRAY[ps + i % 4], B);
      A, D, C, B := D, C, B, temp;
    }
    ps := ps + 4;
    for i := 0 to 16
      invariant Regs(A, B, C, D) == Rotated(Operations(r, cwp, 48 + i), 48 + i)
    {
      OpFacts(48 + i, 3, i % 4);
      TurnFacts(r, cwp, 48 + i, A, B, C, D);
      temp := Turn(A, FI(B, C, D), cwp[P_ARRAY[48 + i]], T[48 + i], S_ARRAY[ps + i % 4], B);
      A, D, C, B := D, C, B, temp;
    }
    q := Regs(A, B, C, D);
  }

  // ----- the variants that update the registers in place

  function Sel(round: nat, b: Word, c: Word, d: Word): Word {
    if round == 0 then FF(b, c, d) else if round == 1 then FG(b, c, d)
    else if round == 2 then FH(b, c, d) else FI(b, c, d)
  }

  lemma MixIsSel(i: nat, a: Word, b: Word, c: Word, d: Word, x: seq<Word>)
    requires i < 64 && |x| == 16
    ensures Mix(i, a, b, c, d, x) == Turn(a, Sel(i / 16, b, c, d), x[K(i)], T[i], S(i), b)
  {
    hide Mix, Turn, FF, FG, FH, FI, F, G, H, I, K, S;
    MixIsTurn(i, a, b, c, d, x);
    SelectorsMatch(b, c, d);
  }

  lemma NoOperations(r: Regs, x: seq<Word>)
    requires |x| == 16
    ensures Operations(r, x, 0) == r
  {
  }

  lemma OpA(r: Regs, x: seq<Word>, i: nat, round: nat, A: Word, B: Word, C: Word, D: Word)
    requires i < 64 && |x| == 16 && round == i / 16 && i % 4 == 0
    requires Regs(A, B, C, D) == Operations(r, x, i)
    ensures P_ARRAY[i] < 16 && 0 < S_ARRAY[4 * round + 0] < 32
    ensures Regs(Turn(A, Sel(round, B, C, D), x[P_ARRAY[i]], T[i], S_ARRAY[4 * round + 0], B), B, C, D)
         == Operations(r, x, i + 1)
  {
    hide Mix, Turn, Sel, K, S, T, P_ARRAY, S_ARRAY;
    OpFacts(i, round, 0);
    MixIsSel(i, A, B, C, D, x);
  }

  lemma OpD(r: Regs, x: seq<Word>, i: nat, round: nat, A: Word, B: Word, C: Word, D: Word)
    requires i < 64 && |x| == 16 && round == i / 16 && i % 4 == 1
    requires Regs(A, B, C, D) == Operations(r, x, i)
    ensures P_ARRAY[i] < 16 && 0 < S_ARRAY[4 * round + 1] < 32
    ensures Regs(A, B, C, Turn(D, Sel(round, A, B, C), x[P_ARRAY[i]], T[i], S_ARRAY[4 * round + 1], A))
         == Operations(r, x, i + 1)
  {
    hide Mix, Turn, Sel, K, S, T, P_ARRAY, S_ARRAY;
    OpFacts(i, round, 1);
    MixIsSel(i, D, A, B, C, x);
  }

  lemma OpC(r: Regs, x: seq<Word>, i: nat, round: nat, A: Word, B: Word, C: Word, D: Word)
    requires i < 64 && |x| == 16 && round == i / 16 && i % 4 == 2
    requires Regs(A, B, C, D) == Operations(r, x, i)
    ensures P_ARRAY[i] < 16 && 0 < S_ARRAY[4 * round + 2] < 32
    ensures Regs(A, B, Turn(C, Sel(round, D, A, B), x[P_ARRAY[i]], T[i], S_ARRAY[4 * round + 2], D), D)
         == Operations(r, x, i + 1)
  {
    hide Mix, Turn, Sel, K, S, T, P_ARRAY, S_ARRAY;
    OpFacts(i, round, 2);
    MixIsSel(i, C, D, A, B, x);
  }

  lemma OpB(r: Regs, x: seq<Word>, i: nat, round: nat, A: Word, B: Word, C: Word, D: Word)
    requires i < 64 && |x| == 16 && round == i / 16 && i % 4 == 3
    requires Regs(A, B, C, D) == Operations(r, x, i)
    ensures P_ARRAY[i] < 16 && 0 < S_ARRAY[4 * round + 3] < 32
    ensures Regs(A, Turn(B, Sel(round, C, D, A), x[P_ARRAY[i]], T[i], S_ARRAY[4 * round + 3], C), C, D)
         == Operations(r, x, i + 1)
  {
    hide Mix, Turn, Sel, K, S, T, P_ARRAY, S_ARRAY;
    OpFacts(i, round, 3);
    MixIsSel(i, B, C, D, A, x);
  }

  /** One round of variant 1: a loop of four in-place OPs, on A, D, C and B in turn. */
  method InPlaceRound(ghost r: Regs, q: Regs, x: seq<Word>, round: nat) returns (n: Regs)
    requires |x| == 16 && round < 4 && q == Operations(r, x, 16 * round)
    ensures n == Operations(r, x, 16 * round + 16)
  {
    hide Turn, Sel, Operations, T, P_ARRAY, S_ARRAY;
    TableSizes();
    var A, B, C, D := q.a, q.b, q.c, q.d;
    var pc := 16 * round;
    for i := 0 to 4
      invariant pc == 16 * round + 4 * i
      invariant Regs(A, B, C, D) == Operations(r, x, pc)
    {
      OpA(r, x, pc, round, A, B, C, D);
      A := Turn(A, Sel(round, B, C, D), x[P_ARRAY[pc]], T[pc], S_ARRAY[4 * round + 0], B);
      pc := pc + 1;
      OpD(r, x, pc, round, A, B, C, D);
      D := Turn(D, Sel(round, A, B, C), x[P_ARRAY[pc]], T[pc], S_ARRAY[4 * round + 1], A);
      pc := pc + 1;
      OpC(r, x, pc, round, A, B, C, D);
      C := Turn(C, Sel(round, D, A, B), x[P_ARRAY[pc]], T[pc], S_ARRAY[4 * round + 2], D);
      pc := pc + 1;
      OpB(r, x, pc, round, A, B, C, D);
      B := Turn(B, Sel(round, C, D, A), x[P_ARRAY[pc]], T[pc], S_ARRAY[4 * round + 3], C);
      pc := pc + 1;
    }
    n := Regs(A, B, C, D);
  }

  /** MD5SUM_SIZE_VS_SPEED 1. */
  method Rounds1(r: Regs, x: seq<Word>) returns (q: Regs)
    requires |x| == 16
    ensures q == Operations(r, x, 64)
  {
    hide Operations;
    NoOperations(r, x);
    q := InPlaceRound(r, r, x, 0);
    q := InPlaceRound(r, q, x, 1);
    q := InPlaceRound(r, q, x, 2);
    q := InPlaceRound(r, q, x, 3);
  }

  /** The OP macro of variant 0; the operation number picks the register that is updated. */
  method Op(ghost r: Regs, q: Regs, x: seq<Word>, i: nat, k: nat, s: Word, t: Word) returns (n: Regs)
    requires i < 64 && |x| == 16 && q == Operations(r, x, i)
    requires K(i) == k && S(i) == s && T[i] == t
    ensures n == Operations(r, x, i + 1)
  {
    hide Turn, Sel, Operations, T, P_ARRAY, S_ARRAY, K, S;
    var round := i / 16;
    OpFacts(i, round, i % 4);
    match i % 4 {
      case 0 =>
        OpA(r, x, i, round, q.a, q.b, q.c, q.d);
        n := q.(a := Turn(q.a, Sel(round, q.b, q.c, q.d), x[k], t, s, q.b));
      case 1 =>
        OpD(r, x, i, round, q.a, q.b, q.c, q.d);
        n := q.(d := Turn(q.d, Sel(round, q.a, q.b, q.c), x[k], t, s, q.a));
      case 2 =>
        OpC(r, x, i, round, q.a, q.b, q.c, q.d);
        n := q.(c := Turn(q.c, Sel(round, q.d, q.a, q.b), x[k], t, s, q.d));
      case _ =>
        OpB(r, x, i, round, q.a, q.b, q.c, q.d);
        n := q.(b := Turn(q.b, Sel(round, q.c, q.d, q.a), x[k], t, s, q.c));
    }
  }

  lemma ConstantRow1()
    ensures |T| == 64
    ensures T[0] == T1[0] && T[1] == T1[1] && T[2] == T1[2] && T[3] == T1[3]
    ensures T[4] == T1[4] && T[5] == T1[5] && T[6] == T1[6] && T[7] == T1[7]
  {
  }

  /** First half of round 1 of variant 0: literal word indices, rotations and constants. */
  method UnrolledHalf1(ghost r: Regs, q: Regs, x: seq<Word>) returns (n: Regs)
    requires |x| == 16 && q == Operations(r, x, 0)
    ensures n == Operations(r, x, 8)
  {
    hide Operations, T;
    ConstantRow1();
    n := q;
    n := Op(r, n, x, 0, 0, 7, 0xd76aa478);
    n := Op(r, n, x, 1, 1, 12, 0xe8c7b756);
    n := Op(r, n, x, 2, 2, 17, 0x242070db);
    n := Op(r, n, x, 3, 3, 22, 0xc1bdceee);
    n := Op(r, n, x, 4, 4, 7, 0xf57c0faf);
    n := Op(r, n, x, 5, 5, 12, 0x4787c62a);
    n := Op(r, n, x, 6, 6, 17, 0xa8304613);
    n := Op(r, n, x, 7, 7, 22, 0xfd469501);
  }

  lemma ConstantRow2()
    ensures |T| == 64
    ensures T[8] == T2[0] && T[9] == T2[1] && T[10] == T2[2] && T[11] == T2[3]
    ensures T[12] == T2[4] && T[13] == T2[5] && T[14] == T2[6] && T[15] == T2[7]
  {
  }

  /** Second half of round 1 of variant 0: literal word indices, rotations and constants. */
  method UnrolledHalf2(ghost r: Regs, q: Regs, x: seq<Word>) returns (n: Regs)
    requires |x| == 16 && q == Operations(r, x, 8)
    ensures n == Operations(r, x, 16)
  {
    hide Operations, T;
    ConstantRow2();
    n := q;
    n := Op(r, n, x, 8, 8, 7, 0x698098d8);
    n := Op(r, n, x, 9, 9, 12, 0x8b44f7af);
    n := Op(r, n, x, 10, 10, 17, 0xffff5bb1);
    n := Op(r, n, x, 11, 11, 22, 0x895cd7be);
    n := Op(r, n, x, 12, 12, 7, 0x6b901122);
    n := Op(r, n, x, 13, 13, 12, 0xfd987193);
    n := Op(r, n, x, 14, 14, 17, 0xa679438e);
    n := Op(r, n, x, 15, 15, 22, 0x49b40821);
  }

  lemma ConstantRow3()
    ensures |T| == 64
    ensures T[16] == T3[0] && T[17] == T3[1] && T[18] == T3[2] && T[19] == T3[3]
    ensures T[20] == T3[4] && T[21] == T3[5] && T[22] == T3[6] && T[23] == T3[7]
  {
  }

  /** First half of round 2 of variant 0: literal word indices, rotations and constants. */
  method UnrolledHalf3(ghost r: Regs, q: Regs, x: seq<Word>) returns (n: Regs)
    requires |x| == 16 && q == Operations(r, x, 16)
    ensures n == Operations(r, x, 24)
  {
    hide Operations, T;
    ConstantRow3();
    n := q;
    n := Op(r, n, x, 16, 1, 5, 0xf61e2562);
    n := Op(r, n, x, 17, 6, 9, 0xc040b340);
    n := Op(r, n, x, 18, 11, 14, 0x265e5a51);
    n := Op(r, n, x, 19, 0, 20, 0xe9b6c7aa);
    n := Op(r, n, x, 20, 5, 5, 0xd62f105d);
    n := Op(r, n, x, 21, 10, 9, 0x02441453);
    n := Op(r, n, x, 22, 15, 14, 0xd8a1e681);
    n := Op(r, n, x, 23, 4, 20, 0xe7d3fbc8);
  }

  lemma ConstantRow4()
    ensures |T| == 64
    ensures T[24] == T4[0] && T[25] == T4[1] && T[26] == T4[2] && T[27] == T4[3]
    ensures T[28] == T4[4] && T[29] == T4[5] && T[30] == T4[6] && T[31] == T4[7]
  {
  }

  /** Second half of round 2 of variant 0: literal word indices, rotations and constants. */
  method UnrolledHalf4(ghost r: Regs, q: Regs, x: seq<Word>) returns (n: Regs)
    requires |x| == 16 && q == Operations(r, x, 24)
    ensures n == Operations(r, x, 32)
  {
    hide Operations, T;
    ConstantRow4();
    n := q;
    n := Op(r, n, x, 24, 9, 5, 0x21e1cde6);
    n := Op(r, n, x, 25, 14, 9, 0xc33707d6);
    n := Op(r, n, x, 26, 3, 14, 0xf4d50d87);
    n := Op(r, n, x, 27, 8, 20, 0x455a14ed);
    n := Op(r, n, x, 28, 13, 5, 0xa9e3e905);
    n := Op(r, n, x, 29, 2, 9, 0xfcefa3f8);
    n := Op(r, n, x, 30, 7, 14, 0x676f02d9);
    n := Op(r, n, x, 31, 12, 20, 0x8d2a4c8a);
  }

  lemma ConstantRow5()
    ensures |T| == 64
    ensures T[32] == T5[0] && T[33] == T5[1] && T[34] == T5[2] && T[35] == T5[3]
    ensures T[36] == T5[4] && T[37] == T5[5] && T[38] == T5[6] && T[39] == T5[7]
  {
  }

  /** First half of round 3 of variant 0: literal word indices, rotations and constants. */
  method UnrolledHalf5(ghost r: Regs, q: Regs, x: seq<Word>) returns (n: Regs)
    requires |x| == 16 && q == Operations(r, x, 32)
    ensures n == Operations(r, x, 40)
  {
    hide Operations, T;
    ConstantRow5();
    n := q;
    n := Op(r, n, x, 32, 5, 4, 0xfffa3942);
    n := Op(r, n, x, 33, 8, 11, 0x8771f681);
    n := Op(r, n, x, 34, 11, 16, 0x6d9d6122);
    n := Op(r, n, x, 35, 14, 23, 0xfde5380c);
    n := Op(r, n, x, 36, 1, 4, 0xa4beea44);
    n := Op(r, n, x, 37, 4, 11, 0x4bdecfa9);
    n := Op(r, n, x, 38, 7, 16, 0xf6bb4b60);
    n := Op(r, n, x, 39, 10, 23, 0xbebfbc70);
  }

  lemma ConstantRow6()
    ensures |T| == 64
    ensures T[40] == T6[0] && T[41] == T6[1] && T[42] == T6[2] && T[43] == T6[3]
    ensures T[44] == T6[4] && T[45] == T6[5] && T[46] == T6[6] && T[47] == T6[7]
  {
  }

  /** Second half of round 3 of variant 0: literal word indices, rotations and constants. */
  method UnrolledHalf6(ghost r: Regs, q: Regs, x: seq<Word>) returns (n: Regs)
    requires |x| == 16 && q == Operations(r, x, 40)
    ensures n == Operations(r, x, 48)
  {
    hide Operations, T;
    ConstantRow6();
    n := q;
    n := Op(r, n, x, 40, 13, 4, 0x289b7ec6);
    n := Op(r, n, x, 41, 0, 11, 0xeaa127fa);
    n := Op(r, n, x, 42, 3, 16, 0xd4ef3085);
    n := Op(r, n, x, 43, 6, 23, 0x04881d05);
    n := Op(r, n, x, 44, 9, 4, 0xd9d4d039);
    n := Op(r, n, x, 45, 12, 11, 0xe6db99e5);
    n := Op(r, n, x, 46, 15, 16, 0x1fa27cf8);
    n := Op(r, n, x, 47, 2, 23, 0xc4ac5665);
  }

  lemma ConstantRow7()
    ensures |T| == 64
    ensures T[48] == T7[0] && T[49] == T7[1] && T[50] == T7[2] && T[51] == T7[3]
    ensures T[52] == T7[4] && T[53] == T7[5] && T[54] == T7[6] && T[55] == T7[7]
  {
  }

  /** First half of round 4 of variant 0: literal word indices, rotations and constants. */
  method UnrolledHalf7(ghost r: Regs, q: Regs, x: seq<Word>) returns (n: Regs)
    requires |x| == 16 && q == Operations(r, x, 48)
    ensures n == Operations(r, x, 56)
  {
    hide Operations, T;
    ConstantRow7();
    n := q;
    n := Op(r, n, x, 48, 0, 6, 0xf4292244);
    n := Op(r, n, x, 49, 7, 10, 0x432aff97);
    n := Op(r, n, x, 50, 14, 15, 0xab9423a7);
    n := Op(r, n, x, 51, 5, 21, 0xfc93a039);
    n := Op(r, n, x, 52, 12, 6, 0x655b59c3);
    n := Op(r, n, x, 53, 3, 10, 0x8f0ccc92);
    n := Op(r, n, x, 54, 10, 15, 0xffeff47d);
    n := Op(r, n, x, 55, 1, 21, 0x85845dd1);
  }

  lemma ConstantRow8()
    ensures |T| == 64
    ensures T[56] == T8[0] && T[57] == T8[1] && T[58] == T8[2] && T[59] == T8[3]
    ensures T[60] == T8[4] && T[61] == T8[5] && T[62] == T8[6] && T[63] == T8[7]
  {
  }

  /** Second half of round 4 of variant 0: literal word indices, rotations and constants. */
  method UnrolledHalf8(ghost r: Regs, q: Regs, x: seq<Word>) returns (n: Regs)
    requires |x| == 16 && q == Operations(r, x, 56)
    ensures n == Operations(r, x, 64)
  {
    hide Operations, T;
    ConstantRow8();
    n := q;
    n := Op(r, n, x, 56, 8, 6, 0x6fa87e4f);
    n := Op(r, n, x, 57, 15, 10, 0xfe2ce6e0);
    n := Op(r, n, x, 58, 6, 15, 0xa3014314);
    n := Op(r, n, x, 59, 13, 21, 0x4e0811a1);
    n := Op(r, n, x, 60, 4, 6, 0xf7537e82);
    n := Op(r, n, x, 61, 11, 10, 0xbd3af235);
    n := Op(r, n, x, 62, 2, 15, 0x2ad7d2bb);
    n := Op(r, n, x, 63, 9, 21, 0xeb86d391);
  }

  /** MD5SUM_SIZE_VS_SPEED 0: everything unrolled. */
  method Rounds0(r: Regs, x: seq<Word>) returns (q: Regs)
    requires |x| == 16
    ensures q == Operations(r, x, 64)
  {
    hide Operations;
    NoOperations(r, x);
    q := UnrolledHalf1(r, r, x);
    q := UnrolledHalf2(r, q, x);
    q := UnrolledHalf3(r, q, x);
    q := UnrolledHalf4(r, q, x);
    q := UnrolledHalf5(r, q, x);
    q := UnrolledHalf6(r, q, x);
    q := UnrolledHalf7(r, q, x);
    q := UnrolledHalf8(r, q, x);
  }
}
