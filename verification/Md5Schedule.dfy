/** The 64 operations of section 3.4 of RFC 1321 in passes of four, with their constants written out. */
module Md5Schedule {
  import opened Bytes
  import opened Md5Spec
  import Md5Rounds

  // ----- one operation as a formula

  function StepF(a: Word, b: Word, c: Word, d: Word, x: Word, t: Word, s: Word): Word
    requires 0 < s < 32
  {
    Blend(a, (b & c) | (!b & d), x, t, s, b)
  }

  function StepG(a: Word, b: Word, c: Word, d: Word, x: Word, t: Word, s: Word): Word
    requires 0 < s < 32
  {
    Blend(a, (b & d) | (c & !d), x, t, s, b)
  }

  function StepH(a: Word, b: Word, c: Word, d: Word, x: Word, t: Word, s: Word): Word
    requires 0 < s < 32
  {
    Blend(a, b ^ c ^ d, x, t, s, b)
  }

  function StepI(a: Word, b: Word, c: Word, d: Word, x: Word, t: Word, s: Word): Word
    requires 0 < s < 32
  {
    Blend(a, c ^ (b | !d), x, t, s, b)
  }

  function Step(round: nat, a: Word, b: Word, c: Word, d: Word, x: Word, t: Word, s: Word): Word
    requires 0 < s < 32
  {
    if round == 0 then StepF(a, b, c, d, x, t, s) else if round == 1 then StepG(a, b, c, d, x, t, s)
    else if round == 2 then StepH(a, b, c, d, x, t, s) else StepI(a, b, c, d, x, t, s)
  }

  lemma StepFIs(a: Word, b: Word, c: Word, d: Word, x: Word, t: Word, s: Word)
    requires 0 < s < 32
    ensures StepF(a, b, c, d, x, t, s) == Blend(a, F(b, c, d), x, t, s, b)
  {
    hide Blend;
  }

  lemma StepGIs(a: Word, b: Word, c: Word, d: Word, x: Word, t: Word, s: Word)
    requires 0 < s < 32
    ensures StepG(a, b, c, d, x, t, s) == Blend(a, G(b, c, d), x, t, s, b)
  {
    hide Blend;
  }

  lemma StepHIs(a: Word, b: Word, c: Word, d: Word, x: Word, t: Word, s: Word)
    requires 0 < s < 32
    ensures StepH(a, b, c, d, x, t, s) == Blend(a, H(b, c, d), x, t, s, b)
  {
    hide Blend;
  }

  lemma StepIIs(a: Word, b: Word, c: Word, d: Word, x: Word, t: Word, s: Word)
    requires 0 < s < 32
    ensures StepI(a, b, c, d, x, t, s) == Blend(a, I(b, c, d), x, t, s, b)
  {
    hide Blend;
  }

  lemma MixIsStep(i: nat, a: Word, b: Word, c: Word, d: Word, x: seq<Word>)
    requires i < 64 && |x| == 16
    ensures Mix(i, a, b, c, d, x) == Step(i / 16, a, b, c, d, x[K(i)], T[i], S(i))
  {
    TableSize();
    hide F, G, H, I, K, S, T, Blend, StepF, StepG, StepH, StepI;
    StepFIs(a, b, c, d, x[K(i)], T[i], S(i));
    StepGIs(a, b, c, d, x[K(i)], T[i], S(i));
    StepHIs(a, b, c, d, x[K(i)], T[i], S(i));
    StepIIs(a, b, c, d, x[K(i)], T[i], S(i));
  }

  // ----- the constants, as the section lists them

  datatype Data = Data(x: Word, t: Word, s: Word)

  function DataOf(x: seq<Word>, i: nat): (d: Data)
    requires |x| == 16 && i < 64
    ensures 0 < d.s < 32
  {
    TableSize();
    Data(x[K(i)], T[i], S(i))
  }

  lemma TableSize()
    ensures |T| == 64
  {
  }

  lemma Row0(x: seq<Word>)
    requires |x| == 16
    ensures DataOf(x, 0) == Data(x[0], 0xd76aa478, 7)
    ensures DataOf(x, 1) == Data(x[1], 0xe8c7b756, 12)
    ensures DataOf(x, 2) == Data(x[2], 0x242070db, 17)
    ensures DataOf(x, 3) == Data(x[3], 0xc1bdceee, 22)
  {
    Md5Rounds.ConstantRow1();
    hide T;
  }

  lemma Row1(x: seq<Word>)
    requires |x| == 16
    ensures DataOf(x, 4) == Data(x[4], 0xf57c0faf, 7)
    ensures DataOf(x, 5) == Data(x[5], 0x4787c62a, 12)
    ensures DataOf(x, 6) == Data(x[6], 0xa8304613, 17)
    ensures DataOf(x, 7) == Data(x[7], 0xfd469501, 22)
  {
    Md5Rounds.ConstantRow1();
    hide T;
  }

  lemma Row2(x: seq<Word>)
    requires |x| == 16
    ensures DataOf(x, 8) == Data(x[8], 0x698098d8, 7)
    ensures DataOf(x, 9) == Data(x[9], 0x8b44f7af, 12)
    ensures DataOf(x, 10) == Data(x[10], 0xffff5bb1, 17)
    ensures DataOf(x, 11) == Data(x[11], 0x895cd7be, 22)
  {
    Md5Rounds.ConstantRow2();
    hide T;
  }

  lemma Row3(x: seq<Word>)
    requires |x| == 16
    ensures DataOf(x, 12) == Data(x[12], 0x6b901122, 7)
    ensures DataOf(x, 13) == Data(x[13], 0xfd987193, 12)
    ensures DataOf(x, 14) == Data(x[14], 0xa679438e, 17)
    ensures DataOf(x, 15) == Data(x[15], 0x49b40821, 22)
  {
    Md5Rounds.ConstantRow2();
    hide T;
  }

  lemma Row4(x: seq<Word>)
    requires |x| == 16
    ensures DataOf(x, 16) == Data(x[1], 0xf61e2562, 5)
    ensures DataOf(x, 17) == Data(x[6], 0xc040b340, 9)
    ensures DataOf(x, 18) == Data(x[11], 0x265e5a51, 14)
    ensures DataOf(x, 19) == Data(x[0], 0xe9b6c7aa, 20)
  {
    Md5Rounds.ConstantRow3();
    hide T;
  }

  lemma Row5(x: seq<Word>)
    requires |x| == 16
    ensures DataOf(x, 20) == Data(x[5], 0xd62f105d, 5)
    ensures DataOf(x, 21) == Data(x[10], 0x02441453, 9)
    ensures DataOf(x, 22) == Data(x[15], 0xd8a1e681, 14)
    ensures DataOf(x, 23) == Data(x[4], 0xe7d3fbc8, 20)
  {
    Md5Rounds.ConstantRow3();
    hide T;
  }

  lemma Row6(x: seq<Word>)
    requires |x| == 16
    ensures DataOf(x, 24) == Data(x[9], 0x21e1cde6, 5)
    ensures DataOf(x, 25) == Data(x[14], 0xc33707d6, 9)
    ensures DataOf(x, 26) == Data(x[3], 0xf4d50d87, 14)
    ensures DataOf(x, 27) == Data(x[8], 0x455a14ed, 20)
  {
    Md5Rounds.ConstantRow4();
    hide T;
  }

  lemma Row7(x: seq<Word>)
    requires |x| == 16
    ensures DataOf(x, 28) == Data(x[13], 0xa9e3e905, 5)
    ensures DataOf(x, 29) == Data(x[2], 0xfcefa3f8, 9)
    ensures DataOf(x, 30) == Data(x[7], 0x676f02d9, 14)
    ensures DataOf(x, 31) == Data(x[12], 0x8d2a4c8a, 20)
  {
    Md5Rounds.ConstantRow4();
    hide T;
  }

  lemma Row8(x: seq<Word>)
    requires |x| == 16
    ensures DataOf(x, 32) == Data(x[5], 0xfffa3942, 4)
    ensures DataOf(x, 33) == Data(x[8], 0x8771f681, 11)
    ensures DataOf(x, 34) == Data(x[11], 0x6d9d6122, 16)
    ensures DataOf(x, 35) == Data(x[14], 0xfde5380c, 23)
  {
    Md5Rounds.ConstantRow5();
    hide T;
  }

  lemma Row9(x: seq<Word>)
    requires |x| == 16
    ensures DataOf(x, 36) == Data(x[1], 0xa4beea44, 4)
    ensures DataOf(x, 37) == Data(x[4], 0x4bdecfa9, 11)
    ensures DataOf(x, 38) == Data(x[7], 0xf6bb4b60, 16)
    ensures DataOf(x, 39) == Data(x[10], 0xbebfbc70, 23)
  {
    Md5Rounds.ConstantRow5();
    hide T;
  }

  lemma Row10(x: seq<Word>)
    requires |x| == 16
    ensures DataOf(x, 40) == Data(x[13], 0x289b7ec6, 4)
    ensures DataOf(x, 41) == Data(x[0], 0xeaa127fa, 11)
    ensures DataOf(x, 42) == Data(x[3], 0xd4ef3085, 16)
    ensures DataOf(x, 43) == Data(x[6], 0x04881d05, 23)
  {
    Md5Rounds.ConstantRow6();
    hide T;
  }

  lemma Row11(x: seq<Word>)
    requires |x| == 16
    ensures DataOf(x, 44) == Data(x[9], 0xd9d4d039, 4)
    ensures DataOf(x, 45) == Data(x[12], 0xe6db99e5, 11)
    ensures DataOf(x, 46) == Data(x[15], 0x1fa27cf8, 16)
    ensures DataOf(x, 47) == Data(x[2], 0xc4ac5665, 23)
  {
    Md5Rounds.ConstantRow6();
    hide T;
  }

  lemma Row12(x: seq<Word>)
    requires |x| == 16
    ensures DataOf(x, 48) == Data(x[0], 0xf4292244, 6)
    ensures DataOf(x, 49) == Data(x[7], 0x432aff97, 10)
    ensures DataOf(x, 50) == Data(x[14], 0xab9423a7, 15)
    ensures DataOf(x, 51) == Data(x[5], 0xfc93a039, 21)
  {
    Md5Rounds.ConstantRow7();
    hide T;
  }

  lemma Row13(x: seq<Word>)
    requires |x| == 16
    ensures DataOf(x, 52) == Data(x[12], 0x655b59c3, 6)
    ensures DataOf(x, 53) == Data(x[3], 0x8f0ccc92, 10)
    ensures DataOf(x, 54) == Data(x[10], 0xffeff47d, 15)
    ensures DataOf(x, 55) == Data(x[1], 0x85845dd1, 21)
  {
    Md5Rounds.ConstantRow7();
    hide T;
  }

  lemma Row14(x: seq<Word>)
    requires |x| == 16
    ensures DataOf(x, 56) == Data(x[8], 0x6fa87e4f, 6)
    ensures DataOf(x, 57) == Data(x[15], 0xfe2ce6e0, 10)
    ensures DataOf(x, 58) == Data(x[6], 0xa3014314, 15)
    ensures DataOf(x, 59) == Data(x[13], 0x4e0811a1, 21)
  {
    Md5Rounds.ConstantRow8();
    hide T;
  }

  lemma Row15(x: seq<Word>)
    requires |x| == 16
    ensures DataOf(x, 60) == Data(x[4], 0xf7537e82, 6)
    ensures DataOf(x, 61) == Data(x[11], 0xbd3af235, 10)
    ensures DataOf(x, 62) == Data(x[2], 0x2ad7d2bb, 15)
    ensures DataOf(x, 63) == Data(x[9], 0xeb86d391, 21)
  {
    Md5Rounds.ConstantRow8();
    hide T;
  }

  // ----- four operations

  /** From registers a, b, c, d behind i operations to a1, b1, c1, d1 behind four more. */
  predicate IsPass(round: nat, a: Word, b: Word, c: Word, d: Word, d0: Data, d1: Data, d2: Data, d3: Data, n: Regs)
    requires 0 < d0.s < 32 && 0 < d1.s < 32 && 0 < d2.s < 32 && 0 < d3.s < 32
  {
    && n.a == Step(round, a, b, c, d, d0.x, d0.t, d0.s)
    && n.d == Step(round, d, n.a, b, c, d1.x, d1.t, d1.s)
    && n.c == Step(round, c, n.d, n.a, b, d2.x, d2.t, d2.s)
    && n.b == Step(round, b, n.c, n.d, n.a, d3.x, d3.t, d3.s)
  }

  lemma OperationsStep(r: Regs, x: seq<Word>, i: nat)
    requires |x| == 16 && i < 64
    ensures Operations(r, x, i + 1) == Operation(Operations(r, x, i), x, i)
  {
    hide Operation;
  }

  lemma NoOperations(r: Regs, x: seq<Word>)
    requires |x| == 16
    ensures Operations(r, x, 0) == r
  {
  }

  lemma FourOperations(q: Regs, x: seq<Word>, i: nat, n: Regs)
    requires |x| == 16 && i <= 60 && i % 4 == 0
    requires IsPass(i / 16, q.a, q.b, q.c, q.d, DataOf(x, i), DataOf(x, i + 1), DataOf(x, i + 2), DataOf(x, i + 3), n)
    ensures Operation(Operation(Operation(Operation(q, x, i), x, i + 1), x, i + 2), x, i + 3) == n
  {
    TableSize();
    hide Mix, Step, K, S, T;
    assert (i + 1) / 16 == i / 16 && (i + 2) / 16 == i / 16 && (i + 3) / 16 == i / 16;
    assert (i + 1) % 4 == 1 && (i + 2) % 4 == 2 && (i + 3) % 4 == 3;
    MixIsStep(i, q.a, q.b, q.c, q.d, x);
    MixIsStep(i + 1, q.d, n.a, q.b, q.c, x);
    MixIsStep(i + 2, q.c, n.d, n.a, q.b, x);
    MixIsStep(i + 3, q.b, n.c, n.d, n.a, x);
  }

  lemma Pass(r: Regs, x: seq<Word>, i: nat, q: Regs, n: Regs)
    requires |x| == 16 && i <= 60 && i % 4 == 0 && Operations(r, x, i) == q
    requires IsPass(i / 16, q.a, q.b, q.c, q.d, DataOf(x, i), DataOf(x, i + 1), DataOf(x, i + 2), DataOf(x, i + 3), n)
    ensures Operations(r, x, i + 4) == n
  {
    hide Operations, Operation, IsPass, DataOf;
    OperationsStep(r, x, i);
    OperationsStep(r, x, i + 1);
    OperationsStep(r, x, i + 2);
    OperationsStep(r, x, i + 3);
    FourOperations(q, x, i, n);
  }

  lemma Pass0(r: Regs, x: seq<Word>, x0: Word, x1: Word, x2: Word, x3: Word,
              a: Word, b: Word, c: Word, d: Word, a1: Word, b1: Word, c1: Word, d1: Word)
    requires |x| == 16 && x[0] == x0 && x[1] == x1 && x[2] == x2 && x[3] == x3
    requires Operations(r, x, 0) == Regs(a, b, c, d)
    requires a1 == StepF(a, b, c, d, x0, 0xd76aa478, 7)
    requires d1 == StepF(d, a1, b, c, x1, 0xe8c7b756, 12)
    requires c1 == StepF(c, d1, a1, b, x2, 0x242070db, 17)
    requires b1 == StepF(b, c1, d1, a1, x3, 0xc1bdceee, 22)
    ensures Operations(r, x, 4) == Regs(a1, b1, c1, d1)
  {
    hide Operations, DataOf, StepF, StepG, StepH, StepI;
    Row0(x);
    Pass(r, x, 0, Regs(a, b, c, d), Regs(a1, b1, c1, d1));
  }

  lemma Pass1(r: Regs, x: seq<Word>, x0: Word, x1: Word, x2: Word, x3: Word,
              a: Word, b: Word, c: Word, d: Word, a1: Word, b1: Word, c1: Word, d1: Word)
    requires |x| == 16 && x[4] == x0 && x[5] == x1 && x[6] == x2 && x[7] == x3
    requires Operations(r, x, 4) == Regs(a, b, c, d)
    requires a1 == StepF(a, b, c, d, x0, 0xf57c0faf, 7)
    requires d1 == StepF(d, a1, b, c, x1, 0x4787c62a, 12)
    requires c1 == StepF(c, d1, a1, b, x2, 0xa8304613, 17)
    requires b1 == StepF(b, c1, d1, a1, x3, 0xfd469501, 22)
    ensures Operations(r, x, 8) == Regs(a1, b1, c1, d1)
  {
    hide Operations, DataOf, StepF, StepG, StepH, StepI;
    Row1(x);
    Pass(r, x, 4, Regs(a, b, c, d), Regs(a1, b1, c1, d1));
  }

  lemma Pass2(r: Regs, x: seq<Word>, x0: Word, x1: Word, x2: Word, x3: Word,
              a: Word, b: Word, c: Word, d: Word, a1: Word, b1: Word, c1: Word, d1: Word)
    requires |x| == 16 && x[8] == x0 && x[9] == x1 && x[10] == x2 && x[11] == x3
    requires Operations(r, x, 8) == Regs(a, b, c, d)
    requires a1 == StepF(a, b, c, d, x0, 0x698098d8, 7)
    requires d1 == StepF(d, a1, b, c, x1, 0x8b44f7af, 12)
    requires c1 == StepF(c, d1, a1, b, x2, 0xffff5bb1, 17)
    requires b1 == StepF(b, c1, d1, a1, x3, 0x895cd7be, 22)
    ensures Operations(r, x, 12) == Regs(a1, b1, c1, d1)
  {
    hide Operations, DataOf, StepF, StepG, StepH, StepI;
    Row2(x);
    Pass(r, x, 8, Regs(a, b, c, d), Regs(a1, b1, c1, d1));
  }

  lemma Pass3(r: Regs, x: seq<Word>, x0: Word, x1: Word, x2: Word, x3: Word,
              a: Word, b: Word, c: Word, d: Word, a1: Word, b1: Word, c1: Word, d1: Word)
    requires |x| == 16 && x[12] == x0 && x[13] == x1 && x[14] == x2 && x[15] == x3
    requires Operations(r, x, 12) == Regs(a, b, c, d)
    requires a1 == StepF(a, b, c, d, x0, 0x6b901122, 7)
    requires d1 == StepF(d, a1, b, c, x1, 0xfd987193, 12)
    requires c1 == StepF(c, d1, a1, b, x2, 0xa679438e, 17)
    requires b1 == StepF(b, c1, d1, a1, x3, 0x49b40821, 22)
    ensures Operations(r, x, 16) == Regs(a1, b1, c1, d1)
  {
    hide Operations, DataOf, StepF, StepG, StepH, StepI;
    Row3(x);
    Pass(r, x, 12, Regs(a, b, c, d), Regs(a1, b1, c1, d1));
  }

  lemma Pass4(r: Regs, x: seq<Word>, x0: Word, x1: Word, x2: Word, x3: Word,
              a: Word, b: Word, c: Word, d: Word, a1: Word, b1: Word, c1: Word, d1: Word)
    requires |x| == 16 && x[1] == x0 && x[6] == x1 && x[11] == x2 && x[0] == x3
    requires Operations(r, x, 16) == Regs(a, b, c, d)
    requires a1 == StepG(a, b, c, d, x0, 0xf61e2562, 5)
    requires d1 == StepG(d, a1, b, c, x1, 0xc040b340, 9)
    requires c1 == StepG(c, d1, a1, b, x2, 0x265e5a51, 14)
    requires b1 == StepG(b, c1, d1, a1, x3, 0xe9b6c7aa, 20)
    ensures Operations(r, x, 20) == Regs(a1, b1, c1, d1)
  {
    hide Operations, DataOf, StepF, StepG, StepH, StepI;
    Row4(x);
    Pass(r, x, 16, Regs(a, b, c, d), Regs(a1, b1, c1, d1));
  }

  lemma Pass5(r: Regs, x: seq<Word>, x0: Word, x1: Word, x2: Word, x3: Word,
              a: Word, b: Word, c: Word, d: Word, a1: Word, b1: Word, c1: Word, d1: Word)
    requires |x| == 16 && x[5] == x0 && x[10] == x1 && x[15] == x2 && x[4] == x3
    requires Operations(r, x, 20) == Regs(a, b, c, d)
    requires a1 == StepG(a, b, c, d, x0, 0xd62f105d, 5)
    requires d1 == StepG(d, a1, b, c, x1, 0x02441453, 9)
    requires c1 == StepG(c, d1, a1, b, x2, 0xd8a1e681, 14)
    requires b1 == StepG(b, c1, d1, a1, x3, 0xe7d3fbc8, 20)
    ensures Operations(r, x, 24) == Regs(a1, b1, c1, d1)
  {
    hide Operations, DataOf, StepF, StepG, StepH, StepI;
    Row5(x);
    Pass(r, x, 20, Regs(a, b, c, d), Regs(a1, b1, c1, d1));
  }

  lemma Pass6(r: Regs, x: seq<Word>, x0: Word, x1: Word, x2: Word, x3: Word,
              a: Word, b: Word, c: Word, d: Word, a1: Word, b1: Word, c1: Word, d1: Word)
    requires |x| == 16 && x[9] == x0 && x[14] == x1 && x[3] == x2 && x[8] == x3
    requires Operations(r, x, 24) == Regs(a, b, c, d)
    requires a1 == StepG(a, b, c, d, x0, 0x21e1cde6, 5)
    requires d1 == StepG(d, a1, b, c, x1, 0xc33707d6, 9)
    requires c1 == StepG(c, d1, a1, b, x2, 0xf4d50d87, 14)
    requires b1 == StepG(b, c1, d1, a1, x3, 0x455a14ed, 20)
    ensures Operations(r, x, 28) == Regs(a1, b1, c1, d1)
  {
    hide Operations, DataOf, StepF, StepG, StepH, StepI;
    Row6(x);
    Pass(r, x, 24, Regs(a, b, c, d), Regs(a1, b1, c1, d1));
  }

  lemma Pass7(r: Regs, x: seq<Word>, x0: Word, x1: Word, x2: Word, x3: Word,
              a: Word, b: Word, c: Word, d: Word, a1: Word, b1: Word, c1: Word, d1: Word)
    requires |x| == 16 && x[13] == x0 && x[2] == x1 && x[7] == x2 && x[12] == x3
    requires Operations(r, x, 28) == Regs(a, b, c, d)
    requires a1 == StepG(a, b, c, d, x0, 0xa9e3e905, 5)
    requires d1 == StepG(d, a1, b, c, x1, 0xfcefa3f8, 9)
    requires c1 == StepG(c, d1, a1, b, x2, 0x676f02d9, 14)
    requires b1 == StepG(b, c1, d1, a1, x3, 0x8d2a4c8a, 20)
    ensures Operations(r, x, 32) == Regs(a1, b1, c1, d1)
  {
    hide Operations, DataOf, StepF, StepG, StepH, StepI;
    Row7(x);
    Pass(r, x, 28, Regs(a, b, c, d), Regs(a1, b1, c1, d1));
  }

  lemma Pass8(r: Regs, x: seq<Word>, x0: Word, x1: Word, x2: Word, x3: Word,
              a: Word, b: Word, c: Word, d: Word, a1: Word, b1: Word, c1: Word, d1: Word)
    requires |x| == 16 && x[5] == x0 && x[8] == x1 && x[11] == x2 && x[14] == x3
    requires Operations(r, x, 32) == Regs(a, b, c, d)
    requires a1 == StepH(a, b, c, d, x0, 0xfffa3942, 4)
    requires d1 == StepH(d, a1, b, c, x1, 0x8771f681, 11)
    requires c1 == StepH(c, d1, a1, b, x2, 0x6d9d6122, 16)
    requires b1 == StepH(b, c1, d1, a1, x3, 0xfde5380c, 23)
    ensures Operations(r, x, 36) == Regs(a1, b1, c1, d1)
  {
    hide Operations, DataOf, StepF, StepG, StepH, StepI;
    Row8(x);
    Pass(r, x, 32, Regs(a, b, c, d), Regs(a1, b1, c1, d1));
  }

  lemma Pass9(r: Regs, x: seq<Word>, x0: Word, x1: Word, x2: Word, x3: Word,
              a: Word, b: Word, c: Word, d: Word, a1: Word, b1: Word, c1: Word, d1: Word)
    requires |x| == 16 && x[1] == x0 && x[4] == x1 && x[7] == x2 && x[10] == x3
    requires Operations(r, x, 36) == Regs(a, b, c, d)
    requires a1 == StepH(a, b, c, d, x0, 0xa4beea44, 4)
    requires d1 == StepH(d, a1, b, c, x1, 0x4bdecfa9, 11)
    requires c1 == StepH(c, d1, a1, b, x2, 0xf6bb4b60, 16)
    requires b1 == StepH(b, c1, d1, a1, x3, 0xbebfbc70, 23)
    ensures Operations(r, x, 40) == Regs(a1, b1, c1, d1)
  {
    hide Operations, DataOf, StepF, StepG, StepH, StepI;
    Row9(x);
    Pass(r, x, 36, Regs(a, b, c, d), Regs(a1, b1, c1, d1));
  }

  lemma Pass10(r: Regs, x: seq<Word>, x0: Word, x1: Word, x2: Word, x3: Word,
              a: Word, b: Word, c: Word, d: Word, a1: Word, b1: Word, c1: Word, d1: Word)
    requires |x| == 16 && x[13] == x0 && x[0] == x1 && x[3] == x2 && x[6] == x3
    requires Operations(r, x, 40) == Regs(a, b, c, d)
    requires a1 == StepH(a, b, c, d, x0, 0x289b7ec6, 4)
    requires d1 == StepH(d, a1, b, c, x1, 0xeaa127fa, 11)
    requires c1 == StepH(c, d1, a1, b, x2, 0xd4ef3085, 16)
    requires b1 == StepH(b, c1, d1, a1, x3, 0x04881d05, 23)
    ensures Operations(r, x, 44) == Regs(a1, b1, c1, d1)
  {
    hide Operations, DataOf, StepF, StepG, StepH, StepI;
    Row10(x);
    Pass(r, x, 40, Regs(a, b, c, d), Regs(a1, b1, c1, d1));
  }

  lemma Pass11(r: Regs, x: seq<Word>, x0: Word, x1: Word, x2: Word, x3: Word,
              a: Word, b: Word, c: Word, d: Word, a1: Word, b1: Word, c1: Word, d1: Word)
    requires |x| == 16 && x[9] == x0 && x[12] == x1 && x[15] == x2 && x[2] == x3
    requires Operations(r, x, 44) == Regs(a, b, c, d)
    requires a1 == StepH(a, b, c, d, x0, 0xd9d4d039, 4)
    requires d1 == StepH(d, a1, b, c, x1, 0xe6db99e5, 11)
    requires c1 == StepH(c, d1, a1, b, x2, 0x1fa27cf8, 16)
    requires b1 == StepH(b, c1, d1, a1, x3, 0xc4ac5665, 23)
    ensures Operations(r, x, 48) == Regs(a1, b1, c1, d1)
  {
    hide Operations, DataOf, StepF, StepG, StepH, StepI;
    Row11(x);
    Pass(r, x, 44, Regs(a, b, c, d), Regs(a1, b1, c1, d1));
  }

  lemma Pass12(r: Regs, x: seq<Word>, x0: Word, x1: Word, x2: Word, x3: Word,
              a: Word, b: Word, c: Word, d: Word, a1: Word, b1: Word, c1: Word, d1: Word)
    requires |x| == 16 && x[0] == x0 && x[7] == x1 && x[14] == x2 && x[5] == x3
    requires Operations(r, x, 48) == Regs(a, b, c, d)
    requires a1 == StepI(a, b, c, d, x0, 0xf4292244, 6)
    requires d1 == StepI(d, a1, b, c, x1, 0x432aff97, 10)
    requires c1 == StepI(c, d1, a1, b, x2, 0xab9423a7, 15)
    requires b1 == StepI(b, c1, d1, a1, x3, 0xfc93a039, 21)
    ensures Operations(r, x, 52) == Regs(a1, b1, c1, d1)
  {
    hide Operations, DataOf, StepF, StepG, StepH, StepI;
    Row12(x);
    Pass(r, x, 48, Regs(a, b, c, d), Regs(a1, b1, c1, d1));
  }

  lemma Pass13(r: Regs, x: seq<Word>, x0: Word, x1: Word, x2: Word, x3: Word,
              a: Word, b: Word, c: Word, d: Word, a1: Word, b1: Word, c1: Word, d1: Word)
    requires |x| == 16 && x[12] == x0 && x[3] == x1 && x[10] == x2 && x[1] == x3
    requires Operations(r, x, 52) == Regs(a, b, c, d)
    requires a1 == StepI(a, b, c, d, x0, 0x655b59c3, 6)
    requires d1 == StepI(d, a1, b, c, x1, 0x8f0ccc92, 10)
    requires c1 == StepI(c, d1, a1, b, x2, 0xffeff47d, 15)
    requires b1 == StepI(b, c1, d1, a1, x3, 0x85845dd1, 21)
    ensures Operations(r, x, 56) == Regs(a1, b1, c1, d1)
  {
    hide Operations, DataOf, StepF, StepG, StepH, StepI;
    Row13(x);
    Pass(r, x, 52, Regs(a, b, c, d), Regs(a1, b1, c1, d1));
  }

  lemma Pass14(r: Regs, x: seq<Word>, x0: Word, x1: Word, x2: Word, x3: Word,
              a: Word, b: Word, c: Word, d: Word, a1: Word, b1: Word, c1: Word, d1: Word)
    requires |x| == 16 && x[8] == x0 && x[15] == x1 && x[6] == x2 && x[13] == x3
    requires Operations(r, x, 56) == Regs(a, b, c, d)
    requires a1 == StepI(a, b, c, d, x0, 0x6fa87e4f, 6)
    requires d1 == StepI(d, a1, b, c, x1, 0xfe2ce6e0, 10)
    requires c1 == StepI(c, d1, a1, b, x2, 0xa3014314, 15)
    requires b1 == StepI(b, c1, d1, a1, x3, 0x4e0811a1, 21)
    ensures Operations(r, x, 60) == Regs(a1, b1, c1, d1)
  {
    hide Operations, DataOf, StepF, StepG, StepH, StepI;
    Row14(x);
    Pass(r, x, 56, Regs(a, b, c, d), Regs(a1, b1, c1, d1));
  }

  lemma Pass15(r: Regs, x: seq<Word>, x0: Word, x1: Word, x2: Word, x3: Word,
              a: Word, b: Word, c: Word, d: Word, a1: Word, b1: Word, c1: Word, d1: Word)
    requires |x| == 16 && x[4] == x0 && x[11] == x1 && x[2] == x2 && x[9] == x3
    requires Operations(r, x, 60) == Regs(a, b, c, d)
    requires a1 == StepI(a, b, c, d, x0, 0xf7537e82, 6)
    requires d1 == StepI(d, a1, b, c, x1, 0xbd3af235, 10)
    requires c1 == StepI(c, d1, a1, b, x2, 0x2ad7d2bb, 15)
    requires b1 == StepI(b, c1, d1, a1, x3, 0xeb86d391, 21)
    ensures Operations(r, x, 64) == Regs(a1, b1, c1, d1)
  {
    hide Operations, DataOf, StepF, StepG, StepH, StepI;
    Row15(x);
    Pass(r, x, 60, Regs(a, b, c, d), Regs(a1, b1, c1, d1));
  }
}
