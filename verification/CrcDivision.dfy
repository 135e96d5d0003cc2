/** The CRC as the remainder of a long division of polynomials over GF(2). */
module CrcDivision {
  import opened CrcTable
  import opened Crc

  /** Coefficients, highest power first. */
  type Poly = seq<bool>

  function Zeros(n: nat): (z: Poly)
    ensures |z| == n
  {
    seq(n, _ => false)
  }

  function Add(p: Poly, q: Poly): (r: Poly)
    requires |p| == |q|
    ensures |r| == |p|
  {
    seq(|p|, i requires 0 <= i < |p| => p[i] != q[i])
  }

  /** The generator without its leading term x^32. */
  function Generator(): (g: Poly)
    ensures |g| == 32
  {
    TopBits(POLY, 32)
  }

  /** Schoolbook division by x^32 + Generator(): cancel the leading term, drop it, repeat. */
  function Remainder(p: Poly): (r: Poly)
    requires |p| >= 32
    ensures |r| == 32
    decreases |p|
  {
    if |p| == 32 then p
    else if p[0] then Remainder(Add(p[1..], Generator() + Zeros(|p| - 33)))
    else Remainder(p[1..])
  }

  /** message * x^32 + start * x^|message|. */
  function Dividend(start: bv32, message: Poly): (d: Poly)
    ensures |d| == |message| + 32
  {
    Add(TopBits(start, 32) + Zeros(|message|), message + Zeros(32))
  }

  // ----- registers as polynomials

  lemma AddCons(x: bool, p: Poly, y: bool, q: Poly)
    requires |p| == |q|
    ensures Add([x] + p, [y] + q) == [x != y] + Add(p, q)
  {
  }

  lemma TopBitsStep(w: bv32, n: nat)
    requires n > 0
    ensures TopBits(w, n) == [Msb(w)] + TopBits(Left(w), n - 1)
  {
    hide Left, Msb;
  }

  lemma {:induction false} TopBitsXor(a: bv32, b: bv32, n: nat)
    ensures TopBits(Xor(a, b), n) == Add(TopBits(a, n), TopBits(b, n))
    decreases n
  {
    hide Xor, Left, Msb, TopBits;
    if n > 0 {
      XorMsb(a, b);
      XorShift(a, b);
      TopBitsXor(Left(a), Left(b), n - 1);
      TopBitsStep(a, n);
      TopBitsStep(b, n);
      TopBitsStep(Xor(a, b), n);
      AddCons(Msb(a), TopBits(Left(a), n - 1), Msb(b), TopBits(Left(b), n - 1));
    }
  }

  lemma {:induction false} TopBitsSnoc(w: bv32, n: nat)
    ensures TopBits(w, n + 1) == TopBits(w, n) + [Msb(LeftN(w, n))]
    decreases n
  {
    hide Left, Msb;
    if n > 0 {
      TopBitsSnoc(Left(w), n - 1);
    }
  }

  lemma ZeroFillBits(y: bv32, m: bv32)
    requires y & m == 0
    ensures (y << 1) & ((m << 1) | 1) == 0
  {
  }

  function Fill(m: bv32): bv32 {
    (m << 1) | 1
  }

  lemma ZeroFill(y: bv32, m: bv32)
    requires And(y, m) == 0
    ensures And(Left(y), Fill(m)) == 0
  {
    ZeroFillBits(y, m);
  }

  function FillN(m: bv32, n: nat): bv32
    decreases n
  {
    if n == 0 then m else FillN(Fill(m), n - 1)
  }

  lemma {:induction false} ZeroFillN(y: bv32, m: bv32, n: nat)
    requires And(y, m) == 0
    ensures And(LeftN(y, n), FillN(m, n)) == 0
    decreases n
  {
    hide And, Left, Fill;
    if n > 0 {
      ZeroFill(y, m);
      ZeroFillN(Left(y), Fill(m), n - 1);
    }
  }

  lemma {:induction false} FillTwice(m: bv32, k: nat, n: nat)
    ensures FillN(m, k + n) == FillN(FillN(m, k), n)
    decreases k
  {
    hide Fill;
    if k > 0 {
      FillTwice(Fill(m), k - 1, n);
    }
  }

  lemma FillStep(m: bv32, n: nat)
    ensures FillN(m, n + 1) == FillN(Fill(m), n) && FillN(m, 0) == m
  {
    hide Fill;
  }

  function Fill8(m: bv32): bv32 {
    Fill(Fill(Fill(Fill(Fill(Fill(Fill(Fill(m))))))))
  }

  lemma FillEight(m: bv32)
    ensures FillN(m, 8) == Fill8(m)
  {
    hide Fill, FillN;
    var m1 := Fill(m);
    var m2 := Fill(m1);
    var m3 := Fill(m2);
    var m4 := Fill(m3);
    var m5 := Fill(m4);
    var m6 := Fill(m5);
    var m7 := Fill(m6);
    FillStep(m, 7);
    FillStep(m1, 6);
    FillStep(m2, 5);
    FillStep(m3, 4);
    FillStep(m4, 3);
    FillStep(m5, 2);
    FillStep(m6, 1);
    FillStep(m7, 0);
    FillStep(Fill(m7), 0);
  }

  lemma FillConstants()
    ensures Fill8(0) == 0xff && Fill8(0xff) == 0xffff && Fill8(0xffff) == 0xff_ffff && Fill8(0xff_ffff) == 0xffff_ffff
  {
  }

  lemma FillBytes()
    ensures FillN(0, 8) == 0xff && FillN(0xff, 8) == 0xffff
    ensures FillN(0xffff, 8) == 0xff_ffff && FillN(0xff_ffff, 8) == 0xffff_ffff
  {
    hide FillN, Fill8;
    FillConstants();
    FillEight(0);
    FillEight(0xff);
    FillEight(0xffff);
    FillEight(0xff_ffff);
  }

  lemma FillAll()
    ensures FillN(0, 32) == 0xffff_ffff
  {
    hide FillN;
    FillBytes();
    FillTwice(0, 8, 24);
    FillTwice(0xff, 8, 16);
    FillTwice(0xffff, 8, 8);
  }

  lemma AllBits(y: bv32)
    requires y & 0xffff_ffff == 0
    ensures y & 0x8000_0000 == 0
  {
  }

  lemma ShiftedOut(w: bv32)
    ensures !Msb(LeftN(w, 32))
  {
    hide LeftN, FillN;
    assert And(w, 0) == 0;
    ZeroFillN(w, 0, 32);
    FillAll();
    AllBits(LeftN(w, 32));
  }

  /** Shifting a register drops its leading coefficient and appends a zero. */
  lemma TopBitsLeft(c: bv32)
    ensures TopBits(c, 32)[1..] + [false] == TopBits(Left(c), 32)
  {
    hide Left, Msb, LeftN, TopBits;
    TopBitsSnoc(Left(c), 31);
    TopBitsTail(c, 31);
    ShiftedOut(c);
    LeftNTail(c, 31);
  }

  lemma TopBitsTail(c: bv32, n: nat)
    ensures TopBits(c, n + 1)[0] == Msb(c) && TopBits(c, n + 1)[1..] == TopBits(Left(c), n)
  {
    hide Left, Msb;
  }

  lemma LeftNTail(c: bv32, n: nat)
    ensures LeftN(c, n + 1) == LeftN(Left(c), n)
  {
    hide Left;
  }

  // ----- one division step

  lemma TopBitFacts(bit: bool)
    ensures Msb(TopBit(bit)) == bit && Left(TopBit(bit)) == 0
  {
  }

  lemma FeedBitCases(c: bv32, bit: bool)
    ensures FeedBit(c, bit) == if Msb(c) != bit then Xor(Left(c), POLY) else Left(c)
  {
    hide Shift, Xor, Left, Msb, TopBit, POLY;
    var x := Xor(c, TopBit(bit));
    TopBitFacts(bit);
    XorMsb(c, TopBit(bit));
    XorShift(c, TopBit(bit));
    XorSelf(Left(c));
    if Msb(c) != bit {
      ShiftTop(x);
    } else {
      ShiftLow(x);
    }
  }

  lemma DividendHead(c: bv32, bits: Poly)
    requires bits != []
    ensures Dividend(c, bits)[0] == (Msb(c) != bits[0])
    ensures Dividend(c, bits)[1..] == Dividend(Left(c), bits[1..])
  {
    hide Left, Msb, TopBits;
    TopBitsTail(c, 31);
    TopBitsLeft(c);
    var n := |bits|;
    assert TopBits(c, 32)[1..] + Zeros(n) == TopBits(Left(c), 32) + Zeros(n - 1);
    var p, q := TopBits(c, 32) + Zeros(n), bits + Zeros(32);
    assert p[1..] == TopBits(Left(c), 32) + Zeros(n - 1);
    assert q[1..] == bits[1..] + Zeros(32);
    assert Add(p, q)[1..] == Add(p[1..], q[1..]);
  }

  lemma DividendXor(c: bv32, bits: Poly)
    ensures Add(Dividend(c, bits), Generator() + Zeros(|bits|)) == Dividend(Xor(c, POLY), bits)
  {
    hide Xor, TopBits, POLY;
    TopBitsXor(c, POLY, 32);
  }

  lemma DividendEmpty(c: bv32)
    ensures Dividend(c, []) == TopBits(c, 32)
  {
    hide TopBits;
  }

  lemma {:induction false} RemainderIsFeed(c: bv32, bits: Poly)
    ensures Remainder(Dividend(c, bits)) == TopBits(FeedBits(c, bits), 32)
    decreases |bits|
  {
    hide Dividend, TopBits, FeedBit, Xor, Left, Msb, Generator, POLY, Add;
    if bits == [] {
      DividendEmpty(c);
    } else {
      DividendHead(c, bits);
      FeedBitCases(c, bits[0]);
      DividendXor(Left(c), bits[1..]);
      RemainderIsFeed(FeedBit(c, bits[0]), bits[1..]);
    }
  }

  /** crc32(start, data) is the remainder of data * x^32 + start * x^(8 |data|) by the generator. */
  lemma CrcIsRemainder(start: bv32, data: seq<bv8>)
    ensures TopBits(Crc32(start, data), 32) == Remainder(Dividend(start, BitsOf(data)))
  {
    hide Crc32, FeedBits, TopBits, Remainder, Dividend, BitsOf;
    CrcIsBitSerial(start, data);
    RemainderIsFeed(start, BitsOf(data));
  }
}
