/** CRC-32 of mkpimage: table-driven, bit-serial, and as polynomial division. */
module Crc {
  import opened CrcTable

  // ----- crc32

  function Update(crc: bv32, b: bv8): bv32 {
    var i := ((crc >> 24) ^ (b as bv32)) & 0xff;
    (crc << 8) ^ Table(i as nat)
  }

  function Crc32(crc: bv32, data: seq<bv8>): bv32
    decreases |data|
  {
    if data == [] then crc else Crc32(Update(crc, data[0]), data[1..])
  }

  /** `crc32`. */
  method ComputeCrc32(start: bv32, buf: seq<bv8>) returns (crc: bv32)
    ensures crc == Crc32(start, buf)
  {
    hide Update;
    crc := start;
    var p := 0;
    assert buf[0..] == buf;
    while p < |buf|
      invariant 0 <= p <= |buf|
      invariant Crc32(crc, buf[p..]) == Crc32(start, buf)
    {
      assert buf[p..][1..] == buf[p + 1..];
      crc := Update(crc, buf[p]);
      p := p + 1;
    }
  }

  lemma {:induction false} Crc32Concat(crc: bv32, a: seq<bv8>, b: seq<bv8>)
    ensures Crc32(crc, a + b) == Crc32(Crc32(crc, a), b)
    decreases |a|
  {
    hide Update;
    if a == [] {
      assert a + b == b;
    } else {
      assert (a + b)[1..] == a[1..] + b;
      Crc32Concat(Update(crc, a[0]), a[1..], b);
    }
  }

  // ----- bit facts

  function Xor(a: bv32, b: bv32): bv32 {
    a ^ b
  }

  function Left(x: bv32): bv32 {
    x << 1
  }

  predicate Msb(c: bv32) {
    c & 0x8000_0000 != 0
  }

  lemma ShiftTop(c: bv32)
    requires Msb(c)
    ensures Shift(c) == Xor(Left(c), POLY)
  {
  }

  lemma ShiftLow(c: bv32)
    requires !Msb(c)
    ensures Shift(c) == Left(c)
  {
  }

  lemma XorShift(a: bv32, b: bv32)
    ensures Left(Xor(a, b)) == Xor(Left(a), Left(b))
  {
    assert (a ^ b) << 1 == (a << 1) ^ (b << 1);
  }

  lemma XorMsb(a: bv32, b: bv32)
    ensures Msb(Xor(a, b)) == (Msb(a) != Msb(b))
  {
    assert ((a ^ b) & 0x8000_0000 != 0) == ((a & 0x8000_0000 != 0) != (b & 0x8000_0000 != 0));
  }

  lemma AssocBits(x: bv32, y: bv32, p: bv32)
    ensures x ^ (y ^ p) == (x ^ y) ^ p
  {
  }

  lemma XorAssoc(x: bv32, y: bv32, p: bv32)
    ensures Xor(x, Xor(y, p)) == Xor(Xor(x, y), p)
  {
    AssocBits(x, y, p);
  }

  lemma CommuteBits(x: bv32, y: bv32)
    ensures x ^ y == y ^ x
  {
  }

  lemma XorCommutes(x: bv32, y: bv32)
    ensures Xor(x, y) == Xor(y, x)
  {
    CommuteBits(x, y);
  }

  lemma XorSelf(x: bv32)
    ensures Xor(x, x) == 0 && Xor(x, 0) == x
  {
  }

  lemma XorPair(x: bv32, y: bv32, p: bv32)
    ensures Xor(Xor(x, p), Xor(y, p)) == Xor(x, y)
  {
    hide Xor;
    XorAssoc(x, p, Xor(y, p));
    XorAssoc(p, y, p);
    XorCommutes(p, y);
    XorAssoc(y, p, p);
    XorSelf(p);
    XorSelf(y);
  }

  /** The laws of addition modulo 2 that the proofs below use. */
  lemma XorLaws(x: bv32, y: bv32, p: bv32)
    ensures Xor(Xor(x, p), Xor(y, p)) == Xor(x, y)
    ensures Xor(Xor(x, p), y) == Xor(Xor(x, y), p)
    ensures Xor(x, Xor(y, p)) == Xor(Xor(x, y), p)
    ensures Xor(x, y) == Xor(y, x)
  {
    hide Xor;
    XorPair(x, y, p);
    XorAssoc(x, y, p);
    XorAssoc(y, x, p);
    XorCommutes(x, y);
    XorCommutes(Xor(x, p), y);
  }

  // ----- division steps are linear

  lemma ShiftLinear(a: bv32, b: bv32)
    ensures Shift(Xor(a, b)) == Xor(Shift(a), Shift(b))
  {
    hide Xor, Left, Shift, Msb, POLY;
    XorMsb(a, b);
    XorShift(a, b);
    XorLaws(Left(a), Left(b), POLY);
    if Msb(a) { ShiftTop(a); } else { ShiftLow(a); }
    if Msb(b) { ShiftTop(b); } else { ShiftLow(b); }
    if Msb(a) == Msb(b) { ShiftLow(Xor(a, b)); } else { ShiftTop(Xor(a, b)); }
  }

  function ShiftN(c: bv32, n: nat): bv32
    decreases n
  {
    if n == 0 then c else ShiftN(Shift(c), n - 1)
  }

  lemma Shift8IsShiftN(c: bv32)
    ensures Shift8(c) == ShiftN(c, 8)
  {
    hide Shift;
  }

  lemma {:induction false} ShiftNLinear(a: bv32, b: bv32, n: nat)
    ensures ShiftN(Xor(a, b), n) == Xor(ShiftN(a, n), ShiftN(b, n))
    decreases n
  {
    hide Shift, Xor;
    if n > 0 {
      ShiftLinear(a, b);
      ShiftNLinear(Shift(a), Shift(b), n - 1);
    }
  }

  // ----- the table form is eight division steps

  function LeftN(w: bv32, n: nat): bv32
    decreases n
  {
    if n == 0 then w else LeftN(Left(w), n - 1)
  }

  /** The top n bits of x are clear. */
  predicate Clear(x: bv32, n: nat)
    decreases n
  {
    n == 0 || (!Msb(x) && Clear(Left(x), n - 1))
  }

  /** While the top bits are clear, division steps are plain shifts. */
  lemma {:induction false} PlainShifts(x: bv32, n: nat)
    requires Clear(x, n)
    ensures ShiftN(x, n) == LeftN(x, n)
    decreases n
  {
    hide Shift, Msb, Left;
    if n > 0 {
      ShiftLow(x);
      PlainShifts(Left(x), n - 1);
    }
  }

  function And(x: bv32, m: bv32): bv32 {
    x & m
  }

  lemma ClearBits(x: bv32, m: bv32)
    requires x & m == 0 && m & 0x8000_0000 != 0
    ensures x & 0x8000_0000 == 0 && (x << 1) & (m << 1) == 0
  {
  }

  lemma ClearStep(x: bv32, m: bv32)
    requires And(x, m) == 0 && Msb(m)
    ensures !Msb(x) && And(Left(x), Left(m)) == 0
  {
    ClearBits(x, m);
  }

  /** The top n bits of m are set. */
  predicate Set(m: bv32, n: nat)
    decreases n
  {
    n == 0 || (Msb(m) && Set(Left(m), n - 1))
  }

  lemma {:induction false} ClearByMask(x: bv32, m: bv32, n: nat)
    requires And(x, m) == 0 && Set(m, n)
    ensures Clear(x, n)
    decreases n
  {
    hide And, Msb, Left;
    if n > 0 {
      ClearStep(x, m);
      ClearByMask(Left(x), Left(m), n - 1);
    }
  }

  lemma MaskIsSet()
    ensures Set(0xff00_0000, 8)
  {
  }

  lemma LowMasked(c: bv32)
    ensures (c & 0x00ff_ffff) & 0xff00_0000 == 0
  {
  }

  lemma LowPartClear(c: bv32)
    ensures Clear(Low24(c), 8)
  {
    hide Clear, Set;
    LowMasked(c);
    assert And(Low24(c), 0xff00_0000) == 0;
    hide And, Low24;
    MaskIsSet();
    ClearByMask(Low24(c), 0xff00_0000, 8);
  }

  lemma LeftNEight(x: bv32)
    ensures LeftN(x, 8) == Left(Left(Left(Left(Left(Left(Left(Left(x))))))))
  {
    hide Left;
  }

  lemma LeftEightBits(c: bv32)
    ensures ((((((((c & 0x00ff_ffff) << 1) << 1) << 1) << 1) << 1) << 1) << 1) << 1 == c << 8
  {
  }

  lemma LeftEight(c: bv32)
    ensures Left(Left(Left(Left(Left(Left(Left(Left(Low24(c)))))))))== Left8(c)
  {
    LeftEightBits(c);
  }

  lemma LowIs(c: bv32)
    ensures ShiftN(Low24(c), 8) == Left8(c)
  {
    hide ShiftN, Low24, LeftN, Left, Left8, Clear;
    LowPartClear(c);
    PlainShifts(Low24(c), 8);
    LeftNEight(Low24(c));
    LeftEight(c);
  }

  function TopByte(c: bv32, w: bv32): (v: bv32)
    ensures v <= 255
  {
    ((c >> 24) ^ w) & 0xff
  }

  function Low24(c: bv32): bv32 {
    c & 0x00ff_ffff
  }

  function AtTop(w: bv32): bv32 {
    w << 24
  }

  function Left8(c: bv32): bv32 {
    c << 8
  }

  function High8(c: bv32): bv32 {
    c >> 24
  }

  lemma ByteBits(c: bv32)
    ensures ((c >> 24) << 24) ^ (c & 0x00ff_ffff) == c
  {
  }

  lemma ByteSplit(c: bv32)
    ensures c == Xor(AtTop(High8(c)), Low24(c))
  {
    ByteBits(c);
  }

  lemma TopBits24(h: bv32, w: bv32)
    ensures ((h ^ w) & 0xff) << 24 == (h << 24) ^ (w << 24)
  {
  }

  lemma TopByteSplit(c: bv32, w: bv32)
    ensures AtTop(TopByte(c, w)) == Xor(AtTop(High8(c)), AtTop(w))
  {
    TopBits24(c >> 24, w);
  }

  lemma SplitTopByte(c: bv32, w: bv32)
    ensures Xor(c, AtTop(w)) == Xor(AtTop(TopByte(c, w)), Low24(c))
  {
    hide AtTop, TopByte, Low24, High8, Xor;
    ByteSplit(c);
    TopByteSplit(c, w);
    XorLaws(AtTop(High8(c)), AtTop(w), Low24(c));
  }

  lemma UpdateIs(crc: bv32, b: bv8)
    ensures Update(crc, b) == Xor(Left8(crc), Table(TopByte(crc, b as bv32) as nat))
  {
    hide Table;
  }

  lemma EntryIs(v: bv32)
    requires v <= 255
    ensures v as nat < 256 && Table(v as nat) == ShiftN(AtTop(v), 8)
  {
    hide Table, Shift8, ShiftN;
    TableIsDivision(v);
    Shift8IsShiftN(v << 24);
  }

  /** One table look-up does what eight division steps do with the byte added at the top. */
  lemma UpdateIsDivision(crc: bv32, b: bv8)
    ensures Update(crc, b) == ShiftN(Xor(crc, AtTop(b as bv32)), 8)
  {
    hide Update, Table, Shift, ShiftN, Xor, Left8, Low24, AtTop, TopByte;
    var w := b as bv32;
    var v := TopByte(crc, w);
    UpdateIs(crc, b);
    EntryIs(v);
    LowIs(crc);
    SplitTopByte(crc, w);
    ShiftNLinear(AtTop(v), Low24(crc), 8);
    XorLaws(Left8(crc), ShiftN(AtTop(v), 8), 0);
  }

  // ----- bit at a time

  function TopBit(bit: bool): bv32 {
    if bit then 0x8000_0000 else 0
  }

  /** Feeds one message bit, most significant first, into the register. */
  function FeedBit(c: bv32, bit: bool): bv32 {
    Shift(Xor(c, TopBit(bit)))
  }

  function FeedBits(c: bv32, bits: seq<bool>): bv32
    decreases |bits|
  {
    if bits == [] then c else FeedBits(FeedBit(c, bits[0]), bits[1..])
  }

  /** The top n bits of w, most significant first. */
  function TopBits(w: bv32, n: nat): (b: seq<bool>)
    ensures |b| == n
    decreases n
  {
    if n == 0 then [] else [Msb(w)] + TopBits(Left(w), n - 1)
  }

  function ByteBitsOf(b: bv8): seq<bool> {
    TopBits(AtTop(b as bv32), 8)
  }

  function BitsOf(data: seq<bv8>): seq<bool> {
    if data == [] then [] else ByteBitsOf(data[0]) + BitsOf(data[1..])
  }

  lemma TopAndRestBits(w: bv32)
    ensures (w & 0x8000_0000) ^ (w & 0x7fff_ffff) == w
    ensures (w & 0x7fff_ffff) & 0x8000_0000 == 0
    ensures (w & 0x7fff_ffff) << 1 == w << 1
    ensures w & 0x8000_0000 != 0 ==> w & 0x8000_0000 == 0x8000_0000
  {
  }

  function Rest(w: bv32): bv32 {
    w & 0x7fff_ffff
  }

  lemma TopAndRest(w: bv32)
    ensures w == Xor(TopBit(Msb(w)), Rest(w))
    ensures !Msb(Rest(w)) && Left(Rest(w)) == Left(w)
  {
    TopAndRestBits(w);
  }

  /** Only the top bit of w takes part in the next division step; the rest just moves up. */
  lemma StepSplits(c: bv32, w: bv32)
    ensures Shift(Xor(c, w)) == Xor(FeedBit(c, Msb(w)), Left(w))
  {
    hide Shift, Xor, Left, Msb, Rest, TopBit;
    TopAndRest(w);
    XorAssoc(c, TopBit(Msb(w)), Rest(w));
    ShiftLinear(Xor(c, TopBit(Msb(w))), Rest(w));
    ShiftLow(Rest(w));
  }

  lemma {:induction false} ShiftNFeeds(c: bv32, w: bv32, n: nat)
    ensures ShiftN(Xor(c, w), n) == Xor(FeedBits(c, TopBits(w, n)), LeftN(w, n))
    decreases n
  {
    hide Shift, Xor, Left, Msb, FeedBit;
    if n > 0 {
      StepSplits(c, w);
      var t := TopBits(w, n);
      assert t[0] == Msb(w) && t[1..] == TopBits(Left(w), n - 1);
      ShiftNFeeds(FeedBit(c, Msb(w)), Left(w), n - 1);
    }
  }

  lemma AtTopGoneBits(w: bv32)
    ensures ((((((((w << 24) << 1) << 1) << 1) << 1) << 1) << 1) << 1) << 1 == 0
  {
  }

  lemma AtTopGone(w: bv32)
    ensures LeftN(AtTop(w), 8) == 0
  {
    AtTopGoneBits(w);
    LeftNEight(AtTop(w));
  }

  /** One byte through the table is its eight bits through the bit-serial register. */
  lemma UpdateFeedsBits(crc: bv32, b: bv8)
    ensures Update(crc, b) == FeedBits(crc, ByteBitsOf(b))
  {
    hide Update, ShiftN, Xor, AtTop, LeftN, FeedBits, TopBits;
    var w := AtTop(b as bv32);
    UpdateIsDivision(crc, b);
    ShiftNFeeds(crc, w, 8);
    AtTopGone(b as bv32);
    XorSelf(FeedBits(crc, TopBits(w, 8)));
  }

  lemma {:induction false} FeedConcat(c: bv32, p: seq<bool>, q: seq<bool>)
    ensures FeedBits(c, p + q) == FeedBits(FeedBits(c, p), q)
    decreases |p|
  {
    hide FeedBit;
    if p == [] {
      assert p + q == q;
    } else {
      assert (p + q)[1..] == p[1..] + q;
      FeedConcat(FeedBit(c, p[0]), p[1..], q);
    }
  }

  /** The table-driven CRC is the bit-serial one, for every start value and every buffer. */
  lemma {:induction false} CrcIsBitSerial(crc: bv32, data: seq<bv8>)
    ensures Crc32(crc, data) == FeedBits(crc, BitsOf(data))
    decreases |data|
  {
    hide Update, FeedBit, ByteBitsOf;
    if data != [] {
      UpdateFeedsBits(crc, data[0]);
      FeedConcat(crc, ByteBitsOf(data[0]), BitsOf(data[1..]));
      CrcIsBitSerial(Update(crc, data[0]), data[1..]);
    }
  }

  // ----- linearity

  function XorBytes(p: seq<bv8>, q: seq<bv8>): (r: seq<bv8>)
    requires |p| == |q|
    ensures |r| == |p|
  {
    if p == [] then [] else [p[0] ^ q[0]] + XorBytes(p[1..], q[1..])
  }

  lemma WidenBits(x: bv8, y: bv8)
    ensures ((x ^ y) as bv32) << 24 == ((x as bv32) << 24) ^ ((y as bv32) << 24)
  {
  }

  lemma Widen(x: bv8, y: bv8)
    ensures AtTop((x ^ y) as bv32) == Xor(AtTop(x as bv32), AtTop(y as bv32))
  {
    WidenBits(x, y);
  }

  lemma XorExchange(a: bv32, b: bv32, x: bv32, y: bv32)
    ensures Xor(Xor(a, b), Xor(x, y)) == Xor(Xor(a, x), Xor(b, y))
  {
    hide Xor;
    XorAssoc(Xor(a, b), x, y);
    XorAssoc(a, b, x);
    XorCommutes(b, x);
    XorAssoc(a, x, b);
    XorAssoc(Xor(a, x), b, y);
  }

  lemma UpdateLinear(c: bv32, d: bv32, x: bv8, y: bv8)
    ensures Update(Xor(c, d), x ^ y) == Xor(Update(c, x), Update(d, y))
  {
    hide Update, ShiftN, Xor, AtTop;
    UpdateIsDivision(c, x);
    UpdateIsDivision(d, y);
    UpdateIsDivision(Xor(c, d), x ^ y);
    Widen(x, y);
    XorExchange(c, d, AtTop(x as bv32), AtTop(y as bv32));
    ShiftNLinear(Xor(c, AtTop(x as bv32)), Xor(d, AtTop(y as bv32)), 8);
  }

  /** The CRC is linear in start value and data jointly. */
  lemma {:induction false} CrcLinear(c: bv32, d: bv32, p: seq<bv8>, q: seq<bv8>)
    requires |p| == |q|
    ensures Crc32(Xor(c, d), XorBytes(p, q)) == Xor(Crc32(c, p), Crc32(d, q))
    decreases |p|
  {
    hide Update, Xor;
    if p != [] {
      UpdateLinear(c, d, p[0], q[0]);
      assert XorBytes(p, q)[0] == p[0] ^ q[0] && XorBytes(p, q)[1..] == XorBytes(p[1..], q[1..]);
      CrcLinear(Update(c, p[0]), Update(d, q[0]), p[1..], q[1..]);
    }
  }
}
