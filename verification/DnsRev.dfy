/** The reverse DNS names of a CIDR block: `convertCIDRToDNSRev` (section 3.5 of RFC 1035, section 2.5 of RFC 3596). */
module DnsRev {
  import opened Bytes
  import opened BitNat

  // ----- shifts and contiguous masks

  lemma SmallPowers()
    ensures Pow2(0) == 1 && Pow2(1) == 2 && Pow2(2) == 4 && Pow2(3) == 8 && Pow2(4) == 16
    ensures Pow2(5) == 32 && Pow2(6) == 64 && Pow2(7) == 128 && Pow2(8) == 256
  {
  }

  lemma HalveMod(v: nat, i: nat)
    ensures v % Pow2(i + 1) == 2 * (v / 2 % Pow2(i)) + v % 2
  {
    HalveModBy(v, Pow2(i));
  }

  lemma HalveModBy(v: nat, d: nat)
    requires d > 0
    ensures v % (2 * d) == 2 * (v / 2 % d) + v % 2
  {
    var q, r := v / 2 / d, v / 2 % d;
    assert v / 2 == q * d + r;
    assert v == q * (2 * d) + (2 * r + v % 2);
    ModUnique(v, 2 * d, q, 2 * r + v % 2);
  }

  lemma AndHalves(v: nat, m: nat)
    ensures And(v, m) == 2 * And(v / 2, m / 2) + (v % 2) * (m % 2)
  {
  }

  lemma AndEven(v: nat, m: nat)
    ensures And(v, 2 * m) == 2 * And(v / 2, m)
  {
    hide And;
    AndHalves(v, 2 * m);
    assert 2 * m / 2 == m;
    var b := 2 * m % 2;
    assert b == 0 && (v % 2) * b == 0;
  }

  lemma AndOdd(v: nat, m: nat)
    ensures And(v, 2 * m + 1) == 2 * And(v / 2, m) + v % 2
  {
    hide And;
    AndHalves(v, 2 * m + 1);
    assert (2 * m + 1) / 2 == m;
    var b := (2 * m + 1) % 2;
    assert b == 1 && (v % 2) * b == v % 2;
  }

  lemma Double(n: nat)
    ensures Pow2(n + 1) == 2 * Pow2(n)
  {
  }

  lemma {:induction false} PowAscends(k: nat, w: nat)
    requires k <= w
    ensures Pow2(k) <= Pow2(w)
    decreases w
  {
    if k < w {
      PowAscends(k, w - 1);
    }
  }

  /** The low k bits of v. */
  function Low(v: nat, k: nat): nat {
    if k == 0 then 0 else 2 * Low(v / 2, k - 1) + v % 2
  }

  lemma {:induction false} LowIsMod(v: nat, k: nat)
    ensures Low(v, k) == v % Pow2(k)
    decreases k
  {
    if k > 0 {
      LowIsMod(v / 2, k - 1);
      HalveMod(v, k - 1);
    }
  }

  lemma LowStep(v: nat, k: nat)
    requires k > 0
    ensures Low(v, k) == 2 * Low(v / 2, k - 1) + v % 2
  {
  }

  lemma {:induction false} AndLow(v: nat, w: nat, k: nat, m: nat)
    requires k <= w && m == Pow2(w) - Pow2(k)
    ensures And(v, m) == Low(v, w) - Low(v, k)
    decreases w
  {
    hide And, Pow2, Low;
    if k == w {
      AndZero(v);
    } else {
      PowAscends(k, w - 1);
      Double(w - 1);
      LowStep(v, w);
      if k > 0 {
        PowAscends(k - 1, w - 1);
        Double(k - 1);
        LowStep(v, k);
        var h := Pow2(w - 1) - Pow2(k - 1);
        AndLow(v / 2, w - 1, k - 1, h);
        AndEven(v, h);
        assert m == 2 * h;
      } else {
        SmallPowers();
        NothingLow(v);
        NothingLow(v / 2);
        var h := Pow2(w - 1) - 1;
        AndLow(v / 2, w - 1, 0, h);
        AndOdd(v, h);
        assert m == 2 * h + 1;
      }
    }
  }

  lemma NothingLow(v: nat)
    ensures Low(v, 0) == 0
  {
  }

  /** v & (2^w - 2^k) keeps bits k to w - 1. */
  lemma AndField(v: nat, w: nat, k: nat)
    requires k <= w
    ensures Pow2(k) <= Pow2(w)
    ensures And(v, Pow2(w) - Pow2(k)) == v % Pow2(w) - v % Pow2(k)
  {
    hide And, Pow2, Low;
    PowAscends(k, w);
    AndLow(v, w, k, Pow2(w) - Pow2(k));
    LowIsMod(v, w);
    LowIsMod(v, k);
  }

  lemma AndZero(v: nat)
    ensures And(v, 0) == 0
  {
  }

  /** A field four bits up. */
  lemma AndShifted(v: nat, m: nat)
    ensures And(v, 16 * m) == 16 * And(v / 16, m)
  {
    hide And;
    AndEven(v, 8 * m);
    AndEven(v / 2, 4 * m);
    AndEven(v / 4, 2 * m);
    AndEven(v / 8, m);
    assert v / 2 / 2 == v / 4 && v / 4 / 2 == v / 8 && v / 8 / 2 == v / 16;
  }

  // ----- names

  /** One name component describes a byte of an IPv4 or a nibble of an IPv6 address. */
  predicate IsEntrySize(bpe: nat) {
    bpe == 4 || bpe == 8
  }

  function Entries(b: seq<Byte>, bpe: nat): nat {
    if bpe == 8 then |b| else 2 * |b|
  }

  function Entry(b: seq<Byte>, bpe: nat, i: nat): (v: nat)
    requires IsEntrySize(bpe) && i < Entries(b, bpe)
    ensures v < Pow2(bpe)
  {
    SmallPowers();
    if bpe == 8 then b[i] else if i % 2 == 0 then b[i / 2] / 16 else b[i / 2] % 16
  }

  /** Entries k - 1 down to 0: the order in which a reverse name lists them. */
  function RevEntries(b: seq<Byte>, bpe: nat, k: nat): (l: seq<nat>)
    requires IsEntrySize(bpe) && k <= Entries(b, bpe)
    ensures |l| == k
    decreases k
  {
    if k == 0 then [] else [Entry(b, bpe, k - 1)] + RevEntries(b, bpe, k - 1)
  }

  /** Complete entries in n bits, and the bits left over. */
  function Full(n: nat, bpe: nat): nat {
    if bpe == 8 then n / 8 else n / 4
  }

  function Rem(n: nat, bpe: nat): (r: nat)
    requires IsEntrySize(bpe)
    ensures r < bpe && n == bpe * Full(n, bpe) + r
  {
    if bpe == 8 then n % 8 else n % 4
  }

  lemma ModSmaller(e: nat, p: nat)
    requires p > 0
    ensures e % p <= e
  {
  }

  /** The first value of the partial entry: its prefix bits, the rest zero. */
  function StartValue(b: seq<Byte>, bpe: nat, n: nat): nat
    requires IsEntrySize(bpe) && Full(n, bpe) < Entries(b, bpe)
  {
    var e, p := Entry(b, bpe, Full(n, bpe)), Pow2(bpe - Rem(n, bpe));
    ModSmaller(e, p);
    e - e % p
  }

  function Extended(b: seq<Byte>, bpe: nat, n: nat, j: nat): seq<nat>
    requires IsEntrySize(bpe) && Full(n, bpe) < Entries(b, bpe)
  {
    [StartValue(b, bpe, n) + j] + RevEntries(b, bpe, Full(n, bpe))
  }

  /** The label lists of the names printed for the first n bits of b. */
  function Labels(b: seq<Byte>, bpe: nat, n: nat): seq<seq<nat>>
    requires IsEntrySize(bpe) && n <= 8 * |b|
  {
    if n == 0 then []
    else if Rem(n, bpe) == 0 then [RevEntries(b, bpe, Full(n, bpe))]
    else seq(Pow2(bpe - Rem(n, bpe)), j requires 0 <= j => Extended(b, bpe, n, j))
  }

  function Digit(v: nat): char
    requires v < 16
  {
    "0123456789abcdef"[v]
  }

  /** "%u." and "%x." */
  function Label(v: nat, bpe: nat): string
    requires IsEntrySize(bpe) && v < Pow2(bpe)
  {
    SmallPowers();
    (if bpe == 4 || v < 10 then [Digit(v)]
     else if v < 100 then [Digit(v / 10), Digit(v % 10)]
     else [Digit(v / 100), Digit(v / 10 % 10), Digit(v % 10)]) + "."
  }

  predicate Renderable(l: seq<nat>, bpe: nat) {
    forall i :: 0 <= i < |l| ==> l[i] < Pow2(bpe)
  }

  function Render(l: seq<nat>, bpe: nat): string
    requires IsEntrySize(bpe) && Renderable(l, bpe)
  {
    if l == [] then "" else Label(l[0], bpe) + Render(l[1..], bpe)
  }

  // ----- the masks the source slides over the bytes

  function MaskAt(bpe: nat, i: nat): nat {
    if bpe == 8 then 0xff else if i % 2 == 0 then 0xf0 else 0x0f
  }

  function ShiftAt(bpe: nat, i: nat): nat {
    if bpe == 8 then 0 else if i % 2 == 0 then 4 else 0
  }

  function ByteAt(bpe: nat, i: nat): nat {
    if bpe == 8 then i else i / 2
  }

  lemma FieldHigh(x: Byte, k: nat)
    requires k <= 4
    ensures Pow2(k) <= Pow2(4)
    ensures And(x, (Pow2(4) - Pow2(k)) * Pow2(4)) / Pow2(4) == x / 16 - x / 16 % Pow2(k)
  {
    SmallPowers();
    hide And, Pow2;
    PowAscends(k, 4);
    AndShifted(x, Pow2(4) - Pow2(k));
    AndField(x / 16, 4, k);
    assert x / 16 % Pow2(4) == x / 16;
  }

  lemma FieldLow(x: Byte, k: nat)
    requires k <= 4
    ensures Pow2(k) <= Pow2(4)
    ensures And(x, (Pow2(4) - Pow2(k)) * Pow2(0)) / Pow2(0) == x % 16 - x % 16 % Pow2(k)
  {
    SmallPowers();
    hide And, Pow2;
    AndField(x, 4, k);
    NibbleMod(x, k);
  }

  lemma FieldWhole(x: Byte, k: nat)
    requires k <= 8
    ensures Pow2(k) <= Pow2(8)
    ensures And(x, (Pow2(8) - Pow2(k)) * Pow2(0)) / Pow2(0) == x - x % Pow2(k)
  {
    SmallPowers();
    hide And, Pow2;
    AndField(x, 8, k);
    assert x % Pow2(8) == x;
  }

  /** Masking off all but the low k bits of an entry's field, and shifting it down. */
  lemma FieldOfByte(b: seq<Byte>, bpe: nat, i: nat, k: nat)
    requires IsEntrySize(bpe) && i < Entries(b, bpe) && k <= bpe
    ensures Pow2(k) <= Pow2(bpe)
    ensures ByteAt(bpe, i) < |b|
    ensures var e, s := Entry(b, bpe, i), Pow2(ShiftAt(bpe, i));
            And(b[ByteAt(bpe, i)], (Pow2(bpe) - Pow2(k)) * s) / s == e - e % Pow2(k)
  {
    hide And, Pow2;
    PowAscends(k, bpe);
    var x := b[ByteAt(bpe, i)];
    if bpe == 8 {
      FieldWhole(x, k);
    } else if i % 2 == 0 {
      FieldHigh(x, k);
    } else {
      FieldLow(x, k);
    }
  }

  lemma {:induction false} ModMod(x: nat, w: nat, k: nat)
    requires k <= w
    ensures x % Pow2(w) % Pow2(k) == x % Pow2(k)
    decreases k
  {
    SmallPowers();
    if k > 0 {
      HalveMod(x, w - 1);
      HalveMod(x, k - 1);
      HalveMod(x % Pow2(w), k - 1);
      ModMod(x / 2, w - 1, k - 1);
      hide Pow2;
      assert x % Pow2(w) / 2 == x / 2 % Pow2(w - 1) && x % Pow2(w) % 2 == x % 2;
    }
  }

  lemma NibbleMod(x: nat, k: nat)
    requires k <= 4
    ensures x % 16 % Pow2(k) == x % Pow2(k)
  {
    SmallPowers();
    hide Pow2;
    ModMod(x, 4, k);
  }

  lemma EntryByMask(b: seq<Byte>, bpe: nat, i: nat)
    requires IsEntrySize(bpe) && i < Entries(b, bpe)
    ensures ByteAt(bpe, i) < |b|
    ensures And(b[ByteAt(bpe, i)], MaskAt(bpe, i)) / Pow2(ShiftAt(bpe, i)) == Entry(b, bpe, i)
  {
    SmallPowers();
    hide And, Pow2;
    FieldOfByte(b, bpe, i, 0);
  }

  lemma AndNotDouble(x: nat, y: nat)
    ensures AndNot(2 * x, 2 * y) == 2 * AndNot(x, y)
  {
  }

  lemma NothingAndNot()
    ensures AndNot(0, 0) == 0
  {
  }

  lemma {:induction false} AndNotNothing(x: nat)
    ensures AndNot(x, 0) == x
    decreases x
  {
    hide AndNot;
    if x > 0 {
      AndNotNothing(x / 2);
      AndNotHalves(x, 0);
    } else {
      NothingAndNot();
    }
  }

  lemma AndNotHalves(x: nat, y: nat)
    requires x > 0
    ensures AndNot(x, y) == 2 * AndNot(x / 2, y / 2) + (x % 2) * (1 - y % 2)
  {
  }

  lemma AndNotOdd(m: nat)
    ensures AndNot(2 * m + 1, 1) == 2 * m
  {
    hide AndNot;
    AndNotHalves(2 * m + 1, 1);
    AndNotNothing(m);
    assert (2 * m + 1) / 2 == m && 1 / 2 == 0;
  }

  lemma {:induction false} ClearField(w: nat, j: nat)
    requires j < w
    ensures Pow2(j) <= Pow2(w) && Pow2(j + 1) <= Pow2(w)
    ensures AndNot(Pow2(w) - Pow2(j), Pow2(j)) == Pow2(w) - Pow2(j + 1)
    decreases j
  {
    hide AndNot, Pow2;
    PowAscends(j, w);
    PowAscends(j + 1, w);
    Double(w - 1);
    Double(j);
    if j == 0 {
      SmallPowers();
      AndNotOdd(Pow2(w - 1) - 1);
    } else {
      Double(j - 1);
      ClearField(w - 1, j - 1);
      AndNotDouble(Pow2(w - 1) - Pow2(j - 1), Pow2(j - 1));
    }
  }

  lemma AndNotShifted(x: nat, y: nat)
    ensures AndNot(16 * x, 16 * y) == 16 * AndNot(x, y)
  {
    hide AndNot;
    AndNotDouble(8 * x, 8 * y);
    AndNotDouble(4 * x, 4 * y);
    AndNotDouble(2 * x, 2 * y);
    AndNotDouble(x, y);
  }

  /** `mask &= ~bit` takes the lowest bit off a field. */
  lemma ClearLowest(bpe: nat, i: nat, j: nat)
    requires IsEntrySize(bpe) && j < bpe
    ensures Pow2(j) <= Pow2(bpe) && Pow2(j + 1) <= Pow2(bpe)
    ensures var s := ShiftAt(bpe, i);
            AndNot((Pow2(bpe) - Pow2(j)) * Pow2(s), Pow2(s + j)) == (Pow2(bpe) - Pow2(j + 1)) * Pow2(s)
  {
    hide Pow2, AndNot;
    SmallPowers();
    ClearField(bpe, j);
    if ShiftAt(bpe, i) == 4 {
      Double(j);
      Double(j + 1);
      Double(j + 2);
      Double(j + 3);
      AndNotShifted(Pow2(bpe) - Pow2(j), Pow2(j));
    }
  }

  lemma ModUnique(v: nat, d: nat, q: nat, r: nat)
    requires v == q * d + r && r < d
    ensures v % d == r
  {
    var e: int, size: int := v / d - q, d;
    assert v == v / d * d + v % d;
    assert e * size == r - v % d;
    assert e >= 1 ==> e * size >= size;
    assert e <= -1 ==> e * size <= -size;
  }

  lemma NextMultiple(q: nat, p: nat)
    ensures (q + 1) * p == q * p + p
  {
  }

  lemma LaterMultiple(q: nat, c: nat, p: nat)
    requires q <= c
    ensures q * p <= c * p
  {
  }

  lemma ModAtMost(v: nat, d: nat)
    requires 0 < d && v <= d
    ensures v % d == if v == d then 0 else v
  {
  }

  /** Inside the multiple s of p, below the multiple w. */
  lemma InsideMultiple(q: nat, p: nat, s: nat, w: nat, j: nat)
    requires s == q * p && s + p <= w && j < p
    ensures (s + j) % w == s + j && (s + j) % p == j
  {
    ModUnique(s + j, p, q, j);
    ModAtMost(s + j, w);
  }

  /** At the next multiple. */
  lemma PastMultiple(q: nat, p: nat, s: nat, w: nat)
    requires s == q * p && p > 0 && s + p <= w && (s + p == w ==> s > 0)
    ensures (s + p) % p == 0 && (s + p) % w != s
  {
    NextMultiple(q, p);
    ModUnique(s + p, p, q + 1, 0);
    ModAtMost(s + p, w);
  }

  lemma QuotientBelow(e: nat, c: nat, p: nat)
    requires p > 0 && e < c * p
    ensures e == e / p * p + e % p && e / p < c
  {
    var q := e / p;
    assert q >= c ==> q * p >= c * p;
  }

  lemma BelowMultiple(q: nat, p: nat, c: nat, s: nat, w: nat)
    requires q < c && c > 1 && p > 0 && s == q * p && w == c * p
    ensures s + p <= w && (s + p == w ==> s > 0)
  {
    NextMultiple(q, p);
    LaterMultiple(q + 1, c, p);
    LaterMultiple(2, c, p);
  }

  lemma StaysInMultiple(q: nat, p: nat, c: nat, s: nat, w: nat, j: nat)
    requires q < c && c > 1 && p > 0 && j <= p && s == q * p && w == c * p
    ensures w > 0 && ((s + j) % w - (s + j) % p == s <==> j < p)
    ensures j < p ==> s + j < w
  {
    BelowMultiple(q, p, c, s, w);
    if j < p {
      InsideMultiple(q, p, s, w, j);
    } else {
      PastMultiple(q, p, s, w);
    }
  }

  /** The enumeration stays inside the mask for exactly 2^k values. */
  lemma StaysInField(e: nat, bpe: nat, k: nat, j: nat)
    requires IsEntrySize(bpe) && e < Pow2(bpe) && k < bpe && j <= Pow2(k)
    ensures Pow2(k) <= Pow2(bpe) && e % Pow2(k) <= e
    ensures And(e - e % Pow2(k) + j, Pow2(bpe) - Pow2(k)) == e - e % Pow2(k) <==> j < Pow2(k)
    ensures j < Pow2(k) ==> e - e % Pow2(k) + j < Pow2(bpe)
  {
    hide And;
    ModSmaller(e, Pow2(k));
    AndField(e - e % Pow2(k) + j, bpe, k);
    SmallPowers();
    hide Pow2;
    PowSplits(k, bpe);
    QuotientBelow(e, Pow2(bpe - k), Pow2(k));
    StaysInMultiple(e / Pow2(k), Pow2(k), Pow2(bpe - k), e - e % Pow2(k), Pow2(bpe), j);
  }

  lemma {:induction false} PowSplits(k: nat, w: nat)
    requires k < w
    ensures Pow2(w) == Pow2(w - k) * Pow2(k) && Pow2(w - k) > 1
    decreases k
  {
    if k > 0 {
      PowSplits(k - 1, w - 1);
    }
  }
}
