/** The PE image checksum of petools: a 32-bit end-around-carry sum folded to 16 bits. */
module Checksum {
  import opened Bytes

  function Word16(b: seq<Byte>, i: nat): (w: nat)
    requires i + 2 <= |b|
    ensures w < 0x1_0000
  {
    var lo: int, hi: int := b[i], b[i + 1];
    lo + 256 * hi
  }

  function Word32(b: seq<Byte>, i: nat): (w: nat)
    requires i + 4 <= |b|
    ensures w < TWO32
  {
    Word16(b, i) + 0x1_0000 * Word16(b, i + 2)
  }

  // ----- computeChecksum and finishChecksum

  /** `*chksum += w; if (*chksum < oldChksum) ++*chksum;` */
  function AddCarry(acc: nat, w: nat): (r: nat)
    requires acc < TWO32 && w < TWO32
    ensures r < TWO32
  {
    var x := (acc + w) % TWO32;
    if x < acc then x + 1 else x
  }

  /** The sum over the whole 32-bit words of b; `bufsize >> 2` drops the last |b| % 4 bytes. */
  function Sum32(acc: nat, b: seq<Byte>): (r: nat)
    requires acc < TWO32
    ensures r < TWO32
    decreases |b|
  {
    if |b| < 4 then acc else Sum32(AddCarry(acc, Word32(b, 0)), b[4..])
  }

  method ComputeChecksum(chksum: nat, buf: seq<Byte>) returns (r: nat)
    requires chksum < TWO32
    ensures r == Sum32(chksum, buf)
  {
    r := chksum;
    var p := 0;
    assert buf[0..] == buf;
    for i := 0 to |buf| / 4
      invariant p == 4 * i && r < TWO32
      invariant Sum32(r, buf[p..]) == Sum32(chksum, buf)
    {
      assert Word32(buf[p..], 0) == Word32(buf, p);
      assert buf[p..][4..] == buf[p + 4..];
      var oldChksum := r;
      r := (r + Word32(buf, p)) % TWO32;
      p := p + 4;
      if r < oldChksum {
        r := r + 1;
      }
    }
  }

  function Fold(acc: nat): (r: nat)
    requires acc < TWO32
    ensures r < 0x1_0000
  {
    var x := acc % 0x1_0000 + acc / 0x1_0000;
    (x + x / 0x1_0000) % 0x1_0000
  }

  function Finish(acc: nat, filesize: nat): (r: nat)
    requires acc < TWO32
    ensures r < TWO32
  {
    (Fold(acc) + filesize) % TWO32
  }

  // ----- the reference: a ones' complement sum, 16 bits at a time, over all of the data

  function Add16(acc: nat, h: nat): (r: nat)
    requires acc < 0x1_0000 && h < 0x1_0000
    ensures r < 0x1_0000
  {
    if acc + h < 0x1_0000 then acc + h else acc + h - 0xFFFF
  }

  /** The first 16-bit word of b; an odd last byte stands for a word of its own. */
  function FirstWord(b: seq<Byte>): (w: nat)
    requires b != []
    ensures w < 0x1_0000
  {
    if |b| == 1 then b[0] else Word16(b, 0)
  }

  function AfterWord(b: seq<Byte>): seq<Byte> {
    if |b| <= 2 then [] else b[2..]
  }

  /** All of b, word by word. */
  function Sum16(acc: nat, b: seq<Byte>): (r: nat)
    requires acc < 0x1_0000
    ensures r < 0x1_0000
    decreases |b|
  {
    if b == [] then acc else Sum16(Add16(acc, FirstWord(b)), AfterWord(b))
  }

  function Reference(b: seq<Byte>): nat {
    (Sum16(0, b) + |b|) % TWO32
  }

  // ----- both represent a plain sum modulo 65535, with 0 only for all zeros

  function PlainSum(b: seq<Byte>): nat
    decreases |b|
  {
    if b == [] then 0 else FirstWord(b) + PlainSum(AfterWord(b))
  }

  /** What `bufsize >> 2` keeps, and what it drops. */
  function Whole(b: seq<Byte>): seq<Byte> {
    b[..|b| / 4 * 4]
  }

  function Tail(b: seq<Byte>): (t: seq<Byte>)
    ensures |t| == |b| % 4
  {
    b[|b| / 4 * 4..]
  }

  /** Equal modulo 65535. */
  ghost predicate Congruent(x: int, y: int) {
    (x - y) % 0xFFFF == 0
  }

  /** The same number of ones' complement arithmetic, with the same of its two zeros. */
  ghost predicate SameResidue(p: nat, q: nat) {
    Congruent(p, q) && (p == 0 <==> q == 0)
  }

  /** Folded values are equal exactly if what they represent is the same modulo 65535 and in being zero. */
  lemma SameRepresentative(r: nat, p: nat, q: nat, s: nat)
    requires SameResidue(r, p) && SameResidue(q, s) && r <= 0xFFFF && q <= 0xFFFF
    ensures r == q <==> SameResidue(p, s)
  {
    var i, j := (r - p) / 0xFFFF, (q - s) / 0xFFFF;
    assert r == p + 0xFFFF * i && q == s + 0xFFFF * j;
    if SameResidue(p, s) {
      var k := (p - s) / 0xFFFF;
      assert p == s + 0xFFFF * k;
      assert r - q == 0xFFFF * (k + i - j);
    }
    if r == q {
      assert p - s == 0xFFFF * (j - i);
    }
  }

  lemma Add16Represents(r: nat, s: nat, h: nat)
    requires r < 0x1_0000 && h < 0x1_0000 && SameResidue(r, s)
    ensures SameResidue(Add16(r, h), s + h)
  {
  }

  lemma CongruentPlus(p: int, q: int, d: int, x: int, y: int)
    requires Congruent(p, q) && x - y == p - q + 0xFFFF * d
    ensures Congruent(x, y)
  {
    var k := (p - q) / 0xFFFF;
    assert x - y == 0xFFFF * (k + d);
  }

  lemma AddCarryIs(acc: nat, w: nat)
    requires acc < TWO32 && w < TWO32
    ensures AddCarry(acc, w) == if acc + w < TWO32 then acc + w else acc + w - 0xFFFF * 0x1_0001
  {
  }

  lemma AddCarryRepresents(acc: nat, s: nat, w: nat)
    requires acc < TWO32 && w < TWO32 && SameResidue(acc, s)
    ensures SameResidue(AddCarry(acc, w), s + w % 0x1_0000 + w / 0x1_0000)
  {
    hide AddCarry, Congruent;
    AddCarryIs(acc, w);
    var lo, hi := w % 0x1_0000, w / 0x1_0000;
    assert w == lo + 0x1_0000 * hi;
    CongruentPlus(acc, s, if acc + w < TWO32 then hi else hi - 0x1_0001, AddCarry(acc, w), s + lo + hi);
  }

  lemma FoldIs(acc: nat)
    requires acc < TWO32
    ensures var x := acc % 0x1_0000 + acc / 0x1_0000; Fold(acc) == if x < 0x1_0000 then x else x - 0xFFFF
  {
    var x := acc % 0x1_0000 + acc / 0x1_0000;
    assert x >= 0x1_0000 ==> x / 0x1_0000 == 1;
  }

  lemma FoldRepresents(acc: nat, s: nat)
    requires acc < TWO32 && SameResidue(acc, s)
    ensures SameResidue(Fold(acc), s)
  {
    hide Fold, Congruent;
    FoldIs(acc);
    var lo: int, hi: int := acc % 0x1_0000, acc / 0x1_0000;
    assert acc == lo + 0x1_0000 * hi;
    CongruentPlus(acc, s, if lo + hi < 0x1_0000 then -hi else -hi - 1, Fold(acc), s);
  }

  lemma {:induction false} Sum16Represents(acc: nat, s: nat, b: seq<Byte>)
    requires acc < 0x1_0000 && SameResidue(acc, s)
    ensures SameResidue(Sum16(acc, b), s + PlainSum(b))
    decreases |b|
  {
    hide SameResidue, FirstWord, Add16;
    if b != [] {
      Add16Represents(acc, s, FirstWord(b));
      Sum16Represents(Add16(acc, FirstWord(b)), s + FirstWord(b), AfterWord(b));
    }
  }

  lemma PlainSumOfFour(b: seq<Byte>)
    requires |b| >= 4
    ensures PlainSum(b) == Word16(b, 0) + Word16(b, 2) + PlainSum(b[4..])
  {
    hide Word16;
    assert AfterWord(b) == b[2..] && AfterWord(b[2..]) == b[4..];
    assert FirstWord(b[2..]) == Word16(b, 2) by {
      assert Word16(b[2..], 0) == Word16(b, 2) by { WordAt(b); }
    }
  }

  lemma WordAt(b: seq<Byte>)
    requires |b| >= 4
    ensures Word16(b[2..], 0) == Word16(b, 2)
  {
  }

  lemma {:induction false} Sum32Represents(acc: nat, s: nat, b: seq<Byte>)
    requires acc < TWO32 && SameResidue(acc, s)
    ensures SameResidue(Sum32(acc, b), s + PlainSum(Whole(b)))
    decreases |b|
  {
    if |b| >= 4 {
      var w := Word32(b, 0);
      assert w % 0x1_0000 == Word16(b, 0) && w / 0x1_0000 == Word16(b, 2);
      hide SameResidue, AddCarry, Word32;
      AddCarryRepresents(acc, s, w);
      WholeFour(b);
      Sum32Represents(AddCarry(acc, w), s + Word16(b, 0) + Word16(b, 2), b[4..]);
    }
  }

  lemma WholeFour(b: seq<Byte>)
    requires |b| >= 4
    ensures PlainSum(Whole(b)) == Word16(b, 0) + Word16(b, 2) + PlainSum(Whole(b[4..]))
  {
    var v := Whole(b);
    PlainSumOfFour(v);
    hide PlainSum;
    assert v[4..] == Whole(b[4..]);
  }

  lemma {:induction false} PlainSumConcat(a: seq<Byte>, b: seq<Byte>)
    requires |a| % 2 == 0
    ensures PlainSum(a + b) == PlainSum(a) + PlainSum(b)
    decreases |a|
  {
    if a == [] {
      assert a + b == b;
    } else {
      assert FirstWord(a + b) == FirstWord(a);
      hide FirstWord;
      assert AfterWord(a + b) == AfterWord(a) + b;
      PlainSumConcat(AfterWord(a), b);
    }
  }

  /** Two to three dropped bytes add up to less than twice 65535. */
  lemma TailSum(b: seq<Byte>)
    requires |b| < 4
    ensures PlainSum(b) < 2 * 0xFFFF
    ensures |b| < 2 ==> PlainSum(b) < 0x100
  {
    if |b| > 2 {
      assert PlainSum(b) == FirstWord(b) + PlainSum(AfterWord(b));
      assert AfterWord(AfterWord(b)) == [];
      assert FirstWord(AfterWord(b)) == b[2];
    } else if b != [] {
      assert AfterWord(b) == [] && PlainSum(b) == FirstWord(b);
    }
  }

  /** The code's sum of any pieces against the reference sum of any data. */
  lemma FoldedAgainst(pieces: seq<Byte>, b: seq<Byte>)
    ensures Fold(Sum32(0, pieces)) == Sum16(0, b) <==> SameResidue(PlainSum(Whole(pieces)), PlainSum(b))
  {
    hide Fold, Sum16, Sum32, PlainSum, SameResidue;
    ZeroRepresents();
    Sum16Represents(0, 0, b);
    Sum32Represents(0, 0, pieces);
    FoldRepresents(Sum32(0, pieces), PlainSum(Whole(pieces)));
    SameRepresentative(Fold(Sum32(0, pieces)), PlainSum(Whole(pieces)), Sum16(0, b), PlainSum(b));
  }

  /** The code's sums of two sequences of pieces against each other. */
  lemma FoldedSame(a: seq<Byte>, b: seq<Byte>)
    ensures Fold(Sum32(0, a)) == Fold(Sum32(0, b)) <==> SameResidue(PlainSum(Whole(a)), PlainSum(Whole(b)))
  {
    hide Fold, Sum32, PlainSum, SameResidue;
    ZeroRepresents();
    Sum32Represents(0, 0, a);
    Sum32Represents(0, 0, b);
    FoldRepresents(Sum32(0, a), PlainSum(Whole(a)));
    FoldRepresents(Sum32(0, b), PlainSum(Whole(b)));
    SameRepresentative(Fold(Sum32(0, a)), PlainSum(Whole(a)), Fold(Sum32(0, b)), PlainSum(Whole(b)));
  }

  lemma ZeroRepresents()
    ensures SameResidue(0, 0)
  {
  }

  lemma SameFinish(x: nat, y: nat, size: nat)
    requires x < 0x1_0000 && y < 0x1_0000
    ensures (x + size) % TWO32 == (y + size) % TWO32 <==> x == y
  {
    if (x + size) % TWO32 == (y + size) % TWO32 {
      var i, j := (x + size) / TWO32, (y + size) / TWO32;
      assert x - y == TWO32 * (i - j);
    }
  }

  /** The dropped bytes do not matter: as words they add up to 0 or, unless all else is zero, to 0xFFFF,
      the other zero of ones' complement. */
  predicate TailHarmless(b: seq<Byte>) {
    var t := PlainSum(Tail(b));
    t == 0 || (t == 0xFFFF && PlainSum(Whole(b)) != 0)
  }

  /** The 32-bit accumulation, folded, is the 16-bit ones' complement sum of all the data, including which
      of the two representations of zero comes out, exactly if the dropped bytes are harmless. */
  lemma FoldedSum(b: seq<Byte>)
    ensures Fold(Sum32(0, b)) == Sum16(0, b) <==> TailHarmless(b)
    ensures Finish(Sum32(0, b), |b|) == Reference(b) <==> TailHarmless(b)
    ensures |b| % 4 == 0 ==> TailHarmless(b)
  {
    hide Fold, Sum16, Sum32, PlainSum, Whole, Tail, SameResidue;
    FoldedAgainst(b, b);
    SplitSum(b);
    TailSum(Tail(b));
    ResidueOfSum(PlainSum(Whole(b)), PlainSum(Tail(b)));
    SameFinish(Fold(Sum32(0, b)), Sum16(0, b), |b|);
  }

  lemma SplitSum(b: seq<Byte>)
    ensures PlainSum(b) == PlainSum(Whole(b)) + PlainSum(Tail(b))
    ensures |b| % 4 == 0 ==> PlainSum(Tail(b)) == 0
  {
    NoSum();
    hide PlainSum;
    var k := |b| / 4 * 4;
    assert k <= |b| && k % 2 == 0;
    assert b == b[..k] + b[k..];
    PlainSumConcat(b[..k], b[k..]);
    assert k == |b| ==> b[k..] == [];
  }

  lemma NoSum()
    ensures PlainSum([]) == 0
  {
  }

  lemma ResidueOfSum(p: nat, t: nat)
    requires t < 2 * 0xFFFF
    ensures SameResidue(p, p + t) <==> t == 0 || (t == 0xFFFF && p != 0)
  {
    var m: int := t;
    assert p - (p + t) == -m;
    assert -m % 0xFFFF == 0 <==> m == 0 || m == 0xFFFF;
  }

  /** A trailing half word is lost. */
  lemma DroppedWord()
    ensures Fold(Sum32(0, [1, 0])) == 0 && Sum16(0, [1, 0]) == 1
  {
  }

  lemma {:induction false} Sum32Concat(acc: nat, a: seq<Byte>, b: seq<Byte>)
    requires acc < TWO32 && |a| % 4 == 0
    ensures Sum32(acc, a + b) == Sum32(Sum32(acc, a), b)
    decreases |a|
  {
    if |a| < 4 {
      assert a + b == b;
    } else {
      assert Word32(a + b, 0) == Word32(a, 0);
      assert (a + b)[4..] == a[4..] + b;
      Sum32Concat(AddCarry(acc, Word32(a, 0)), a[4..], b);
    }
  }
}
