/** The names printed for a CIDR block denote a partition of it. */
module DnsBlocks {
  import opened Bytes
  import opened BitNat
  import opened NetCalc
  import opened NetRange
  import opened DnsRev
  import opened DnsNames
  import opened DnsRead

  /** A reverse name, most specific label first, stands for the addresses that begin with its labels
      in reverse. */
  ghost predicate Denotes(l: seq<nat>, x: seq<Byte>, bpe: nat)
    requires IsEntrySize(bpe)
  {
    |l| <= Entries(x, bpe) && forall i :: 0 <= i < |l| ==> Entry(x, bpe, i) == l[|l| - 1 - i]
  }

  // ----- entries and bits

  /** x >> s */
  function Shr(x: nat, s: nat): nat
    decreases s
  {
    if s == 0 then x else Shr(x / 2, s - 1)
  }

  lemma {:induction false} ShrDivides(x: nat, s: nat)
    ensures Shr(x, s) == x / Pow2(s)
    decreases s
  {
    if s > 0 {
      ShrDivides(x / 2, s - 1);
      DivTwice(x, Pow2(s - 1));
    }
  }

  lemma {:induction false} BitShifted(x: nat, s: nat, t: nat)
    ensures Bit(Shr(x, s), t) == Bit(x, t + s)
    decreases s
  {
    if s > 0 {
      HigherBit(x, t + s - 1);
      hide Bit;
      BitShifted(x / 2, s - 1, t);
    }
  }

  lemma {:induction false} ShrBelow(y: nat, w: nat, k: nat)
    requires y < Pow2(w) && k <= w
    ensures Shr(y, k) < Pow2(w - k)
    decreases k
  {
    if k > 0 {
      ShrBelow(y / 2, w - 1, k - 1);
    }
  }

  lemma HigherBit(x: nat, k: nat)
    ensures Bit(x, k + 1) == Bit(x / 2, k)
  {
  }

  lemma DivTwice(x: nat, d: nat)
    requires d > 0
    ensures x / 2 / d == x / (2 * d)
  {
    var q, r := x / 2 / d, x / 2 % d;
    assert x / 2 == q * d + r;
    assert x == q * (2 * d) + (2 * r + x % 2);
    ModUnique(x, 2 * d, q, 2 * r + x % 2);
    var e: int, size: int := x / (2 * d) - q, 2 * d;
    assert x == x / (2 * d) * (2 * d) + x % (2 * d);
    assert e * size == 0;
  }

  lemma {:induction false} BitOfMod(x: nat, w: nat, k: nat)
    requires k < w <= 8
    ensures Bit(x % Pow2(w), k) == Bit(x, k)
    decreases k
  {
    HalveMod(x, w - 1);
    hide Pow2;
    var h := x / 2 % Pow2(w - 1);
    assert x % Pow2(w) / 2 == h && x % Pow2(w) % 2 == x % 2;
    if k > 0 {
      BitOfMod(x / 2, w - 1, k - 1);
    }
  }

  lemma EntryBits(b: seq<Byte>, bpe: nat, i: nat, t: nat)
    requires IsEntrySize(bpe) && i < Entries(b, bpe) && t < bpe
    ensures bpe * i + t < 8 * |b|
    ensures GBit(b, bpe * i + t) == Bit(Entry(b, bpe, i), bpe - 1 - t)
  {
    SmallPowers();
    hide Bit, Pow2;
    var g := bpe * i + t;
    if bpe == 8 {
      assert g / 8 == i && g % 8 == t;
    } else if i % 2 == 0 {
      assert g == 8 * (i / 2) + t;
      assert g / 8 == i / 2 && g % 8 == t;
      BitShifted(b[i / 2], 4, 3 - t);
    } else {
      assert g == 8 * (i / 2) + 4 + t;
      assert g / 8 == i / 2 && g % 8 == 4 + t;
      BitOfMod(b[i / 2], 4, 3 - t);
    }
  }

  ghost predicate SameFrom(y: nat, z: nat, k: nat, w: nat) {
    forall t :: k <= t < w ==> Bit(y, t) == Bit(z, t)
  }

  /** Two numbers agree above bit k exactly if they agree when shifted right by k. */
  lemma UpperBits(y: nat, z: nat, w: nat, k: nat)
    requires y < Pow2(w) && z < Pow2(w) && k <= w
    ensures Shr(y, k) == Shr(z, k) <==> SameFrom(y, z, k, w)
  {
    hide Bit, Shr, Pow2;
    if Shr(y, k) == Shr(z, k) {
      forall t | k <= t < w
        ensures Bit(y, t) == Bit(z, t)
      {
        BitShifted(y, k, t - k);
        BitShifted(z, k, t - k);
      }
    }
    if SameFrom(y, z, k, w) {
      forall t | 0 <= t < w - k
        ensures Bit(Shr(y, k), t) == Bit(Shr(z, k), t)
      {
        BitShifted(y, k, t);
        BitShifted(z, k, t);
        assert k <= t + k < w;
      }
      ShrBelow(y, w, k);
      ShrBelow(z, w, k);
      SameBits(Shr(y, k), Shr(z, k), w - k);
    }
  }

  // ----- prefixes, entry by entry

  ghost predicate SameChunk(x: seq<Byte>, a: seq<Byte>, from: nat, m: nat)
    requires |x| == |a| && from + m <= 8 * |a|
  {
    forall k :: from <= k < from + m ==> GBit(x, k) == GBit(a, k)
  }

  /** The first m bits of entry i agree exactly if the entries do after losing the others. */
  lemma ChunkOfEntry(x: seq<Byte>, a: seq<Byte>, bpe: nat, i: nat, m: nat)
    requires IsEntrySize(bpe) && |x| == |a| && i < Entries(a, bpe) && m <= bpe
    ensures bpe * i + bpe <= 8 * |a|
    ensures SameChunk(x, a, bpe * i, m) <==> Shr(Entry(x, bpe, i), bpe - m) == Shr(Entry(a, bpe, i), bpe - m)
  {
    hide GBit, Entry, Bit, Shr, Pow2;
    var y, z := Entry(x, bpe, i), Entry(a, bpe, i);
    UpperBits(y, z, bpe, bpe - m);
    if SameFrom(y, z, bpe - m, bpe) {
      forall k | bpe * i <= k < bpe * i + m
        ensures GBit(x, k) == GBit(a, k)
      {
        var t := k - bpe * i;
        EntryBits(x, bpe, i, t);
        EntryBits(a, bpe, i, t);
        assert bpe - m <= bpe - 1 - t < bpe;
      }
    }
    if SameChunk(x, a, bpe * i, m) {
      forall t | bpe - m <= t < bpe
        ensures Bit(y, t) == Bit(z, t)
      {
        EntryBits(x, bpe, i, bpe - 1 - t);
        EntryBits(a, bpe, i, bpe - 1 - t);
        assert bpe * i <= bpe * i + (bpe - 1 - t) < bpe * i + m;
      }
    }
  }

  lemma WholeEntry(x: seq<Byte>, a: seq<Byte>, bpe: nat, i: nat)
    requires IsEntrySize(bpe) && |x| == |a| && i < Entries(a, bpe)
    ensures bpe * i + bpe <= 8 * |a|
    ensures SameChunk(x, a, bpe * i, bpe) <==> Entry(x, bpe, i) == Entry(a, bpe, i)
  {
    hide GBit, Entry, SameChunk;
    ChunkOfEntry(x, a, bpe, i, bpe);
  }

  lemma LongerPrefix(x: seq<Byte>, a: seq<Byte>, n: nat, m: nat)
    requires |x| == |a| && n + m <= 8 * |a|
    ensures SamePrefix(x, a, n + m) <==> SamePrefix(x, a, n) && SameChunk(x, a, n, m)
  {
    hide GBit;
    if SamePrefix(x, a, n) && SameChunk(x, a, n, m) {
      forall k | 0 <= k < n + m
        ensures GBit(x, k) == GBit(a, k)
      {
        if k >= n {
          assert n <= k < n + m;
        }
      }
    }
  }

  lemma DenotesCons(v: nat, l: seq<nat>, x: seq<Byte>, bpe: nat)
    requires IsEntrySize(bpe) && |l| < Entries(x, bpe)
    ensures Denotes([v] + l, x, bpe) <==> Denotes(l, x, bpe) && Entry(x, bpe, |l|) == v
  {
    hide Entry;
    var m := [v] + l;
    if Denotes(m, x, bpe) {
      forall i | 0 <= i < |l|
        ensures Entry(x, bpe, i) == l[|l| - 1 - i]
      {
        assert Entry(x, bpe, i) == m[|m| - 1 - i];
      }
      assert Entry(x, bpe, |l|) == m[|m| - 1 - |l|];
    }
  }

  /** The name of k complete entries denotes the block of their bits. */
  lemma {:induction false} WholeName(b: seq<Byte>, bpe: nat, k: nat, x: seq<Byte>)
    requires IsEntrySize(bpe) && k <= Entries(b, bpe) && |x| == |b|
    ensures bpe * k <= 8 * |b|
    ensures Denotes(RevEntries(b, bpe, k), x, bpe) <==> SamePrefix(x, b, bpe * k)
    decreases k
  {
    hide Entry, GBit, SameChunk;
    if k > 0 {
      WholeName(b, bpe, k - 1, x);
      WholeEntry(x, b, bpe, k - 1);
      LongerPrefix(x, b, bpe * (k - 1), bpe);
      assert bpe * k == bpe * (k - 1) + bpe;
      DenotesCons(Entry(b, bpe, k - 1), RevEntries(b, bpe, k - 1), x, bpe);
    }
  }

  lemma ExtendedName(b: seq<Byte>, bpe: nat, n: nat, j: nat, x: seq<Byte>)
    requires IsEntrySize(bpe) && n <= 8 * |b| && Rem(n, bpe) > 0 && |x| == |b|
    ensures Full(n, bpe) < Entries(b, bpe)
    ensures Denotes(Extended(b, bpe, n, j), x, bpe)
       <==> SamePrefix(x, b, bpe * Full(n, bpe)) && Entry(x, bpe, Full(n, bpe)) == StartValue(b, bpe, n) + j
  {
    hide Entry, GBit, RevEntries, StartValue, Denotes, SamePrefix;
    var f := Full(n, bpe);
    WholeName(b, bpe, f, x);
    DenotesCons(StartValue(b, bpe, n) + j, RevEntries(b, bpe, f), x, bpe);
  }

  lemma QuotientRange(y: nat, p: nat, q: nat)
    requires p > 0
    ensures y / p == q <==> q * p <= y < q * p + p
  {
    var e: int, size: int := y / p - q, p;
    assert y == y / p * p + y % p;
    assert y - q * p == e * size + y % p;
    assert e >= 1 ==> e * size >= size;
    assert e <= -1 ==> e * size <= -size;
  }

  lemma SameQuotient(y: nat, z: nat, p: nat)
    requires p > 0
    ensures y / p == z / p <==> 0 <= y - (z - z % p) < p
  {
    assert z == z / p * p + z % p;
    QuotientRange(y, p, z / p);
  }

  /** An address is in the block exactly if its partial entry is among the enumerated values. */
  lemma PrefixOfPartial(b: seq<Byte>, bpe: nat, n: nat, x: seq<Byte>)
    requires IsEntrySize(bpe) && n <= 8 * |b| && Rem(n, bpe) > 0 && |x| == |b|
    ensures Full(n, bpe) < Entries(b, bpe)
    ensures SamePrefix(x, b, n)
       <==> && SamePrefix(x, b, bpe * Full(n, bpe))
            && 0 <= Entry(x, bpe, Full(n, bpe)) - StartValue(b, bpe, n) < Pow2(bpe - Rem(n, bpe))
  {
    hide Entry, GBit, SamePrefix, SameChunk, Pow2;
    var f, r := Full(n, bpe), Rem(n, bpe);
    LongerPrefix(x, b, bpe * f, r);
    ChunkOfEntry(x, b, bpe, f, r);
    ShrDivides(Entry(x, bpe, f), bpe - r);
    ShrDivides(Entry(b, bpe, f), bpe - r);
    SameQuotient(Entry(x, bpe, f), Entry(b, bpe, f), Pow2(bpe - r));
  }

  // ----- the label lists partition the block

  /** Every address of the block is denoted by one of the label lists, and no other address is. */
  lemma LabelsCover(b: seq<Byte>, bpe: nat, n: nat, x: seq<Byte>)
    requires IsEntrySize(bpe) && 0 < n <= 8 * |b| && |x| == |b|
    ensures SamePrefix(x, b, n) <==> exists j :: 0 <= j < |Labels(b, bpe, n)| && Denotes(Labels(b, bpe, n)[j], x, bpe)
  {
    hide Entry, GBit, SamePrefix, Denotes, RevEntries, Extended, StartValue, Pow2;
    var l, f, r := Labels(b, bpe, n), Full(n, bpe), Rem(n, bpe);
    if r == 0 {
      WholeName(b, bpe, f, x);
      assert l[0] == RevEntries(b, bpe, f);
    } else {
      PrefixOfPartial(b, bpe, n, x);
      var s := StartValue(b, bpe, n);
      forall j | 0 <= j < |l|
        ensures Denotes(l[j], x, bpe) <==> SamePrefix(x, b, bpe * f) && Entry(x, bpe, f) == s + j
      {
        ExtendedName(b, bpe, n, j, x);
      }
      if SamePrefix(x, b, n) {
        var j := Entry(x, bpe, f) - s;
        assert Denotes(l[j], x, bpe);
      }
    }
  }

  /** No address is denoted by two. */
  lemma LabelsDisjoint(b: seq<Byte>, bpe: nat, n: nat, x: seq<Byte>, i: nat, j: nat)
    requires IsEntrySize(bpe) && 0 < n <= 8 * |b| && |x| == |b|
    requires i < |Labels(b, bpe, n)| && j < |Labels(b, bpe, n)|
    requires Denotes(Labels(b, bpe, n)[i], x, bpe) && Denotes(Labels(b, bpe, n)[j], x, bpe)
    ensures i == j
  {
    hide Entry, GBit, SamePrefix, Denotes, RevEntries, Extended, StartValue, Pow2;
    if Rem(n, bpe) > 0 {
      ExtendedName(b, bpe, n, i, x);
      ExtendedName(b, bpe, n, j, x);
    }
  }

  /** There are 2^(-n mod bitsPerEntry) of them. */
  lemma LabelsCount(b: seq<Byte>, bpe: nat, n: nat)
    requires IsEntrySize(bpe) && 0 < n <= 8 * |b|
    ensures |Labels(b, bpe, n)| == Pow2((bpe - n % bpe) % bpe)
  {
    SmallPowers();
    hide Pow2, Extended, RevEntries;
    if bpe == 8 {
      assert n % bpe == n % 8;
    } else {
      assert n % bpe == n % 4;
    }
  }

  // ----- a printed name determines its labels

  lemma NameInjective(name: string, l: seq<nat>, m: seq<nat>, bpe: nat, suffix: string)
    requires IsEntrySize(bpe) && IsName(name, l, bpe, suffix) && IsName(name, m, bpe, suffix)
    ensures l == m
  {
    hide Render, Renderable;
    var s, t := Render(l, bpe), Render(m, bpe);
    assert s == name[..|name| - |suffix|] && t == name[..|name| - |suffix|];
    RenderRead(l, bpe);
    RenderRead(m, bpe);
  }

  lemma LabelInjective(v: nat, w: nat, bpe: nat)
    requires IsEntrySize(bpe) && v < Pow2(bpe) && w < Pow2(bpe) && Label(v, bpe) == Label(w, bpe)
    ensures v == w
  {
    hide Pow2, Label;
    LabelRead(v, bpe, "");
    LabelRead(w, bpe, "");
    var r := ReadLabels("", Base(bpe));
    assert ([v] + r)[0] == v && ([w] + r)[0] == w;
  }

  lemma LabelsDiffer(b: seq<Byte>, bpe: nat, n: nat, i: nat, j: nat)
    requires IsEntrySize(bpe) && n <= 8 * |b|
    requires i < j < |Labels(b, bpe, n)|
    ensures Labels(b, bpe, n)[i] != Labels(b, bpe, n)[j]
  {
    hide RevEntries, StartValue, Pow2;
    assert Extended(b, bpe, n, i)[0] != Extended(b, bpe, n, j)[0];
  }

  // ----- the printed lines

  /** The text in front of the suffix, read as labels to the base; none if the suffix is another. */
  ghost predicate Reads(text: string, suffix: string, base: int, l: seq<int>) {
    && |text| >= |suffix| && text[|text| - |suffix|..] == suffix
    && l == ReadLabels(text[..|text| - |suffix|], base)
  }

  /** A line that reads back as the bytes, or nibbles, with which x begins, in reverse order
      (section 3.5 of RFC 1035, section 2.5 of RFC 3596). */
  ghost predicate Stands(line: Line, family: Family, x: seq<Byte>)
    requires !family.Invalid?
  {
    line.Name? &&
    if family.Inet? then
      exists l :: Reads(line.text, "in-addr.arpa", 10, l) && IsBytes(l, x)
    else
      exists l :: Reads(line.text, "ip6.arpa", 16, l) && IsNibbles(l, x)
  }

  ghost predicate IsBytes(l: seq<int>, x: seq<Byte>) {
    |l| <= |x| && forall i :: 0 <= i < |l| ==> x[i] == l[|l| - 1 - i]
  }

  ghost predicate IsNibbles(l: seq<int>, x: seq<Byte>) {
    |l| <= 2 * |x| && forall i :: 0 <= i < |l| ==>
      (if i % 2 == 0 then x[i / 2] / 16 else x[i / 2] % 16) == l[|l| - 1 - i]
  }

  lemma NameReads(text: string, l: seq<nat>, bpe: nat, suffix: string, m: seq<int>)
    requires IsEntrySize(bpe) && IsName(text, l, bpe, suffix)
    ensures Reads(text, suffix, Base(bpe), m) <==> m == l
  {
    hide Render, Renderable, ReadLabels;
    RenderRead(l, bpe);
    assert text[..|text| - |suffix|] == Render(l, bpe) && text[|text| - |suffix|..] == suffix;
  }

  ghost predicate Named(names: seq<Line>, family: Family, x: seq<Byte>)
    requires !family.Invalid?
  {
    exists j :: 0 <= j < |names| && Stands(names[j], family, x)
  }

  /** The names read back denote exactly the addresses of the block. */
  ghost predicate Covers(names: seq<Line>, family: Family, b: seq<Byte>, n: nat)
    requires !family.Invalid? && n <= 8 * |b|
  {
    forall x: seq<Byte> :: |x| == |b| ==> (SamePrefix(x, b, n) <==> Named(names, family, x))
  }

  lemma DenotesBytes(l: seq<nat>, x: seq<Byte>)
    ensures Denotes(l, x, 8) <==> IsBytes(l, x)
  {
    if IsBytes(l, x) {
      forall i | 0 <= i < |l|
        ensures Entry(x, 8, i) == l[|l| - 1 - i]
      {
        assert x[i] == l[|l| - 1 - i];
      }
    }
    if Denotes(l, x, 8) {
      forall i | 0 <= i < |l|
        ensures x[i] == l[|l| - 1 - i]
      {
        assert Entry(x, 8, i) == l[|l| - 1 - i];
      }
    }
  }

  lemma DenotesNibbles(l: seq<nat>, x: seq<Byte>)
    ensures Denotes(l, x, 4) <==> IsNibbles(l, x)
  {
    if IsNibbles(l, x) {
      forall i | 0 <= i < |l|
        ensures Entry(x, 4, i) == l[|l| - 1 - i]
      {
        assert (if i % 2 == 0 then x[i / 2] / 16 else x[i / 2] % 16) == l[|l| - 1 - i];
      }
    }
    if Denotes(l, x, 4) {
      forall i | 0 <= i < |l|
        ensures (if i % 2 == 0 then x[i / 2] / 16 else x[i / 2] % 16) == l[|l| - 1 - i]
      {
        assert Entry(x, 4, i) == l[|l| - 1 - i];
      }
    }
  }

  lemma LineDenotes(line: Line, l: seq<nat>, family: Family, n: nat, x: seq<Byte>)
    requires !family.Invalid? && Prints(line, l, EntrySize(family), Suffix(family), n)
    ensures Stands(line, family, x) <==> n >= EntrySize(family) && Denotes(l, x, EntrySize(family))
  {
    hide IsName, Reads, Denotes, IsBytes, IsNibbles;
    if n >= EntrySize(family) {
      if family.Inet? {
        ByteLine(line.text, l, x);
      } else {
        NibbleLine(line.text, l, x);
      }
    }
  }

  lemma ByteLine(text: string, l: seq<nat>, x: seq<Byte>)
    requires IsName(text, l, 8, "in-addr.arpa")
    ensures (exists m :: Reads(text, "in-addr.arpa", 10, m) && IsBytes(m, x)) <==> Denotes(l, x, 8)
  {
    hide IsName, Reads, Denotes, IsBytes;
    DenotesBytes(l, x);
    NameReads(text, l, 8, "in-addr.arpa", l);
    if m :| Reads(text, "in-addr.arpa", 10, m) && IsBytes(m, x) {
      NameReads(text, l, 8, "in-addr.arpa", m);
    }
  }

  lemma NibbleLine(text: string, l: seq<nat>, x: seq<Byte>)
    requires IsName(text, l, 4, "ip6.arpa")
    ensures (exists m :: Reads(text, "ip6.arpa", 16, m) && IsNibbles(m, x)) <==> Denotes(l, x, 4)
  {
    hide IsName, Reads, Denotes, IsNibbles;
    DenotesNibbles(l, x);
    NameReads(text, l, 4, "ip6.arpa", l);
    if m :| Reads(text, "ip6.arpa", 16, m) && IsNibbles(m, x) {
      NameReads(text, l, 4, "ip6.arpa", m);
    }
  }

  lemma OutputCovers(names: seq<Line>, family: Family, b: seq<Byte>, n: nat, x: seq<Byte>)
    requires !family.Invalid? && n <= 8 * |b| && IsOutput(names, family, b, n) && |x| == |b|
    ensures Named(names, family, x) <==> n >= (if family.Inet? then 8 else 4) && SamePrefix(x, b, n)
  {
    hide Stands, Denotes, Prints, SamePrefix, Labels;
    var bpe := EntrySize(family);
    var l := Labels(b, bpe, n);
    forall j | 0 <= j < |l|
      ensures Stands(names[j], family, x) <==> n >= bpe && Denotes(l[j], x, bpe)
    {
      LineDenotes(names[j], l[j], family, n, x);
    }
    if n >= bpe {
      LabelsCover(b, bpe, n, x);
    }
  }

  /** The printed names cover the block of a prefix exactly if the prefix is not shorter than one entry:
      nothing is printed for prefix length 0, and only labels in front of a null string up to there. */
  lemma CoversIff(names: seq<Line>, family: Family, b: seq<Byte>, n: nat)
    requires !family.Invalid? && n <= 8 * |b| && IsOutput(names, family, b, n)
    ensures Covers(names, family, b, n) <==> n >= if family.Inet? then 8 else 4
  {
    hide IsOutput, Named, SamePrefix;
    if n >= EntrySize(family) {
      forall x: seq<Byte> | |x| == |b|
        ensures SamePrefix(x, b, n) <==> Named(names, family, x)
      {
        OutputCovers(names, family, b, n, x);
      }
    } else {
      OwnPrefix(b, n);
      OutputCovers(names, family, b, n, b);
    }
  }

  lemma OwnPrefix(b: seq<Byte>, n: nat)
    requires n <= 8 * |b|
    ensures SamePrefix(b, b, n)
  {
  }

  /** No address belongs to two of the names. */
  lemma NamesDisjoint(names: seq<Line>, family: Family, b: seq<Byte>, n: nat, x: seq<Byte>, i: nat, j: nat)
    requires !family.Invalid? && n <= 8 * |b| && IsOutput(names, family, b, n) && |x| == |b|
    requires i < |names| && j < |names| && Stands(names[i], family, x) && Stands(names[j], family, x)
    ensures i == j
  {
    hide Stands, Denotes, Prints, Labels;
    var bpe := EntrySize(family);
    LineDenotes(names[i], Labels(b, bpe, n)[i], family, n, x);
    LineDenotes(names[j], Labels(b, bpe, n)[j], family, n, x);
    LabelsDisjoint(b, bpe, n, x, i, j);
  }

  lemma LineInjective(line: Line, l: seq<nat>, m: seq<nat>, bpe: nat, suffix: string, n: nat)
    requires IsEntrySize(bpe) && Prints(line, l, bpe, suffix, n) && Prints(line, m, bpe, suffix, n)
    ensures l == m
  {
    hide IsName, Label, Pow2;
    if n >= bpe {
      NameInjective(line.text, l, m, bpe, suffix);
    } else {
      LabelInjective(l[0], m[0], bpe);
    }
  }

  /** The printed lines are pairwise distinct, for every prefix length, and there are
      2^(-n mod bitsPerEntry) of them unless n is 0. */
  lemma NamesDistinct(names: seq<Line>, family: Family, b: seq<Byte>, n: nat, i: nat, j: nat)
    requires !family.Invalid? && n <= 8 * |b| && IsOutput(names, family, b, n)
    ensures var bpe := if family.Inet? then 8 else 4; |names| == if n == 0 then 0 else Pow2((bpe - n % bpe) % bpe)
    ensures i < j < |names| ==> names[i] != names[j]
  {
    hide Prints, Labels, Pow2;
    var bpe := EntrySize(family);
    if n == 0 {
      LabelsOfNothing(b, bpe);
    } else {
      LabelsCount(b, bpe, n);
    }
    if i < j < |names| {
      LabelsDiffer(b, bpe, n, i, j);
      if names[i] == names[j] {
        LineInjective(names[i], Labels(b, bpe, n)[i], Labels(b, bpe, n)[j], bpe, Suffix(family), n);
      }
    }
  }

  lemma LabelsOfNothing(b: seq<Byte>, bpe: nat)
    requires IsEntrySize(bpe)
    ensures Labels(b, bpe, 0) == []
  {
  }

  /** The 128 lines printed for 128.0.0.0/1 begin with "128." in front of a null string. */
  lemma HalfOfIPv4(names: seq<Line>)
    requires IsOutput(names, Inet, [128, 0, 0, 0], 1)
    ensures |names| == 128 && names[0] == Nameless("128.", "in-addr.arpa")
  {
    HalfLabels();
    hide Labels, Label, Pow2, Prints;
    assert Prints(names[0], Labels([128, 0, 0, 0], 8, 1)[0], 8, "in-addr.arpa", 1);
    FirstLabel(names[0]);
  }

  lemma HalfLabels()
    ensures var l := Labels([128, 0, 0, 0], 8, 1); |l| == 128 && l[0] == [128]
  {
    SmallPowers();
    hide Pow2;
    var b: seq<Byte> := [128, 0, 0, 0];
    assert Full(1, 8) == 0 && Rem(1, 8) == 1;
    assert Entry(b, 8, 0) == 128 && StartValue(b, 8, 1) == 128;
    assert Extended(b, 8, 1, 0) == [128];
  }

  lemma FirstLabel(line: Line)
    requires Prints(line, [128], 8, "in-addr.arpa", 1)
    ensures line == Nameless("128.", "in-addr.arpa")
  {
    SmallPowers();
    hide Pow2;
    assert Label(128, 8) == "128.";
  }
}
