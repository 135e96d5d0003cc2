/** The loops of `convertCIDRToDNSRev` and what the printed names mean. */
module DnsNames {
  import opened Bytes
  import opened BitNat
  import opened NetCalc
  import opened DnsRev

  function EntrySize(family: Family): (bpe: nat)
    requires !family.Invalid?
    ensures IsEntrySize(bpe)
  {
    if family.Inet? then 8 else 4
  }

  function Suffix(family: Family): string {
    if family.Inet? then "in-addr.arpa" else "ip6.arpa"
  }

  // ----- every label list can be printed

  lemma RenderCons(v: nat, l: seq<nat>, bpe: nat)
    requires IsEntrySize(bpe) && v < Pow2(bpe) && Renderable(l, bpe)
    ensures Renderable([v] + l, bpe) && Render([v] + l, bpe) == Label(v, bpe) + Render(l, bpe)
  {
    hide Label, Pow2;
    assert ([v] + l)[1..] == l;
  }

  // ----- the first loop: the complete entries

  /** A C string: `result` is a null pointer until the first entry is prepended to it. */
  datatype CString = Null | Text(s: string)

  /** `prependString`. */
  function Prepended(result: CString, prefix: string): CString {
    Text(prefix + if result.Null? then "" else result.s)
  }

  /** What `result` holds after the first k entries. */
  ghost predicate HoldsEntries(result: CString, b: seq<Byte>, bpe: nat, k: nat)
    requires IsEntrySize(bpe) && k <= Entries(b, bpe)
  {
    && Renderable(RevEntries(b, bpe, k), bpe)
    && result == if k == 0 then Null else Text(Render(RevEntries(b, bpe, k), bpe))
  }

  lemma HoldsNothing(b: seq<Byte>, bpe: nat)
    requires IsEntrySize(bpe)
    ensures HoldsEntries(Null, b, bpe, 0)
  {
  }

  lemma HoldsOneMore(result: CString, b: seq<Byte>, bpe: nat, k: nat)
    requires IsEntrySize(bpe) && k < Entries(b, bpe) && HoldsEntries(result, b, bpe, k)
    ensures HoldsEntries(Prepended(result, Label(Entry(b, bpe, k), bpe)), b, bpe, k + 1)
  {
    hide Label, Render, Entry;
    RenderNothing(bpe);
    RenderCons(Entry(b, bpe, k), RevEntries(b, bpe, k), bpe);
  }

  method CompleteEntries(b: seq<Byte>, bpe: nat, n: nat)
    returns (result: CString, p: nat, mask: nat, shiftCount: nat, bits: nat)
    requires IsEntrySize(bpe) && n <= 8 * |b|
    ensures Full(n, bpe) <= Entries(b, bpe) && bits == Rem(n, bpe)
    ensures p == ByteAt(bpe, Full(n, bpe)) && mask == MaskAt(bpe, Full(n, bpe))
    ensures shiftCount == ShiftAt(bpe, Full(n, bpe))
    ensures HoldsEntries(result, b, bpe, Full(n, bpe))
  {
    hide And, Label, Render, Entry, HoldsEntries;
    SmallPowers();
    var initialMask := if bpe == 8 then 0xff else 0xf0;
    var initialShiftCount := if bpe == 8 then 0 else 4;
    result, p, mask, shiftCount, bits := Null, 0, initialMask, initialShiftCount, n;
    ghost var i := 0;
    HoldsNothing(b, bpe);
    while bits >= bpe
      invariant 0 <= i <= Entries(b, bpe) && n == bpe * i + bits
      invariant p == ByteAt(bpe, i) && mask == MaskAt(bpe, i) && shiftCount == ShiftAt(bpe, i)
      invariant HoldsEntries(result, b, bpe, i)
      decreases bits
    {
      EntryByMask(b, bpe, i);
      var value := And(b[p], mask) / Pow2(shiftCount);
      HoldsOneMore(result, b, bpe, i);
      result := Prepended(result, Label(value, bpe));
      mask := mask / Pow2(bpe);
      bits := bits - bpe;
      if mask == 0 {
        mask := initialMask;
        shiftCount := initialShiftCount;
        p := p + 1;
      } else {
        shiftCount := shiftCount - bpe;
      }
      i := i + 1;
    }
    assert i == Full(n, bpe);
  }

  lemma RenderNothing(bpe: nat)
    requires IsEntrySize(bpe)
    ensures Renderable([], bpe) && Render([], bpe) == ""
  {
  }

  lemma MulDiv(a: nat, p: nat)
    requires p > 0
    ensures a * p / p == a
  {
    var e: int, size: int := a * p / p - a, p;
    assert a * p == a * p / p * p + a * p % p;
    ModUnique(a * p, p, a, 0);
    assert e * size == 0;
  }

  // ----- the second loop: the partial entry

  method PartialEntry(b: seq<Byte>, bpe: nat, ghost i: nat, bits: nat, p: nat, mask: nat, shiftCount: nat)
    returns (startValue: nat, field: nat)
    requires IsEntrySize(bpe) && i < Entries(b, bpe) && 0 < bits < bpe
    requires p == ByteAt(bpe, i) && mask == MaskAt(bpe, i) && shiftCount == ShiftAt(bpe, i)
    ensures Pow2(bpe - bits) <= Pow2(bpe) && field == Pow2(bpe) - Pow2(bpe - bits)
    ensures var e := Entry(b, bpe, i); e % Pow2(bpe - bits) <= e && startValue == e - e % Pow2(bpe - bits)
  {
    hide And, AndNot, Entry;
    SmallPowers();
    hide Pow2;
    var s := shiftCount;
    var m, bit, done := mask, Pow2(s), 0;
    while bits + done < bpe
      invariant 0 <= done <= bpe - bits && Pow2(done) <= Pow2(bpe)
      invariant bit == Pow2(s + done) && m == (Pow2(bpe) - Pow2(done)) * Pow2(s)
    {
      ClearLowest(bpe, i, done);
      Double(s + done);
      m := AndNot(m, bit);
      bit := 2 * bit;
      done := done + 1;
    }
    FieldOfByte(b, bpe, i, bpe - bits);
    startValue := And(b[p], m) / Pow2(s);
    MulDiv(Pow2(bpe) - Pow2(bpe - bits), Pow2(s));
    field := m / Pow2(s);
    ModSmaller(Entry(b, bpe, i), Pow2(bpe - bits));
  }

  // ----- the third loop: one name per value of the partial entry

  /** A printed line: a name, or a label in front of a null string. */
  datatype Line = Name(text: string) | Nameless(value: string, suffix: string)

  function Printed(value: string, result: CString, suffix: string): Line {
    if result.Null? then Nameless(value, suffix) else Name(value + result.s + suffix)
  }

  ghost predicate IsLine(line: Line, value: nat, result: CString, bpe: nat, suffix: string)
    requires IsEntrySize(bpe)
  {
    value < Pow2(bpe) && line == Printed(Label(value, bpe), result, suffix)
  }

  method Enumerate(ghost e: nat, ghost k: nat, startValue: nat, field: nat, result: CString, bpe: nat, suffix: string)
    returns (names: seq<Line>)
    requires IsEntrySize(bpe) && e < Pow2(bpe) && k < bpe && e % Pow2(k) <= e && startValue == e - e % Pow2(k)
    requires Pow2(k) <= Pow2(bpe) && field == Pow2(bpe) - Pow2(k)
    ensures |names| == Pow2(k)
    ensures forall j :: 0 <= j < |names| ==> IsLine(names[j], startValue + j, result, bpe, suffix)
  {
    hide And, Label, Pow2, Printed;
    names := [];
    var value := startValue;
    StaysInField(e, bpe, k, 0);
    while And(value, field) == startValue
      invariant |names| <= Pow2(k) && value == startValue + |names|
      invariant forall j :: 0 <= j < |names| ==> IsLine(names[j], startValue + j, result, bpe, suffix)
      decreases Pow2(k) - |names|
    {
      StaysInField(e, bpe, k, |names|);
      names := names + [Printed(Label(value, bpe), result, suffix)];
      value := value + 1;
    }
    StaysInField(e, bpe, k, |names|);
  }

  // ----- the whole

  ghost predicate IsName(name: string, l: seq<nat>, bpe: nat, suffix: string)
    requires IsEntrySize(bpe)
  {
    Renderable(l, bpe) && name == Render(l, bpe) + suffix
  }

  /** What is printed for the label list l of a prefix of n bits: without a complete entry there is
      no text to put behind the label. */
  ghost predicate Prints(line: Line, l: seq<nat>, bpe: nat, suffix: string, n: nat)
    requires IsEntrySize(bpe)
  {
    if n >= bpe then line.Name? && IsName(line.text, l, bpe, suffix)
    else |l| == 1 && l[0] < Pow2(bpe) && line == Nameless(Label(l[0], bpe), suffix)
  }

  /** The output for the first n bits of b: one line for each label list. */
  ghost predicate IsOutput(names: seq<Line>, family: Family, b: seq<Byte>, n: nat)
    requires !family.Invalid? && n <= 8 * |b|
  {
    var bpe := EntrySize(family);
    var l := Labels(b, bpe, n);
    |names| == |l| && forall j :: 0 <= j < |l| ==> Prints(names[j], l[j], bpe, Suffix(family), n)
  }

  /** `convertCIDRToDNSRev`. */
  method ReverseNames(family: Family, b: seq<Byte>, n: nat) returns (names: seq<Line>)
    requires (family.Inet? && |b| == 4) || (family.Inet6? && |b| == 16)
    requires n <= 8 * |b|
    ensures IsOutput(names, family, b, n)
  {
    hide And, Render, Label, Entry, RevEntries, Pow2, Renderable, HoldsEntries, Extended, Prints;
    var bpe := EntrySize(family);
    var result, p, mask, shiftCount, bits := CompleteEntries(b, bpe, n);
    ghost var full := Full(n, bpe);
    if bits > 0 {
      var startValue, field := PartialEntry(b, bpe, full, bits, p, mask, shiftCount);
      names := Enumerate(Entry(b, bpe, full), bpe - bits, startValue, field, result, bpe, Suffix(family));
      forall j | 0 <= j < |names|
        ensures Prints(names[j], Extended(b, bpe, n, j), bpe, Suffix(family), n)
      {
        assert IsLine(names[j], startValue + j, result, bpe, Suffix(family));
        PrintsExtended(result, b, bpe, n, j, Suffix(family));
      }
    } else {
      PrintsWhole(result, b, bpe, n, Suffix(family));
      names := if result.Text? then [Name(result.s + Suffix(family))] else [];
    }
  }

  lemma PrintsExtended(result: CString, b: seq<Byte>, bpe: nat, n: nat, j: nat, suffix: string)
    requires IsEntrySize(bpe) && n <= 8 * |b| && Full(n, bpe) < Entries(b, bpe)
    requires HoldsEntries(result, b, bpe, Full(n, bpe)) && StartValue(b, bpe, n) + j < Pow2(bpe)
    ensures var line := Printed(Label(StartValue(b, bpe, n) + j, bpe), result, suffix);
            Prints(line, Extended(b, bpe, n, j), bpe, suffix, n)
  {
    hide Label, Render, Entry, StartValue, Pow2;
    RenderCons(StartValue(b, bpe, n) + j, RevEntries(b, bpe, Full(n, bpe)), bpe);
  }

  lemma PrintsWhole(result: CString, b: seq<Byte>, bpe: nat, n: nat, suffix: string)
    requires IsEntrySize(bpe) && n <= 8 * |b| && Rem(n, bpe) == 0
    requires HoldsEntries(result, b, bpe, Full(n, bpe))
    ensures result.Null? <==> n == 0
    ensures n > 0 ==> Prints(Name(result.s + suffix), RevEntries(b, bpe, Full(n, bpe)), bpe, suffix, n)
  {
    hide Label, Render, Entry, RevEntries, Pow2;
  }
}
