/** Reading a reverse DNS name back: digits by their character codes, labels up to their dots. */
module DnsRead {
  import opened Bytes
  import opened BitNat
  import opened DnsRev

  function ReadDigit(c: char): int {
    if '0' <= c <= '9' then c as int - '0' as int
    else if 'a' <= c <= 'f' then c as int - 'a' as int + 10
    else -1
  }

  function ReadNumber(s: string, base: int): int {
    if s == "" then 0 else base * ReadNumber(s[..|s| - 1], base) + ReadDigit(s[|s| - 1])
  }

  /** Where the first dot is, or the end. */
  function DotAt(s: string): (k: nat)
    ensures k <= |s|
  {
    if s == "" || s[0] == '.' then 0 else 1 + DotAt(s[1..])
  }

  function ReadLabels(s: string, base: int): seq<int>
    decreases |s|
  {
    if s == "" then []
    else
      var k := DotAt(s);
      [ReadNumber(s[..k], base)] + ReadLabels(if k < |s| then s[k + 1..] else "", base)
  }

  /** Decimal bytes in IPv4 names, hexadecimal nibbles in IPv6 names. */
  function Base(bpe: nat): int {
    if bpe == 8 then 10 else 16
  }

  // ----- a label is read as the number it was printed for

  lemma DigitReads(v: nat)
    requires v < 16
    ensures ReadDigit(Digit(v)) == v && Digit(v) != '.'
  {
  }

  lemma ReadOne(a: char, base: int)
    ensures ReadNumber([a], base) == ReadDigit(a)
  {
    assert [a][..0] == "";
  }

  lemma ReadTwo(a: char, b: char, base: int)
    ensures ReadNumber([a, b], base) == base * ReadDigit(a) + ReadDigit(b)
  {
    hide ReadDigit;
    assert [a, b][..1] == [a];
    ReadOne(a, base);
  }

  lemma ReadThree(a: char, b: char, c: char)
    ensures ReadNumber([a, b, c], 10) == 100 * ReadDigit(a) + 10 * ReadDigit(b) + ReadDigit(c)
  {
    hide ReadDigit;
    assert [a, b, c][..2] == [a, b];
    ReadTwo(a, b, 10);
  }

  /** The digits of a label, without its dot. */
  function Digits(v: nat, bpe: nat): string
    requires IsEntrySize(bpe) && v < Pow2(bpe)
  {
    SmallPowers();
    if bpe == 4 || v < 10 then [Digit(v)]
    else if v < 100 then [Digit(v / 10), Digit(v % 10)]
    else [Digit(v / 100), Digit(v / 10 % 10), Digit(v % 10)]
  }

  lemma LabelDigits(v: nat, bpe: nat)
    requires IsEntrySize(bpe) && v < Pow2(bpe)
    ensures Label(v, bpe) == Digits(v, bpe) + "."
    ensures '.' !in Digits(v, bpe)
  {
    SmallPowers();
    hide Pow2, Digit;
    if bpe == 4 || v < 10 {
      DigitReads(v);
    } else {
      DigitReads(v / 10 % 10);
      DigitReads(v % 10);
      if v < 100 {
        DigitReads(v / 10);
      } else {
        DigitReads(v / 100);
      }
    }
  }

  lemma DigitsRead(v: nat, bpe: nat)
    requires IsEntrySize(bpe) && v < Pow2(bpe)
    ensures ReadNumber(Digits(v, bpe), Base(bpe)) == v
  {
    SmallPowers();
    hide Pow2, Digit, ReadDigit, ReadNumber;
    if bpe == 4 || v < 10 {
      DigitReads(v);
      ReadOne(Digit(v), Base(bpe));
    } else if v < 100 {
      DigitReads(v / 10);
      DigitReads(v % 10);
      ReadTwo(Digit(v / 10), Digit(v % 10), 10);
    } else {
      DigitReads(v / 100);
      DigitReads(v / 10 % 10);
      DigitReads(v % 10);
      ReadThree(Digit(v / 100), Digit(v / 10 % 10), Digit(v % 10));
      assert v / 10 == 10 * (v / 100) + v / 10 % 10;
    }
  }

  lemma {:induction false} DotBehind(d: string, rest: string)
    requires '.' !in d
    ensures DotAt(d + "." + rest) == |d|
    decreases |d|
  {
    var s := d + "." + rest;
    if d != "" {
      assert s[0] == d[0] && s[1..] == d[1..] + "." + rest;
      DotBehind(d[1..], rest);
    }
  }

  lemma LabelRead(v: nat, bpe: nat, rest: string)
    requires IsEntrySize(bpe) && v < Pow2(bpe)
    ensures ReadLabels(Label(v, bpe) + rest, Base(bpe)) == [v] + ReadLabels(rest, Base(bpe))
  {
    hide Label, Digits, Pow2, ReadNumber, DotAt;
    LabelDigits(v, bpe);
    DigitsRead(v, bpe);
    var d := Digits(v, bpe);
    var s := Label(v, bpe) + rest;
    assert s == d + "." + rest && s[..|d|] == d && s[|d| + 1..] == rest;
    DotBehind(d, rest);
  }

  /** A rendered list of labels is read back as it was. */
  lemma {:induction false} RenderRead(l: seq<nat>, bpe: nat)
    requires IsEntrySize(bpe) && Renderable(l, bpe)
    ensures ReadLabels(Render(l, bpe), Base(bpe)) == l
    decreases |l|
  {
    hide Label, Pow2, DotAt, ReadNumber;
    if l != [] {
      RenderRead(l[1..], bpe);
      LabelRead(l[0], bpe, Render(l[1..], bpe));
      assert l == [l[0]] + l[1..];
    }
  }
}
