/** `utc_offset` of add-days: a difference of pseudo-seconds with 31-day months, reduced modulo a day. */
module UtcOffset {
  /** `struct tm`: years since 1900, months from 0, days from 1. */
  datatype Tm = Tm(year: int, mon: int, mday: int, hour: int, min: int, sec: int)

  const DAY: int := 86400
  const INT_MAX: int := 0x7fff_ffff
  const INT_MIN: int := -0x8000_0000

  // ----- the source

  /** C's `%` truncates towards zero. */
  function CMod(a: int, b: int): int
    requires b > 0
  {
    if a >= 0 then a % b else -((-a) % b)
  }

  function PseudoSeconds(t: Tm): int {
    (t.year - 70) * 3600 * 24 * 31 * 12 + t.mon * 3600 * 24 * 31 + (t.mday - 1) * 3600 * 24
    + t.hour * 3600 + t.min * 60 + t.sec
  }

  function Offset(local: Tm, gmt: Tm): int {
    CMod(PseudoSeconds(gmt) - PseudoSeconds(local), DAY)
  }

  // ----- the Gregorian calendar

  predicate IsLeap(year: int) {
    var y := year + 1900;
    y % 4 == 0 && (y % 100 != 0 || y % 400 == 0)
  }

  function DaysInMonth(year: int, mon: int): (d: int)
    ensures 28 <= d <= 31
  {
    if mon == 1 then if IsLeap(year) then 29 else 28
    else if mon == 3 || mon == 5 || mon == 8 || mon == 10 then 30
    else 31
  }

  function DaysBeforeMonth(year: int, mon: nat): int {
    if mon == 0 then 0 else DaysBeforeMonth(year, mon - 1) + DaysInMonth(year, mon - 1)
  }

  /** The Gregorian calendar: month lengths, and 365 or 366 days to a year. */
  lemma Calendar(year: int)
    ensures DaysInMonth(year, 0) == 31 && DaysInMonth(year, 1) == (if IsLeap(year) then 29 else 28)
    ensures DaysInMonth(year, 2) == 31 && DaysInMonth(year, 3) == 30 && DaysInMonth(year, 4) == 31
    ensures DaysInMonth(year, 5) == 30 && DaysInMonth(year, 6) == 31 && DaysInMonth(year, 7) == 31
    ensures DaysInMonth(year, 8) == 30 && DaysInMonth(year, 9) == 31 && DaysInMonth(year, 10) == 30
    ensures DaysInMonth(year, 11) == 31
    ensures DaysBeforeMonth(year, 12) == if IsLeap(year) then 366 else 365
    ensures IsLeap(72) && IsLeap(100) && !IsLeap(0) && !IsLeap(70) && !IsLeap(101)
  {
    var leap := if IsLeap(year) then 1 else 0;
    assert DaysBeforeMonth(year, 1) == 31;
    assert DaysBeforeMonth(year, 2) == 59 + leap;
    assert DaysBeforeMonth(year, 3) == 90 + leap;
    assert DaysBeforeMonth(year, 4) == 120 + leap;
    assert DaysBeforeMonth(year, 5) == 151 + leap;
    assert DaysBeforeMonth(year, 6) == 181 + leap;
    assert DaysBeforeMonth(year, 7) == 212 + leap;
    assert DaysBeforeMonth(year, 8) == 243 + leap;
    assert DaysBeforeMonth(year, 9) == 273 + leap;
    assert DaysBeforeMonth(year, 10) == 304 + leap;
    assert DaysBeforeMonth(year, 11) == 334 + leap;
  }

  /** Days from 1970-01-01 to the first of January of the year, negative for years before. */
  function DaysBeforeYear(year: int): int
    decreases if year >= 70 then year - 70 else 70 - year
  {
    if year == 70 then 0
    else if year > 70 then DaysBeforeYear(year - 1) + DaysBeforeMonth(year - 1, 12)
    else DaysBeforeYear(year + 1) - DaysBeforeMonth(year, 12)
  }

  predicate Valid(t: Tm) {
    && 0 <= t.mon < 12 && 1 <= t.mday <= DaysInMonth(t.year, t.mon)
    && 0 <= t.hour < 24 && 0 <= t.min < 60 && 0 <= t.sec < 60
  }

  function DayNumber(t: Tm): int
    requires Valid(t)
  {
    DaysBeforeYear(t.year) + DaysBeforeMonth(t.year, t.mon) + t.mday - 1
  }

  function TimeOfDay(t: Tm): int {
    t.hour * 3600 + t.min * 60 + t.sec
  }

  function TrueSeconds(t: Tm): int
    requires Valid(t)
  {
    DayNumber(t) * DAY + TimeOfDay(t)
  }

  function PseudoDay(t: Tm): int {
    (t.year - 70) * 372 + t.mon * 31 + t.mday - 1
  }

  lemma {:induction false} MonthsAscend(year: int, m: nat, n: nat)
    requires m < n
    ensures DaysBeforeMonth(year, m) + DaysInMonth(year, m) <= DaysBeforeMonth(year, n)
    decreases n
  {
    if m < n - 1 {
      MonthsAscend(year, m, n - 1);
    }
  }

  lemma {:induction false} YearsAscend(y: int, z: int)
    requires y < z
    ensures DaysBeforeYear(y) + DaysBeforeMonth(y, 12) <= DaysBeforeYear(z)
    decreases z - y
  {
    NextYear(z - 1);
    if y < z - 1 {
      MonthsAscend(z - 1, 0, 12);
      hide DaysBeforeMonth, DaysBeforeYear;
      YearsAscend(y, z - 1);
    }
  }

  lemma NextYear(y: int)
    ensures DaysBeforeYear(y + 1) == DaysBeforeYear(y) + DaysBeforeMonth(y, 12)
  {
    hide DaysBeforeMonth;
  }

  predicate Earlier(a: Tm, b: Tm) {
    || a.year < b.year
    || (a.year == b.year && a.mon < b.mon)
    || (a.year == b.year && a.mon == b.mon && a.mday < b.mday)
  }

  /** Real and pseudo day numbers order dates alike. */
  lemma EarlierDates(a: Tm, b: Tm)
    requires Valid(a) && Valid(b) && Earlier(a, b)
    ensures DayNumber(a) < DayNumber(b) && PseudoDay(a) < PseudoDay(b)
  {
    hide DaysBeforeMonth, DaysBeforeYear;
    MonthsAscend(a.year, a.mon, 12);
    if a.year < b.year {
      YearsAscend(a.year, b.year);
      MonthsFromZero(b.year, b.mon);
    } else if a.mon < b.mon {
      MonthsAscend(a.year, a.mon, b.mon);
    }
  }

  lemma {:induction false} MonthsFromZero(year: int, n: nat)
    ensures DaysBeforeMonth(year, n) >= 0
    decreases n
  {
    if n > 0 {
      MonthsFromZero(year, n - 1);
    }
  }

  lemma PseudoSecondsSplit(t: Tm)
    ensures PseudoSeconds(t) == PseudoDay(t) * DAY + TimeOfDay(t)
  {
  }

  lemma SameDate(a: Tm, b: Tm)
    requires Valid(a) && Valid(b) && !Earlier(a, b) && !Earlier(b, a)
    ensures DayNumber(a) == DayNumber(b) && PseudoDay(a) == PseudoDay(b)
  {
    hide DaysBeforeMonth, DaysBeforeYear;
  }

  lemma CModOfSum(k: int, r: int)
    requires k >= 1 && -DAY < r < 0
    ensures CMod(k * DAY + r, DAY) == DAY + r
  {
    assert k * DAY + r == (k - 1) * DAY + (DAY + r);
    assert (k * DAY + r) % DAY == DAY + r;
  }

  lemma ForwardOffset(local: Tm, gmt: Tm)
    requires Valid(local) && Valid(gmt) && Earlier(local, gmt)
    requires TrueSeconds(gmt) - TrueSeconds(local) < DAY
    ensures PseudoSeconds(gmt) - PseudoSeconds(local) > 0
    ensures CMod(PseudoSeconds(gmt) - PseudoSeconds(local), DAY) == TrueSeconds(gmt) - TrueSeconds(local)
  {
    hide DayNumber, CMod;
    EarlierDates(local, gmt);
    PseudoSecondsSplit(local);
    PseudoSecondsSplit(gmt);
    var r := TimeOfDay(gmt) - TimeOfDay(local);
    assert DayNumber(gmt) == DayNumber(local) + 1;
    CModOfSum(PseudoDay(gmt) - PseudoDay(local), r);
  }

  lemma SameDayOffset(local: Tm, gmt: Tm)
    requires Valid(local) && Valid(gmt) && !Earlier(local, gmt) && !Earlier(gmt, local)
    requires -DAY < TrueSeconds(gmt) - TrueSeconds(local) < DAY
    ensures Offset(local, gmt) == TrueSeconds(gmt) - TrueSeconds(local)
  {
    hide DayNumber, PseudoSeconds, PseudoDay, TimeOfDay, Valid, Earlier;
    PseudoSecondsSplit(local);
    PseudoSecondsSplit(gmt);
    SameDate(local, gmt);
    assert PseudoSeconds(gmt) - PseudoSeconds(local) == TimeOfDay(gmt) - TimeOfDay(local);
  }

  // ----- the int arithmetic

  /** Everything C computes on the way to the sum, in order, all of it in int. */
  function Intermediates(t: Tm): seq<int> {
    var y, m, d := t.year - 70, t.mon, t.mday - 1;
    var a := y * 3600 * 24 * 31 * 12;
    var b := a + m * 3600 * 24 * 31;
    var c := b + d * 3600 * 24;
    [y * 3600, y * 3600 * 24, y * 3600 * 24 * 31, a,
     m * 3600, m * 3600 * 24, m * 3600 * 24 * 31, b,
     d * 3600, d * 3600 * 24, c,
     t.hour * 3600, c + t.hour * 3600,
     t.min * 60, c + t.hour * 3600 + t.min * 60, PseudoSeconds(t)]
  }

  /** From 1904 on, and up to the pseudo-date of INT_MAX seconds: 3:14:07 on 25 October 2036. */
  predicate InRange(t: Tm) {
    t.year >= 4 && (PseudoDay(t) < 24855 || (PseudoDay(t) == 24855 && TimeOfDay(t) <= 11647))
  }

  /** The products for the year come first and are the lowest; everything else is added to them. */
  lemma IntermediatesBetween(t: Tm, i: nat)
    requires Valid(t) && i < |Intermediates(t)|
    ensures var v, a := Intermediates(t)[i], Intermediates(t)[3];
            && (if a < 0 then a else 0) <= v
            && (v <= PseudoSeconds(t) || v <= 3600 * 24 * 31 * 12)
  {
  }

  /** Nothing overflows a 32-bit int exactly in that range. */
  lemma FitsIff(t: Tm)
    requires Valid(t)
    ensures (forall i :: 0 <= i < |Intermediates(t)| ==> INT_MIN <= Intermediates(t)[i] <= INT_MAX) <==> InRange(t)
  {
    PseudoSecondsSplit(t);
    assert PseudoSeconds(t) <= INT_MAX <==> PseudoDay(t) < 24855 || (PseudoDay(t) == 24855 && TimeOfDay(t) <= 11647);
    assert Intermediates(t)[15] == PseudoSeconds(t);
    assert Intermediates(t)[3] == (t.year - 70) * 32140800;
    assert |Intermediates(t)| == 16;
    hide Intermediates, PseudoSeconds;
    forall i | 0 <= i < |Intermediates(t)|
      ensures InRange(t) ==> INT_MIN <= Intermediates(t)[i] <= INT_MAX
    {
      IntermediatesBetween(t, i);
    }
  }

  /** "That's a lie, but works!": for one instant read in two zones less than a day apart, across any
      day, month, year or leap-day boundary, the trick gives the true signed difference. */
  lemma OffsetIsTrue(local: Tm, gmt: Tm)
    requires Valid(local) && Valid(gmt) && InRange(local) && InRange(gmt)
    requires -DAY < TrueSeconds(gmt) - TrueSeconds(local) < DAY
    ensures Offset(local, gmt) == TrueSeconds(gmt) - TrueSeconds(local)
  {
    hide TrueSeconds, PseudoSeconds, Earlier, Valid;
    if Earlier(local, gmt) {
      ForwardOffset(local, gmt);
    } else if Earlier(gmt, local) {
      ForwardOffset(gmt, local);
    } else {
      SameDayOffset(local, gmt);
    }
  }

  /** The last second that fits, and the first that does not; the first second that fits, and the last
      before it. */
  lemma LastSecond()
    ensures PseudoSeconds(Tm(136, 9, 25, 3, 14, 7)) == INT_MAX
    ensures InRange(Tm(136, 9, 25, 3, 14, 7)) && !InRange(Tm(136, 9, 25, 3, 14, 8))
    ensures InRange(Tm(4, 0, 1, 0, 0, 0)) && !InRange(Tm(3, 11, 31, 23, 59, 59))
  {
  }
}
