/**
  Calendar days as the repository's pandas Timestamps carry them: every timestamp in the
  pipeline is a midnight (sale dates are parsed from day strings, listing dates are whole
  days earlier), so a timestamp is a proleptic-Gregorian civil date. Order and differences
  go through DayNumber, the count of days since 0001-01-01. The year is unbounded: pandas'
  limit of 1677-09-21 .. 2262-04-11, and the OutOfBoundsDatetime it raises, are not modelled.
*/
module Calendar {

  datatype CivilDate = CivilDate(year: int, month: int, day: int)

  predicate IsLeapYear(y: int) {
    y % 4 == 0 && (y % 100 != 0 || y % 400 == 0)
  }

  function DaysInMonth(y: int, m: int): (n: int)
    requires 1 <= m <= 12
    ensures 28 <= n <= 31
    ensures n == 29 <==> m == 2 && IsLeapYear(y)
  {
    if m == 2 then (if IsLeapYear(y) then 29 else 28)
    else if m == 4 || m == 6 || m == 9 || m == 11 then 30
    else 31
  }

  predicate IsValid(d: CivilDate) {
    1 <= d.month <= 12 && 1 <= d.day <= DaysInMonth(d.year, d.month)
  }

  /** A calendar day that exists. */
  type Date = d: CivilDate | IsValid(d) witness CivilDate(1970, 1, 1)

  function YearLength(y: int): int {
    if IsLeapYear(y) then 366 else 365
  }

  /** Days of year y that lie before the first of month m. */
  function DaysBeforeMonth(y: int, m: int): int
    requires 1 <= m <= 12
  {
    var common :=
      if m == 1 then 0 else if m == 2 then 31 else if m == 3 then 59
      else if m == 4 then 90 else if m == 5 then 120 else if m == 6 then 151
      else if m == 7 then 181 else if m == 8 then 212 else if m == 9 then 243
      else if m == 10 then 273 else if m == 11 then 304 else 334;
    if m > 2 && IsLeapYear(y) then common + 1 else common
  }

  /** Days from 0001-01-01 to the first day of year y. */
  function DaysBeforeYear(y: int): int {
    var p := y - 1;
    365 * p + p / 4 - p / 100 + p / 400
  }

  function DayNumber(d: Date): int {
    DaysBeforeYear(d.year) + DaysBeforeMonth(d.year, d.month) + d.day - 1
  }

  /** The month count year * 12 + month - 1, which calendar-month offsets shift. */
  function MonthIndex(d: Date): int {
    d.year * 12 + d.month - 1
  }

  function Min(a: int, b: int): int {
    if a <= b then a else b
  }

  // ---------------------------------------------------------------- offsets

  /**
    `ts + DateOffset(months=n)`: shift the month, keep the day, clamp it to the length of
    the target month (Jan 31 + 1 month is Feb 28 or 29).
  */
  function AddMonths(d: Date, n: int): (r: Date)
    ensures MonthIndex(r) == MonthIndex(d) + n
    ensures r.day == Min(d.day, DaysInMonth(r.year, r.month))
  {
    var idx := MonthIndex(d) + n;
    var y, m := idx / 12, idx % 12 + 1;
    CivilDate(y, m, Min(d.day, DaysInMonth(y, m)))
  }

  /** `ts - DateOffset(years=k)` for k = -years: same month and day, clamped (Feb 29 -> Feb 28). */
  function AddYears(d: Date, k: int): Date {
    CivilDate(d.year + k, d.month, Min(d.day, DaysInMonth(d.year + k, d.month)))
  }

  /** Shifting by k years is shifting by 12 * k calendar months, with the same day clamping. */
  lemma AddYearsIsMonths(d: Date, k: int)
    ensures AddYears(d, k) == AddMonths(d, 12 * k)
  {
    var r, s := AddYears(d, k), AddMonths(d, 12 * k);
    assert MonthIndex(s) == MonthIndex(r);
    assert s.year * 12 + s.month == r.year * 12 + r.month;
    assert s.year == r.year && s.month == r.month;
  }

  /** The calendar day before d. */
  function PrevDay(d: Date): (r: Date)
    ensures DayNumber(r) == DayNumber(d) - 1
  {
    if d.day > 1 then CivilDate(d.year, d.month, d.day - 1)
    else if d.month > 1 then CivilDate(d.year, d.month - 1, DaysInMonth(d.year, d.month - 1))
    else
      YearStep(d.year - 1);
      CivilDate(d.year - 1, 12, 31)
  }

  /** `ts - DateOffset(k)`: k whole days earlier. */
  function SubDays(d: Date, k: nat): (r: Date)
    ensures DayNumber(r) == DayNumber(d) - k
  {
    if k == 0 then d else PrevDay(SubDays(d, k - 1))
  }

  /** `ts.to_period("M").to_timestamp()`: the first day of the month of ts. */
  function MonthStart(d: Date): (r: Date)
    ensures MonthIndex(r) == MonthIndex(d) && r.day == 1
    ensures DayNumber(r) == DayNumber(d) - (d.day - 1)
  {
    CivilDate(d.year, d.month, 1)
  }

  // ---------------------------------------------------------------- order

  predicate LexBefore(a: Date, b: Date) {
    a.year < b.year
    || (a.year == b.year && a.month < b.month)
    || (a.year == b.year && a.month == b.month && a.day < b.day)
  }

  lemma YearStep(y: int)
    ensures DaysBeforeYear(y + 1) == DaysBeforeYear(y) + YearLength(y)
  {
    var p := y - 1;
    // the floor quotients of p and p + 1 differ exactly when p + 1 is a multiple
    FloorStep4(p);
    FloorStep100(p);
    FloorStep400(p);
    MultipleChain(y);
    assert y == p + 1;
    var step := (if y % 4 == 0 then 1 else 0) - (if y % 100 == 0 then 1 else 0) + (if y % 400 == 0 then 1 else 0);
    assert DaysBeforeYear(y + 1) == DaysBeforeYear(y) + 365 + step;
    assert step == (if IsLeapYear(y) then 1 else 0);
  }

  /** A multiple of 400 is a multiple of 100, and a multiple of 100 is a multiple of 4. */
  lemma MultipleChain(y: int)
    ensures y % 400 == 0 ==> y % 100 == 0
    ensures y % 100 == 0 ==> y % 4 == 0
  {
    var q400, q100, q4 := y / 400, y / 100, y / 4;
    var r400, r100, r4 := y % 400, y % 100, y % 4;
    assert y == 400 * q400 + r400 && 0 <= r400 < 400;
    assert y == 100 * q100 + r100 && 0 <= r100 < 100;
    assert y == 4 * q4 + r4 && 0 <= r4 < 4;
    if r400 == 0 {
      assert r100 == 100 * (4 * q400 - q100);
    }
    if r100 == 0 {
      assert r4 == 4 * (25 * q100 - q4);
    }
  }

  lemma FloorStep4(p: int)
    ensures (p + 1) / 4 == p / 4 + (if (p + 1) % 4 == 0 then 1 else 0)
  {
  }

  lemma FloorStep100(p: int)
    ensures (p + 1) / 100 == p / 100 + (if (p + 1) % 100 == 0 then 1 else 0)
  {
  }

  lemma FloorStep400(p: int)
    ensures (p + 1) / 400 == p / 400 + (if (p + 1) % 400 == 0 then 1 else 0)
  {
  }

  lemma {:induction false} DaysBeforeYearMonotone(a: int, b: int)
    requires a <= b
    ensures DaysBeforeYear(a) + 365 * (b - a) <= DaysBeforeYear(b)
    decreases b - a
  {
    if a < b {
      YearStep(a);
      DaysBeforeYearMonotone(a + 1, b);
    }
  }

  lemma DayWithinYear(d: Date)
    ensures DaysBeforeYear(d.year) <= DayNumber(d) < DaysBeforeYear(d.year + 1)
  {
    YearStep(d.year);
  }

  /** DayNumber is strictly increasing in the calendar (lexicographic) order. */
  lemma DayNumberOrder(a: Date, b: Date)
    requires LexBefore(a, b)
    ensures DayNumber(a) < DayNumber(b)
  {
    if a.year < b.year {
      DayWithinYear(a);
      DayWithinYear(b);
      DaysBeforeYearMonotone(a.year + 1, b.year);
    } else if a.month < b.month {
      assert DaysBeforeMonth(a.year, a.month) + DaysInMonth(a.year, a.month) <= DaysBeforeMonth(b.year, b.month);
    }
  }

  /** Two days with the same day number are the same day. */
  lemma DayNumberInjective(a: Date, b: Date)
    requires DayNumber(a) == DayNumber(b)
    ensures a == b
  {
    if LexBefore(a, b) {
      DayNumberOrder(a, b);
    } else if LexBefore(b, a) {
      DayNumberOrder(b, a);
    }
  }

  lemma MonthIndexOrder(a: Date, b: Date)
    requires MonthIndex(a) < MonthIndex(b)
    ensures DayNumber(a) < DayNumber(b)
  {
    assert LexBefore(a, b);
    DayNumberOrder(a, b);
  }

  lemma AddMonthsZero(d: Date)
    ensures AddMonths(d, 0) == d
  {
    var r := AddMonths(d, 0);
    assert r.year * 12 + r.month == d.year * 12 + d.month;
    assert r.year == d.year && r.month == d.month;
  }

  /** A later calendar-month offset always lands on a later day. */
  lemma AddMonthsIncreasing(d: Date, n1: int, n2: int)
    requires n1 < n2
    ensures DayNumber(AddMonths(d, n1)) < DayNumber(AddMonths(d, n2))
  {
    MonthIndexOrder(AddMonths(d, n1), AddMonths(d, n2));
  }

  lemma AddMonthsMonotone(d: Date, n1: int, n2: int)
    requires n1 <= n2
    ensures DayNumber(AddMonths(d, n1)) <= DayNumber(AddMonths(d, n2))
  {
    if n1 < n2 {
      AddMonthsIncreasing(d, n1, n2);
    }
  }

  /** Two consecutive years are never both leap years. */
  lemma NoConsecutiveLeapYears(y: int)
    ensures !(IsLeapYear(y) && IsLeapYear(y - 1))
  {
    if y % 4 == 0 {
      assert (y - 1) % 4 == 3;
    }
  }

  /** One calendar year back is 365 or 366 days back. */
  lemma AddYearsBackDays(d: Date)
    ensures 365 <= DayNumber(d) - DayNumber(AddYears(d, -1)) <= 366
  {
    var y, r := d.year, AddYears(d, -1);
    YearStep(y - 1);
    NoConsecutiveLeapYears(y);
    assert DaysBeforeYear(y) - DaysBeforeYear(y - 1) == YearLength(y - 1);
    var shift := DaysBeforeMonth(y, d.month) - DaysBeforeMonth(y - 1, d.month);
    assert shift == (if d.month > 2 then (if IsLeapYear(y) then 1 else 0) - (if IsLeapYear(y - 1) then 1 else 0) else 0);
    assert d.day - r.day == (if d.month == 2 && d.day == 29 then 1 else 0);
  }
}
