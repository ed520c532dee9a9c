/** Dates of the proleptic Gregorian calendar and their day numbers. */
module CivilCalendar {
  datatype CivilDate = CivilDate(year: int, month: int, day: int)

  const MAX_YEAR := 9999

  predicate IsLeap(y: int) {
    y % 4 == 0 && (y % 100 != 0 || y % 400 == 0)
  }

  function DaysInMonth(y: int, m: int): (n: int)
    requires 1 <= m <= 12
    ensures 28 <= n <= 31
  {
    if m == 2 then (if IsLeap(y) then 29 else 28)
    else if m == 4 || m == 6 || m == 9 || m == 11 then 30
    else 31
  }

  predicate IsDate(y: int, m: int, d: int) {
    1 <= y <= MAX_YEAR && 1 <= m <= 12 && 1 <= d <= DaysInMonth(y, m)
  }

  predicate IsCivilDate(date: CivilDate) {
    IsDate(date.year, date.month, date.day)
  }

  function DaysBeforeYear(y: int): int {
    (y - 1) * 365 + (y - 1) / 4 - (y - 1) / 100 + (y - 1) / 400
  }

  function DaysBeforeMonth(y: int, m: int): int
    requires 1 <= m <= 13
  {
    if m == 1 then 0 else DaysBeforeMonth(y, m - 1) + DaysInMonth(y, m - 1)
  }

  function DaysInYear(y: int): int {
    if IsLeap(y) then 366 else 365
  }

  /** The number of a date, counting 1 January of year 1 as day 1. */
  function Ordinal(date: CivilDate): int
    requires IsCivilDate(date)
  {
    DaysBeforeYear(date.year) + DaysBeforeMonth(date.year, date.month) + date.day
  }

  lemma FourthYear(y: int)
    ensures y / 4 == (y - 1) / 4 + if y % 4 == 0 then 1 else 0
  {}

  lemma HundredthYear(y: int)
    ensures y / 100 == (y - 1) / 100 + if y % 100 == 0 then 1 else 0
    ensures y % 100 == 0 ==> y % 4 == 0
  {}

  lemma FourHundredthYear(y: int)
    ensures y / 400 == (y - 1) / 400 + if y % 400 == 0 then 1 else 0
    ensures y % 400 == 0 ==> y % 100 == 0
  {}

  lemma YearLength(y: int)
    ensures DaysBeforeYear(y + 1) == DaysBeforeYear(y) + DaysInYear(y)
  {
    FourthYear(y);
    HundredthYear(y);
    FourHundredthYear(y);
  }

  lemma MonthsFillYear(y: int)
    ensures DaysBeforeMonth(y, 13) == DaysInYear(y)
  {
    assert DaysBeforeMonth(y, 2) == 31;
    assert DaysBeforeMonth(y, 3) == 31 + DaysInMonth(y, 2);
    assert DaysBeforeMonth(y, 5) == DaysBeforeMonth(y, 3) + 61;
    assert DaysBeforeMonth(y, 7) == DaysBeforeMonth(y, 5) + 61;
    assert DaysBeforeMonth(y, 9) == DaysBeforeMonth(y, 7) + 62;
    assert DaysBeforeMonth(y, 11) == DaysBeforeMonth(y, 9) + 61;
  }

  const MAX_ORDINAL := 3_652_059

  lemma LastDay()
    ensures DaysBeforeYear(MAX_YEAR + 1) == MAX_ORDINAL && DaysBeforeYear(1) == 0
  {}

  /** The year of day `n`, searched from `y` on. */
  function YearOf(n: int, y: int): (r: int)
    requires 1 <= y <= MAX_YEAR && DaysBeforeYear(y) < n <= MAX_ORDINAL
    ensures y <= r <= MAX_YEAR && DaysBeforeYear(r) < n <= DaysBeforeYear(r + 1)
    decreases MAX_YEAR - y
  {
    LastDay();
    if n <= DaysBeforeYear(y + 1) then y else YearOf(n, y + 1)
  }

  /** The month of day `k` of a year, searched from `m` on. */
  function MonthOf(y: int, k: int, m: int): (r: int)
    requires 1 <= m <= 12 && DaysBeforeMonth(y, m) < k <= DaysInYear(y)
    ensures m <= r <= 12 && DaysBeforeMonth(y, r) < k <= DaysBeforeMonth(y, r + 1)
    decreases 12 - m
  {
    MonthsFillYear(y);
    if k <= DaysBeforeMonth(y, m + 1) then m else MonthOf(y, k, m + 1)
  }

  /** The date with a given number. */
  function FromOrdinal(n: int): (date: CivilDate)
    requires 1 <= n <= MAX_ORDINAL
    ensures IsCivilDate(date) && Ordinal(date) == n
  {
    var y := YearOf(n, 1);
    YearLength(y);
    var k := n - DaysBeforeYear(y);
    var m := MonthOf(y, k, 1);
    CivilDate(y, m, k - DaysBeforeMonth(y, m))
  }

  lemma {:induction false} YearsIncrease(a: int, b: int)
    requires a <= b
    ensures DaysBeforeYear(a) + (b - a) * 365 <= DaysBeforeYear(b)
    decreases b - a
  {
    if a < b {
      YearsIncrease(a, b - 1);
      YearLength(b - 1);
    }
  }

  lemma {:induction false} MonthsIncrease(y: int, a: int, b: int)
    requires 1 <= a <= b <= 13
    ensures DaysBeforeMonth(y, a) + (b - a) * 28 <= DaysBeforeMonth(y, b)
    decreases b - a
  {
    if a < b {
      MonthsIncrease(y, a, b - 1);
    }
  }

  lemma WithinYear(date: CivilDate)
    requires IsCivilDate(date)
    ensures DaysBeforeYear(date.year) < Ordinal(date) <= DaysBeforeYear(date.year + 1)
  {
    MonthsIncrease(date.year, 1, date.month);
    MonthsIncrease(date.year, date.month + 1, 13);
    MonthsFillYear(date.year);
    YearLength(date.year);
  }

  /** Different dates have different numbers. */
  lemma OrdinalInjective(a: CivilDate, b: CivilDate)
    requires IsCivilDate(a) && IsCivilDate(b) && Ordinal(a) == Ordinal(b)
    ensures a == b
  {
    WithinYear(a);
    WithinYear(b);
    if a.year < b.year {
      YearsIncrease(a.year + 1, b.year);
    } else if b.year < a.year {
      YearsIncrease(b.year + 1, a.year);
    } else if a.month < b.month {
      MonthsIncrease(a.year, a.month + 1, b.month);
    } else if b.month < a.month {
      MonthsIncrease(a.year, b.month + 1, a.month);
    }
  }

  lemma OrdinalInRange(date: CivilDate)
    requires IsCivilDate(date)
    ensures 1 <= Ordinal(date) <= MAX_ORDINAL
  {
    WithinYear(date);
    YearsIncrease(1, date.year);
    YearsIncrease(date.year + 1, MAX_YEAR + 1);
    LastDay();
  }

  /** The date with the number of a date is that date, so dates and the numbers
      from 1 to MAX_ORDINAL correspond one to one. */
  lemma DateOfOrdinal(date: CivilDate)
    requires IsCivilDate(date)
    ensures 1 <= Ordinal(date) <= MAX_ORDINAL && FromOrdinal(Ordinal(date)) == date
  {
    OrdinalInRange(date);
    OrdinalInjective(FromOrdinal(Ordinal(date)), date);
  }

  /** The months of common and of leap years, and which years are leap years. */
  lemma MonthLengths(y: int, m: int)
    requires 1 <= m <= 12
    ensures DaysInMonth(y, m) == [31, if IsLeap(y) then 29 else 28, 31, 30, 31, 30, 31, 31, 30, 31, 30, 31][m - 1]
    ensures y % 400 == 0 ==> IsLeap(y)
    ensures y % 100 == 0 && y % 400 != 0 ==> !IsLeap(y)
    ensures y % 4 == 0 && y % 100 != 0 ==> IsLeap(y)
    ensures y % 4 != 0 ==> !IsLeap(y)
  {}

  /** The day after a date has the next number. */
  lemma NextDay(date: CivilDate)
    requires IsCivilDate(date) && date != CivilDate(MAX_YEAR, 12, 31)
    ensures var next := if date.day < DaysInMonth(date.year, date.month) then date.(day := date.day + 1)
                        else if date.month < 12 then CivilDate(date.year, date.month + 1, 1)
                        else CivilDate(date.year + 1, 1, 1);
            IsCivilDate(next) && Ordinal(next) == Ordinal(date) + 1
  {
    if date.month == 12 && date.day == 31 {
      MonthsFillYear(date.year);
      YearLength(date.year);
    }
  }
}
