/**
 * Calendar dates as Python's `datetime.date` has them: the proleptic Gregorian calendar,
 * years 1 to 9999 (`MINYEAR`, `MAXYEAR`), and arithmetic with whole days, which raises
 * `OverflowError` when the result leaves that range.
 */
module Calendar {
  import opened Wrappers

  const MIN_YEAR := 1
  const MAX_YEAR := 9999

  datatype Date = Date(year: int, month: int, day: int)

  predicate IsLeapYear(y: int)
  {
    y % 4 == 0 && (y % 100 != 0 || y % 400 == 0)
  }

  function DaysInMonth(y: int, m: int): int
    requires 1 <= m <= 12
  {
    if m == 2 then (if IsLeapYear(y) then 29 else 28)
    else if m == 4 || m == 6 || m == 9 || m == 11 then 30
    else 31
  }

  function DaysInYear(y: int): int
  {
    if IsLeapYear(y) then 366 else 365
  }

  predicate Valid(d: Date)
  {
    MIN_YEAR <= d.year <= MAX_YEAR && 1 <= d.month <= 12 && 1 <= d.day <= DaysInMonth(d.year, d.month)
  }

  /** The dates `datetime.date` can represent. */
  type ValidDate = d: Date | Valid(d) witness Date(1970, 1, 1)

  const MIN_DATE: ValidDate := Date(MIN_YEAR, 1, 1)
  const MAX_DATE: ValidDate := Date(MAX_YEAR, 12, 31)

  /** The ordinal of `MAX_DATE`: Python's `date.max.toordinal()`. */
  const MAX_ORDINAL := 3652059

  /** Days in the years before `y`, counting from year 1. */
  function DaysBeforeYear(y: int): nat
    requires y >= 1
    decreases y
  {
    if y == 1 then 0 else DaysBeforeYear(y - 1) + DaysInYear(y - 1)
  }

  /** Days in the months of year `y` before month `m`. */
  function DaysBeforeMonth(y: int, m: int): nat
    requires 1 <= m <= 12
  {
    var common :=
      if m == 1 then 0 else if m == 2 then 31 else if m == 3 then 59
      else if m == 4 then 90 else if m == 5 then 120 else if m == 6 then 151
      else if m == 7 then 181 else if m == 8 then 212 else if m == 9 then 243
      else if m == 10 then 273 else if m == 11 then 304 else 334;
    common + (if m > 2 && IsLeapYear(y) then 1 else 0)
  }

  /** Python's `date.toordinal()`: 1 for 0001-01-01, one more for each following day. */
  function Ordinal(d: ValidDate): int
  {
    DaysBeforeYear(d.year) + DaysBeforeMonth(d.year, d.month) + d.day
  }

  /** Stepping from the last day of month `m` to the first of the next month. */
  lemma MonthStep(y: int, m: int)
    requires MIN_YEAR <= y <= MAX_YEAR && 1 <= m < 12
    ensures Ordinal(Date(y, m + 1, 1)) == Ordinal(Date(y, m, DaysInMonth(y, m))) + 1
  {
  }

  /** Stepping from December 31 to January 1 of the next year. */
  lemma YearStep(y: int)
    requires MIN_YEAR <= y < MAX_YEAR
    ensures Ordinal(Date(y + 1, 1, 1)) == Ordinal(Date(y, 12, 31)) + 1
  {
    assert DaysBeforeYear(y + 1) == DaysBeforeYear(y) + DaysInYear(y);
  }

  /** The day after `d`. */
  function NextDay(d: ValidDate): (r: ValidDate)
    requires d != MAX_DATE
    ensures Ordinal(r) == Ordinal(d) + 1
  {
    if d.day < DaysInMonth(d.year, d.month) then Date(d.year, d.month, d.day + 1)
    else if d.month < 12 then
      MonthStep(d.year, d.month);
      Date(d.year, d.month + 1, 1)
    else
      YearStep(d.year);
      Date(d.year + 1, 1, 1)
  }

  /** The day before `d`. */
  function PrevDay(d: ValidDate): (r: ValidDate)
    requires d != MIN_DATE
    ensures Ordinal(r) + 1 == Ordinal(d)
  {
    if d.day > 1 then Date(d.year, d.month, d.day - 1)
    else if d.month > 1 then
      MonthStep(d.year, d.month - 1);
      Date(d.year, d.month - 1, DaysInMonth(d.year, d.month - 1))
    else
      YearStep(d.year - 1);
      Date(d.year - 1, 12, 31)
  }

  /**
   * `d + timedelta(days=n)`, one day at a time; `None` where Python raises `OverflowError`
   * because the result would fall outside years 1 to 9999.
   */
  function AddDays(d: ValidDate, n: int): (r: Option<ValidDate>)
    ensures r.Some? ==> Ordinal(r.value) == Ordinal(d) + n
    ensures n == 0 ==> r == Some(d)
    decreases if n < 0 then -n else n
  {
    if n == 0 then Some(d)
    else if n > 0 then (if d == MAX_DATE then None else AddDays(NextDay(d), n - 1))
    else (if d == MIN_DATE then None else AddDays(PrevDay(d), n + 1))
  }

  lemma {:induction false} DaysBeforeYearGrows(a: int, b: int)
    requires 1 <= a < b
    ensures DaysBeforeYear(a) + DaysInYear(a) <= DaysBeforeYear(b)
    decreases b
  {
    if a < b - 1 {
      DaysBeforeYearGrows(a, b - 1);
    }
  }

  lemma MonthsGrow(y: int, m1: int, m2: int)
    requires 1 <= m1 < m2 <= 12
    ensures DaysBeforeMonth(y, m1) + DaysInMonth(y, m1) <= DaysBeforeMonth(y, m2)
  {
  }

  lemma DayOfYearBound(d: ValidDate)
    ensures DaysBeforeMonth(d.year, d.month) + d.day <= DaysInYear(d.year)
  {
    if d.month < 12 {
      MonthsGrow(d.year, d.month, 12);
    }
  }

  lemma QuotientStep(p: int)
    requires p >= 1
    ensures p / 4 == (p - 1) / 4 + (if p % 4 == 0 then 1 else 0)
    ensures p / 100 == (p - 1) / 100 + (if p % 100 == 0 then 1 else 0)
    ensures p / 400 == (p - 1) / 400 + (if p % 400 == 0 then 1 else 0)
  {
  }

  lemma DivisorsNest(p: int)
    ensures p % 400 == 0 ==> p % 100 == 0
    ensures p % 100 == 0 ==> p % 4 == 0
  {
    var q := p / 400;
    var c := p / 100;
    if p % 400 == 0 {
      assert p == 400 * q == 100 * (4 * q);
    }
    if p % 100 == 0 {
      assert p == 100 * c == 4 * (25 * c);
    }
  }

  /** Python's closed form for the days before a year agrees with the count year by year. */
  lemma {:induction false} DaysBeforeYearClosedForm(y: int)
    requires y >= 1
    ensures DaysBeforeYear(y) == (y - 1) * 365 + (y - 1) / 4 - (y - 1) / 100 + (y - 1) / 400
    decreases y
  {
    if y > 1 {
      DaysBeforeYearClosedForm(y - 1);
      QuotientStep(y - 1);
      DivisorsNest(y - 1);
    }
  }

  /** The first date has ordinal 1 and the last has `MAX_ORDINAL`. */
  lemma OrdinalLimits()
    ensures Ordinal(MIN_DATE) == 1 && Ordinal(MAX_DATE) == MAX_ORDINAL
  {
    DaysBeforeYearClosedForm(MAX_YEAR);
    var top := DaysBeforeYear(MAX_YEAR);
    assert top == 3651694;
    assert !IsLeapYear(MAX_YEAR);
    assert DaysBeforeMonth(MAX_YEAR, 12) == 334;
    assert Ordinal(MAX_DATE) == top + 334 + 31;
  }

  /** Every representable date has an ordinal between those of the first and the last. */
  lemma OrdinalBounds(d: ValidDate)
    ensures 1 <= Ordinal(d) <= MAX_ORDINAL
  {
    var y := d.year;
    DaysBeforeYearClosedForm(MAX_YEAR);
    DayOfYearBound(d);
    if y < MAX_YEAR {
      DaysBeforeYearGrows(y, MAX_YEAR);
    }
  }

  /** Distinct dates have distinct ordinals: a target ordinal names one date. */
  lemma OrdinalInjective(d1: ValidDate, d2: ValidDate)
    requires d1 != d2
    ensures Ordinal(d1) != Ordinal(d2)
  {
    var (a, b) :=
      if d1.year < d2.year || (d1.year == d2.year && (d1.month < d2.month || (d1.month == d2.month && d1.day < d2.day)))
      then (d1, d2) else (d2, d1);
    if a.year < b.year {
      DayOfYearBound(a);
      DaysBeforeYearGrows(a.year, b.year);
    } else if a.month < b.month {
      MonthsGrow(a.year, a.month, b.month);
    }
    assert Ordinal(a) < Ordinal(b);
  }

  /** Adding `n` days succeeds exactly when the target ordinal is representable. */
  lemma {:induction false} AddDaysDefined(d: ValidDate, n: int)
    ensures AddDays(d, n).Some? <==> 1 <= Ordinal(d) + n <= MAX_ORDINAL
    decreases if n < 0 then -n else n
  {
    if n == 0 {
      OrdinalBounds(d);
    } else if n > 0 {
      if d != MAX_DATE {
        AddDaysDefined(NextDay(d), n - 1);
      } else {
        OrdinalLimits();
      }
    } else {
      if d != MIN_DATE {
        AddDaysDefined(PrevDay(d), n + 1);
      } else {
        OrdinalLimits();
      }
    }
  }
}
