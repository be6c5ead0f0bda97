/**
 * Calendar dates as Python's `datetime.date` has them: the proleptic
 * Gregorian calendar, years 1..9999, day numbers counted from 0001-01-01
 * (`toordinal`), and `weekday()` with Monday as 0.
 */
module Dates {

  datatype Date = Date(year: int, month: int, day: int)

  predicate IsLeap(y: int) {
    y % 4 == 0 && (y % 100 != 0 || y % 400 == 0)
  }

  function DaysInMonth(y: int, m: int): int {
    if m == 2 then (if IsLeap(y) then 29 else 28)
    else if m == 4 || m == 6 || m == 9 || m == 11 then 30
    else 31
  }

  /** Days in the months of year `y` before month `m`. */
  function DaysBeforeMonth(y: int, m: int): int {
    var base :=
      if m <= 1 then 0 else if m == 2 then 31 else if m == 3 then 59
      else if m == 4 then 90 else if m == 5 then 120 else if m == 6 then 151
      else if m == 7 then 181 else if m == 8 then 212 else if m == 9 then 243
      else if m == 10 then 273 else if m == 11 then 304 else 334;
    base + (if m > 2 && IsLeap(y) then 1 else 0)
  }

  function DaysInYear(y: int): int {
    if IsLeap(y) then 366 else 365
  }

  /** Days in the years before year `y`. */
  function DaysBeforeYear(y: int): int {
    var p := y - 1;
    p * 365 + p / 4 - p / 100 + p / 400
  }

  predicate Valid(d: Date) {
    1 <= d.year <= 9999 && 1 <= d.month <= 12 && 1 <= d.day <= DaysInMonth(d.year, d.month)
  }

  /** The day number of `d`; 0001-01-01 is day 1. */
  function Ordinal(d: Date): int {
    DaysBeforeYear(d.year) + DaysBeforeMonth(d.year, d.month) + d.day
  }

  /** Monday is 0 and Sunday is 6. */
  function Weekday(d: Date): int {
    (Ordinal(d) + 6) % 7
  }

  /** Chronological order, which for dates is the order of (year, month, day). */
  predicate Le(a: Date, b: Date) {
    a.year < b.year || (a.year == b.year && (a.month < b.month || (a.month == b.month && a.day <= b.day)))
  }

  predicate Lt(a: Date, b: Date) {
    Le(a, b) && a != b
  }

  /** Subtracting one from a positive `n` lowers `n / k` by one exactly when `k` divides `n`. */
  lemma DivStep(n: int, k: int)
    requires n >= 1 && (k == 4 || k == 100 || k == 400)
    ensures n / k - (n - 1) / k == if n % k == 0 then 1 else 0
  {
  }

  lemma DaysBeforeYearStep(y: int)
    requires y >= 1
    ensures DaysBeforeYear(y + 1) == DaysBeforeYear(y) + DaysInYear(y)
  {
    DivStep(y, 4);
    DivStep(y, 100);
    DivStep(y, 400);
    if y % 400 == 0 {
      assert y == 100 * (4 * (y / 400));
      assert y == 4 * (100 * (y / 400));
    } else if y % 100 == 0 {
      assert y == 4 * (25 * (y / 100));
    }
  }

  lemma OrdinalPositive(d: Date)
    requires Valid(d)
    ensures Ordinal(d) >= 1
    ensures Ordinal(d) == 1 <==> d == Date(1, 1, 1)
  {
    var p := d.year - 1;
    assert p / 4 >= p / 100 by {
      assert p == 4 * (p / 4) + p % 4;
      assert p == 100 * (p / 100) + p % 100;
    }
    if d.year > 1 {
      assert DaysBeforeYear(d.year) >= 365;
    }
  }

  /** The day before `d`. */
  function PrevDay(d: Date): (r: Date)
    requires Valid(d) && d != Date(1, 1, 1)
    ensures Valid(r)
    ensures Lt(r, d)
    ensures Ordinal(r) == Ordinal(d) - 1
  {
    if d.day > 1 then Date(d.year, d.month, d.day - 1)
    else if d.month > 1 then Date(d.year, d.month - 1, DaysInMonth(d.year, d.month - 1))
    else
      DaysBeforeYearStep(d.year - 1);
      Date(d.year - 1, 12, 31)
  }

  /** `d - timedelta(days=k)`. */
  function MinusDays(d: Date, k: nat): (r: Date)
    requires Valid(d) && k < Ordinal(d)
    ensures Valid(r)
    ensures Le(r, d)
    ensures Ordinal(r) == Ordinal(d) - k
    decreases k
  {
    if k == 0 then d
    else
      OrdinalPositive(d);
      MinusDays(PrevDay(d), k - 1)
  }

  /** The Monday that starts the week of `d`: `d - timedelta(days=d.weekday())`. */
  function WeekStart(d: Date): (r: Date)
    requires Valid(d)
    ensures Valid(r) && Le(r, d)
    ensures Ordinal(d) - Ordinal(r) == Weekday(d)
  {
    OrdinalPositive(d);
    WeekdayBound(Ordinal(d));
    MinusDays(d, Weekday(d))
  }

  lemma WeekdayBound(n: int)
    requires n >= 1
    ensures (n + 6) % 7 <= n - 1
  {
  }

  /** The week starts on a Monday, at most six days before `d`. */
  lemma WeekStartIsMonday(d: Date)
    requires Valid(d)
    ensures Weekday(WeekStart(d)) == 0
    ensures 0 <= Ordinal(d) - Ordinal(WeekStart(d)) < 7
  {
    MondayOf(d, WeekStart(d));
  }

  lemma MondayOf(d: Date, r: Date)
    requires Ordinal(r) == Ordinal(d) - Weekday(d)
    ensures Weekday(r) == 0
  {
    WeekArith(Ordinal(d), Ordinal(r));
  }

  /** `n - (n + 6) % 7` is a day number with remainder 0 (a Monday). */
  lemma WeekArith(n: int, m: int)
    requires m == n - (n + 6) % 7
    ensures (m + 6) % 7 == 0
  {
    var w := (n + 6) % 7;
    assert n + 6 == 7 * ((n + 6) / 7) + w;
    assert n - w + 6 == 7 * ((n + 6) / 7);
  }
}
