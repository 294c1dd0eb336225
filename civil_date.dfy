/**
 * Calendar dates as JavaScript's `Date` handles them in local time, reduced to
 * the civil date (proleptic Gregorian year, month, day): the constructor
 * `new Date(y, monthIndex, day)` with its normalisation of out-of-range parts,
 * `getDay()` and `setDate(n)`.
 */
module CivilDate {

  datatype Date = Date(year: int, month: int, day: int)

  predicate IsLeapYear(y: int) {
    y % 4 == 0 && (y % 100 != 0 || y % 400 == 0)
  }

  function DaysInMonth(y: int, m: int): int
    requires 1 <= m <= 12
  {
    if m == 2 then (if IsLeapYear(y) then 29 else 28)
    else if m == 4 || m == 6 || m == 9 || m == 11 then 30
    else 31
  }

  /** A date that exists in the calendar. */
  predicate ValidDate(d: Date) {
    1 <= d.month <= 12 && 1 <= d.day <= DaysInMonth(d.year, d.month)
  }

  function YearDays(y: int): int {
    if IsLeapYear(y) then 366 else 365
  }

  /** The days of the years from year 1 up to (not including) `y`; negative before year 1. */
  function DaysBeforeYear(y: int): int
    decreases if y >= 1 then y - 1 else 1 - y
  {
    if y == 1 then 0
    else if y > 1 then DaysBeforeYear(y - 1) + YearDays(y - 1)
    else DaysBeforeYear(y + 1) - YearDays(y)
  }

  function DaysBeforeMonth(y: int, m: int): int
    requires 1 <= m <= 12
  {
    [0, 31, 59, 90, 120, 151, 181, 212, 243, 273, 304, 334][m - 1]
      + (if m > 2 && IsLeapYear(y) then 1 else 0)
  }

  /** Consecutive day count; 0001-01-01, a Monday, is day 0. */
  function DayNumber(d: Date): int
    requires 1 <= d.month <= 12
  {
    DaysBeforeYear(d.year) + DaysBeforeMonth(d.year, d.month) + d.day - 1
  }

  lemma Step4(p: int)
    ensures (p + 1) / 4 - p / 4 == (if (p + 1) % 4 == 0 then 1 else 0)
  {
    var q, r := p / 4, p % 4;
    if r == 3 {
      assert p + 1 == 4 * (q + 1);
    } else {
      assert p + 1 == 4 * q + (r + 1);
    }
  }

  lemma Step100(p: int)
    ensures (p + 1) / 100 - p / 100 == (if (p + 1) % 100 == 0 then 1 else 0)
  {
    var q, r := p / 100, p % 100;
    if r == 99 {
      assert p + 1 == 100 * (q + 1);
    } else {
      assert p + 1 == 100 * q + (r + 1);
    }
  }

  lemma Step400(p: int)
    ensures (p + 1) / 400 - p / 400 == (if (p + 1) % 400 == 0 then 1 else 0)
  {
    var q, r := p / 400, p % 400;
    if r == 399 {
      assert p + 1 == 400 * (q + 1);
    } else {
      assert p + 1 == 400 * q + (r + 1);
    }
  }

  lemma YearLength(y: int)
    ensures DaysBeforeYear(y + 1) == DaysBeforeYear(y) + YearDays(y)
  {
  }

  /** The Gregorian closed form: 365 days a year plus one every 4 years, less every 100, plus every 400. */
  function ClosedForm(y: int): int {
    var p := y - 1;
    365 * p + p / 4 - p / 100 + p / 400
  }

  /** The closed form grows by the length of each year. */
  lemma ClosedFormStep(y: int)
    ensures ClosedForm(y + 1) == ClosedForm(y) + YearDays(y)
  {
    var p := y - 1;
    Step4(p);
    Step100(p);
    Step400(p);
    LeapCount(y);
  }

  /** One leap day for every 4 years, less every 100, plus every 400. */
  lemma LeapCount(y: int)
    ensures (if y % 4 == 0 then 1 else 0) - (if y % 100 == 0 then 1 else 0) + (if y % 400 == 0 then 1 else 0)
         == (if IsLeapYear(y) then 1 else 0)
  {
    if y % 100 == 0 {
      MultipleOf100(y);
    }
    if y % 400 == 0 {
      MultipleOf400(y);
    }
  }

  lemma MultipleOf100(y: int)
    requires y % 100 == 0
    ensures y % 4 == 0
  {
    var q := y / 100;
    assert y == 4 * (25 * q);
  }

  lemma MultipleOf400(y: int)
    requires y % 400 == 0
    ensures y % 100 == 0
  {
    var q := y / 400;
    assert y == 100 * (4 * q);
  }

  lemma {:induction false} DaysBeforeYearClosedForm(y: int)
    ensures DaysBeforeYear(y) == ClosedForm(y)
    decreases if y >= 1 then y - 1 else 1 - y
  {
    if y > 1 {
      DaysBeforeYearClosedForm(y - 1);
      ClosedFormStep(y - 1);
    } else if y < 1 {
      DaysBeforeYearClosedForm(y + 1);
      ClosedFormStep(y);
    }
  }

  /** The day after `d`. */
  function NextDay(d: Date): (r: Date)
    requires ValidDate(d)
    ensures ValidDate(r) && DayNumber(r) == DayNumber(d) + 1
  {
    if d.day < DaysInMonth(d.year, d.month) then d.(day := d.day + 1)
    else if d.month < 12 then Date(d.year, d.month + 1, 1)
    else YearLength(d.year); Date(d.year + 1, 1, 1)
  }

  /** The day before `d`. */
  function PrevDay(d: Date): (r: Date)
    requires ValidDate(d)
    ensures ValidDate(r) && DayNumber(r) == DayNumber(d) - 1
  {
    if d.day > 1 then d.(day := d.day - 1)
    else if d.month > 1 then Date(d.year, d.month - 1, DaysInMonth(d.year, d.month - 1))
    else YearLength(d.year - 1); Date(d.year - 1, 12, 31)
  }

  /** The date `n` days after `d` (before it when `n` is negative). */
  function AddDays(d: Date, n: int): (r: Date)
    requires ValidDate(d)
    ensures ValidDate(r) && DayNumber(r) == DayNumber(d) + n
    decreases if n < 0 then -n else n
  {
    if n == 0 then d
    else if n > 0 then AddDays(NextDay(d), n - 1)
    else AddDays(PrevDay(d), n + 1)
  }

  lemma NextDayWithinMonth(d: Date)
    requires ValidDate(d) && d.day < DaysInMonth(d.year, d.month)
    ensures NextDay(d) == d.(day := d.day + 1)
  {
  }

  /** Moving forward inside one month only changes the day of the month. */
  lemma {:induction false} AddDaysWithinMonth(y: int, m: int, a: int, k: nat)
    requires 1 <= m <= 12 && 1 <= a && a + k <= DaysInMonth(y, m)
    ensures AddDays(Date(y, m, a), k) == Date(y, m, a + k)
    decreases k
  {
    var d := Date(y, m, a);
    if k > 0 {
      NextDayWithinMonth(d);
      AddDaysForward(d, k);
      AddDaysWithinMonth(y, m, a + 1, k - 1);
    }
  }

  /** One step of `AddDays` forward. */
  lemma AddDaysForward(d: Date, k: int)
    requires ValidDate(d) && k > 0
    ensures AddDays(d, k) == AddDays(NextDay(d), k - 1)
  {
  }

  /** The year the `Date` constructor uses: 0..99 stand for 1900..1999. */
  function FullYear(y: int): int {
    if 0 <= y <= 99 then 1900 + y else y
  }

  /**
   * `new Date(y, monthIndex, day)`: month indices outside 0..11 carry into the
   * year, and days outside the month carry into the neighbouring months.
   */
  function NewDate(y: int, monthIndex: int, day: int): (r: Date)
    ensures ValidDate(r)
  {
    AddDays(Date(FullYear(y) + monthIndex / 12, monthIndex % 12 + 1, 1), day - 1)
  }

  /** The constructed date is `day - 1` days after the first of the (carried) month. */
  lemma NewDateDayNumber(y: int, monthIndex: int, day: int)
    ensures DayNumber(NewDate(y, monthIndex, day))
         == DayNumber(Date(FullYear(y) + monthIndex / 12, monthIndex % 12 + 1, 1)) + day - 1
  {
  }

  /** With parts in range, the constructor builds exactly that date. */
  lemma NewDateInRange(y: int, m: int, d: int)
    requires 1 <= m <= 12 && 1 <= d <= DaysInMonth(FullYear(y), m)
    ensures NewDate(y, m - 1, d) == Date(FullYear(y), m, d)
  {
    assert (m - 1) / 12 == 0 && (m - 1) % 12 + 1 == m;
    AddDaysWithinMonth(FullYear(y), m, 1, d - 1);
  }

  /** `getDay()`: 0 for Sunday, 1 for Monday, ..., 6 for Saturday. */
  function GetDay(d: Date): (w: int)
    requires ValidDate(d)
    ensures 0 <= w < 7
  {
    (DayNumber(d) + 1) % 7
  }

  /** `d.setDate(n)`: day `n` counted from the first of `d`'s month, carrying across months. */
  function SetDate(d: Date, n: int): (r: Date)
    requires ValidDate(d)
    ensures ValidDate(r) && DayNumber(r) == DayNumber(d) + n - d.day
  {
    AddDays(Date(d.year, d.month, 1), n - 1)
  }

  /** The Unix epoch, 1970-01-01, was a Thursday. */
  lemma EpochIsThursday()
    ensures GetDay(Date(1970, 1, 1)) == 4
  {
    DaysBeforeYearClosedForm(1970);
  }
}
