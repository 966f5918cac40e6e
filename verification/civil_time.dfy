/** A proleptic Gregorian civil date-time with JavaScript `Date` arithmetic.

    A `DateTime` is a year, a month (1..12), a day of the month and the
    milliseconds elapsed since midnight. `Normalize` plays the role of the
    ECMAScript `MakeDay`: a day number outside the month rolls forward or
    backward into neighbouring months, so `setDate` and `setMonth` become
    `AddDays` and `AddMonths`. The time value (`getTime`) counts milliseconds
    from 1970-01-01T00:00, with local time taken to be UTC. */
module CivilTime {

  const MsPerDay: int := 86_400_000

  /** Days from 0000-01-01 to 1970-01-01. */
  const EpochDay: int := 719_528

  datatype DateTime = DateTime(year: int, month: int, day: int, msOfDay: int)
  {
    predicate Valid() {
      1 <= month <= 12 && 1 <= day <= DaysInMonth(year, month) && 0 <= msOfDay < MsPerDay
    }
  }

  predicate IsLeapYear(y: int) {
    y % 4 == 0 && (y % 100 != 0 || y % 400 == 0)
  }

  function DaysInYear(y: int): int {
    if IsLeapYear(y) then 366 else 365
  }

  function DaysInMonth(y: int, m: int): (n: int)
    requires 1 <= m <= 12
    ensures 28 <= n <= 31
    ensures m == 2 ==> (n == 29 <==> IsLeapYear(y))
  {
    if m == 2 then (if IsLeapYear(y) then 29 else 28)
    else if m == 4 || m == 6 || m == 9 || m == 11 then 30
    else 31
  }

  /** Days from 0000-01-01 to the first of January of year y. */
  function DaysBeforeYear(y: int): int {
    365 * y + (y + 3) / 4 - (y + 99) / 100 + (y + 399) / 400
  }

  /** Days from the first of January of year y to the first of month m. */
  function DaysBeforeMonth(y: int, m: int): int
    requires 1 <= m <= 12
  {
    var leap := if m > 2 && IsLeapYear(y) then 1 else 0;
    leap +
    (if m == 1 then 0 else if m == 2 then 31 else if m == 3 then 59
     else if m == 4 then 90 else if m == 5 then 120 else if m == 6 then 151
     else if m == 7 then 181 else if m == 8 then 212 else if m == 9 then 243
     else if m == 10 then 273 else if m == 11 then 304 else 334)
  }

  /** The day number of day d of month m of year y, counted from 0000-01-01.
      Linear in d, so it is meaningful for any d, in or out of the month. */
  function DayIndex(y: int, m: int, d: int): int
    requires 1 <= m <= 12
  {
    DaysBeforeYear(y) + DaysBeforeMonth(y, m) + d - 1
  }

  function NextMonth(y: int, m: int): (r: (int, int))
    requires 1 <= m <= 12
    ensures 1 <= r.1 <= 12
  {
    if m == 12 then (y + 1, 1) else (y, m + 1)
  }

  function PrevMonth(y: int, m: int): (r: (int, int))
    requires 1 <= m <= 12
    ensures 1 <= r.1 <= 12
  {
    if m == 1 then (y - 1, 12) else (y, m - 1)
  }

  /** Brings day d of month m of year y into range by moving whole months,
      the way `MakeDay` lets a day number overflow into neighbouring months. */
  function Normalize(y: int, m: int, d: int, ms: int): DateTime
    requires 1 <= m <= 12
    decreases if d < 1 then 1 - d else 0, if d > 0 then d else 0
  {
    if d < 1 then
      var (py, pm) := PrevMonth(y, m);
      Normalize(py, pm, d + DaysInMonth(py, pm), ms)
    else if d > DaysInMonth(y, m) then
      var (ny, nm) := NextMonth(y, m);
      Normalize(ny, nm, d - DaysInMonth(y, m), ms)
    else
      DateTime(y, m, d, ms)
  }

  /** `getTime()`: milliseconds since 1970-01-01T00:00. */
  function TimeValue(c: DateTime): int
    requires 1 <= c.month <= 12
  {
    (DayIndex(c.year, c.month, c.day) - EpochDay) * MsPerDay + c.msOfDay
  }

  /** `new Date(t)`: the civil date-time of time value t. */
  function FromTimeValue(t: int): (c: DateTime)
    ensures c.Valid()
    ensures TimeValue(c) == t
  {
    NormalizeKeepsDay(1970, 1, 1 + t / MsPerDay, t % MsPerDay);
    Normalize(1970, 1, 1 + t / MsPerDay, t % MsPerDay)
  }

  /** `d.setDate(d.getDate() + n)`. */
  function AddDays(c: DateTime, n: int): (r: DateTime)
    requires c.Valid()
    ensures r.Valid() && r.msOfDay == c.msOfDay
    ensures TimeValue(r) == TimeValue(c) + n * MsPerDay
  {
    NormalizeKeepsDay(c.year, c.month, c.day + n, c.msOfDay);
    Normalize(c.year, c.month, c.day + n, c.msOfDay)
  }

  /** The (year, month) reached by moving n months from month m of year y,
      with the year carried as `MakeDay` does (floor division by 12). */
  function ShiftMonth(y: int, m: int, n: int): (r: (int, int))
    requires 1 <= m <= 12
    ensures 1 <= r.1 <= 12
    ensures r.0 * 12 + r.1 == y * 12 + m + n
  {
    (y + (m - 1 + n) / 12, (m - 1 + n) % 12 + 1)
  }

  /** `d.setMonth(d.getMonth() + n)`: the day of the month is kept, and a day
      past the end of the target month overflows into the month after it. */
  function AddMonths(c: DateTime, n: int): (r: DateTime)
    requires c.Valid()
    ensures r.Valid() && r.msOfDay == c.msOfDay
    ensures var (ty, tm) := ShiftMonth(c.year, c.month, n);
      if c.day <= DaysInMonth(ty, tm) then r == DateTime(ty, tm, c.day, c.msOfDay)
      else r == DateTime(NextMonth(ty, tm).0, NextMonth(ty, tm).1, c.day - DaysInMonth(ty, tm), c.msOfDay)
  {
    var (ty, tm) := ShiftMonth(c.year, c.month, n);
    NormalizeKeepsDay(ty, tm, c.day, c.msOfDay);
    Normalize(ty, tm, c.day, c.msOfDay)
  }

  // ---------------------------------------------------------------------
  // Calendar facts

  lemma Div4Step(y: int)
    ensures (y + 4) / 4 - (y + 3) / 4 == if y % 4 == 0 then 1 else 0
  {}

  lemma Div100Step(y: int)
    ensures (y + 100) / 100 - (y + 99) / 100 == if y % 100 == 0 then 1 else 0
  {}

  lemma Div400Step(y: int)
    ensures (y + 400) / 400 - (y + 399) / 400 == if y % 400 == 0 then 1 else 0
  {}

  /** Consecutive years are DaysInYear apart. */
  lemma YearStep(y: int)
    ensures DaysBeforeYear(y + 1) == DaysBeforeYear(y) + DaysInYear(y)
  {
    Div4Step(y);
    Div100Step(y);
    Div400Step(y);
  }

  /** Stepping a day number across a month boundary does not move it. */
  lemma MonthStep(y: int, m: int, d: int)
    requires 1 <= m <= 12
    ensures var (ny, nm) := NextMonth(y, m);
      DayIndex(ny, nm, d - DaysInMonth(y, m)) == DayIndex(y, m, d)
  {
    if m == 12 {
      YearStep(y);
    }
  }

  /** `Normalize` yields a valid date-time with the same day number. */
  lemma {:induction false} NormalizeKeepsDay(y: int, m: int, d: int, ms: int)
    requires 1 <= m <= 12
    requires 0 <= ms < MsPerDay
    ensures Normalize(y, m, d, ms).Valid()
    ensures Normalize(y, m, d, ms).msOfDay == ms
    ensures var c := Normalize(y, m, d, ms); DayIndex(c.year, c.month, c.day) == DayIndex(y, m, d)
    decreases if d < 1 then 1 - d else 0, if d > 0 then d else 0
  {
    if d < 1 {
      var (py, pm) := PrevMonth(y, m);
      MonthStep(py, pm, d + DaysInMonth(py, pm));
      NormalizeKeepsDay(py, pm, d + DaysInMonth(py, pm), ms);
    } else if d > DaysInMonth(y, m) {
      var (ny, nm) := NextMonth(y, m);
      MonthStep(y, m, d);
      NormalizeKeepsDay(ny, nm, d - DaysInMonth(y, m), ms);
    }
  }

  /** Years are laid end to end: a later year starts at least 365 days later. */
  lemma {:induction false} YearsOrdered(y1: int, y2: int)
    requires y1 <= y2
    ensures DaysBeforeYear(y1) + 365 * (y2 - y1) <= DaysBeforeYear(y2)
    decreases y2 - y1
  {
    if y1 < y2 {
      YearsOrdered(y1, y2 - 1);
      YearStep(y2 - 1);
    }
  }

  /** Months within a year are laid end to end. */
  lemma MonthsOrdered(y: int, m1: int, m2: int)
    requires 1 <= m1 < m2 <= 12
    ensures DaysBeforeMonth(y, m1) + DaysInMonth(y, m1) <= DaysBeforeMonth(y, m2)
  {}

  /** The day number of a valid date lies inside its month and its year. */
  lemma DayIndexInYear(c: DateTime)
    requires c.Valid()
    ensures DaysBeforeYear(c.year) <= DayIndex(c.year, c.month, c.day) < DaysBeforeYear(c.year + 1)
  {
    YearStep(c.year);
  }

  /** Distinct valid dates have distinct day numbers. */
  lemma DayIndexInjective(a: DateTime, b: DateTime)
    requires a.Valid() && b.Valid()
    requires DayIndex(a.year, a.month, a.day) == DayIndex(b.year, b.month, b.day)
    ensures a.year == b.year && a.month == b.month && a.day == b.day
  {
    DayIndexInYear(a);
    DayIndexInYear(b);
    if a.year < b.year {
      YearsOrdered(a.year + 1, b.year);
    } else if b.year < a.year {
      YearsOrdered(b.year + 1, a.year);
    }
    assert a.year == b.year;
    if a.month < b.month {
      MonthsOrdered(a.year, a.month, b.month);
    } else if b.month < a.month {
      MonthsOrdered(a.year, b.month, a.month);
    }
  }

  /** A valid date-time is determined by its time value: the civil form is
      canonical, as a JavaScript `Date` is determined by `getTime()`. */
  lemma TimeValueInjective(a: DateTime, b: DateTime)
    requires a.Valid() && b.Valid()
    requires TimeValue(a) == TimeValue(b)
    ensures a == b
  {
    var da := DayIndex(a.year, a.month, a.day);
    var db := DayIndex(b.year, b.month, b.day);
    assert da == db;
    DayIndexInjective(a, b);
  }

  /** The time value agrees with JavaScript's: 0 at 1970-01-01T00:00 and
      1704067200000 at 2024-01-01T00:00. */
  lemma TimeValueAnchors()
    ensures TimeValue(DateTime(1970, 1, 1, 0)) == 0
    ensures TimeValue(DateTime(2024, 1, 1, 0)) == 1_704_067_200_000
  {}

  /** `new Date(d.getTime())` is `d` again. */
  lemma FromTimeValueRoundTrip(c: DateTime)
    requires c.Valid()
    ensures FromTimeValue(TimeValue(c)) == c
  {
    TimeValueInjective(FromTimeValue(TimeValue(c)), c);
  }

  /** Shifting by days is cumulative: a shift of a then b is a shift of a + b. */
  lemma AddDaysCompose(c: DateTime, a: int, b: int)
    requires c.Valid()
    ensures AddDays(AddDays(c, a), b) == AddDays(c, a + b)
  {
    TimeValueInjective(AddDays(AddDays(c, a), b), AddDays(c, a + b));
  }

  /** Shifting by months is not cumulative: one month after 2023-01-31 is
      2023-03-03, and one month after that is 2023-04-03, while two months
      after 2023-01-31 is 2023-03-31. */
  lemma AddMonthsNotCumulative()
    ensures var jan31 := DateTime(2023, 1, 31, 0);
      && AddMonths(jan31, 1) == DateTime(2023, 3, 3, 0)
      && AddMonths(AddMonths(jan31, 1), 1) == DateTime(2023, 4, 3, 0)
      && AddMonths(jan31, 2) == DateTime(2023, 3, 31, 0)
  {}
}
