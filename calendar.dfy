/**
 * The proleptic Gregorian calendar as the JavaScript Date object counts it:
 * day numbers counted from 1970-01-01, the parse of a `YYYY-MM-DD` string to
 * UTC midnight, and the year that `new Date(year, monthIndex, day)` lands in.
 */
module Calendar {
  import opened Wrappers
  import opened Text

  const MsPerDay := 86_400_000

  predicate IsLeapYear(y: int)
  {
    y % 4 == 0 && (y % 100 != 0 || y % 400 == 0)
  }

  function DaysInYear(y: int): int
  {
    if IsLeapYear(y) then 366 else 365
  }

  function DaysInMonth(y: int, m: int): int
    requires 1 <= m <= 12
  {
    if m == 2 then (if IsLeapYear(y) then 29 else 28)
    else if m == 4 || m == 6 || m == 9 || m == 11 then 30
    else 31
  }

  /** Days from January 1 to the first of month `m`. */
  function DaysBeforeMonth(y: int, m: int): int
    requires 1 <= m <= 12
  {
    [0, 31, 59, 90, 120, 151, 181, 212, 243, 273, 304, 334][m - 1]
      + (if m > 2 && IsLeapYear(y) then 1 else 0)
  }

  /** Days from 0000-01-01 to the first of January of year `y` (negative before year 0). */
  function DaysBeforeYear(y: int): int
  {
    365 * y + (y + 3) / 4 - (y + 99) / 100 + (y + 399) / 400
  }

  /** DaysBeforeYear(1970). */
  const UnixEpochDays := 719_528

  /**
   * The day number, counted from 1970-01-01, of the day that lies `d - 1` days after
   * the first of month `m` of year `y`; for a day of the month this is the date's own number.
   */
  function DayNumber(y: int, m: int, d: int): int
    requires 1 <= m <= 12
  {
    DaysBeforeYear(y) - UnixEpochDays + DaysBeforeMonth(y, m) + d - 1
  }

  /** The day numbers start at the Unix epoch. */
  lemma EpochIsDayZero()
    ensures DayNumber(1970, 1, 1) == 0
  {
  }

  /** The year-start formula advances by the length of each year. */
  lemma YearLength(y: int)
    ensures DaysBeforeYear(y + 1) == DaysBeforeYear(y) + DaysInYear(y)
  {
    StepOver4(y);
    StepOver100(y);
    StepOver400(y);
  }

  /** Moving one year on adds a leap day to the count exactly when the year is divisible by 4. */
  lemma StepOver4(y: int)
    ensures ((y + 1) + 3) / 4 == (y + 3) / 4 + (if y % 4 == 0 then 1 else 0)
  {
  }

  lemma StepOver100(y: int)
    ensures ((y + 1) + 99) / 100 == (y + 99) / 100 + (if y % 100 == 0 then 1 else 0)
  {
  }

  lemma StepOver400(y: int)
    ensures ((y + 1) + 399) / 400 == (y + 399) / 400 + (if y % 400 == 0 then 1 else 0)
  {
  }

  /** The month-start table advances by the length of each month. */
  lemma MonthLength(y: int, m: int)
    requires 1 <= m < 12
    ensures DaysBeforeMonth(y, m + 1) == DaysBeforeMonth(y, m) + DaysInMonth(y, m)
  {
  }

  /** December ends the year. */
  lemma DecemberEndsYear(y: int)
    ensures DaysBeforeMonth(y, 12) + DaysInMonth(y, 12) == DaysInYear(y)
  {
  }

  /** The calendar date after (y, m, d). */
  function NextDate(y: int, m: int, d: int): (int, int, int)
    requires 1 <= m <= 12
  {
    if d < DaysInMonth(y, m) then (y, m, d + 1)
    else if m < 12 then (y, m + 1, 1)
    else (y + 1, 1, 1)
  }

  /** Walking the calendar one date forward advances the day number by exactly one. */
  lemma NextDateIsNextDay(y: int, m: int, d: int)
    requires 1 <= m <= 12 && 1 <= d <= DaysInMonth(y, m)
    ensures var (y', m', d') := NextDate(y, m, d);
      1 <= m' <= 12 && 1 <= d' <= DaysInMonth(y', m') && DayNumber(y', m', d') == DayNumber(y, m, d) + 1
  {
    if d == DaysInMonth(y, m) {
      if m < 12 {
        MonthLength(y, m);
      } else {
        YearLength(y);
        DecemberEndsYear(y);
      }
    }
  }

  /** A day of a month, as opposed to an offset that rolls into a neighbouring month. */
  predicate IsCalendarDate(y: int, m: int, d: int)
  {
    1 <= m <= 12 && 1 <= d <= DaysInMonth(y, m)
  }

  /** (y1, m1, d1) comes before (y2, m2, d2) in the calendar. */
  predicate DateBefore(y1: int, m1: int, d1: int, y2: int, m2: int, d2: int)
  {
    y1 < y2 || (y1 == y2 && (m1 < m2 || (m1 == m2 && d1 < d2)))
  }

  lemma {:induction false} DaysBeforeYearMonotone(a: int, b: int)
    requires a < b
    ensures DaysBeforeYear(a + 1) <= DaysBeforeYear(b)
    decreases b - a
  {
    if a + 1 < b {
      DaysBeforeYearMonotone(a + 1, b);
      YearLength(a + 1);
    }
  }

  lemma DayNumberIncreasing(y1: int, m1: int, d1: int, y2: int, m2: int, d2: int)
    requires IsCalendarDate(y1, m1, d1) && IsCalendarDate(y2, m2, d2)
    requires DateBefore(y1, m1, d1, y2, m2, d2)
    ensures DayNumber(y1, m1, d1) < DayNumber(y2, m2, d2)
  {
    if y1 < y2 {
      DayInYear(y1, m1, d1);
      DayInYear(y2, m2, d2);
      DaysBeforeYearMonotone(y1, y2);
    } else if m1 < m2 {
      MonthsIncreasing(y1, m1, m2);
    }
  }

  lemma MonthsIncreasing(y: int, m1: int, m2: int)
    requires 1 <= m1 < m2 <= 12
    ensures DaysBeforeMonth(y, m1) + DaysInMonth(y, m1) <= DaysBeforeMonth(y, m2)
  {
  }

  /** Day numbers order calendar dates as the calendar does, so a later date is a later instant. */
  lemma DayNumberOrder(y1: int, m1: int, d1: int, y2: int, m2: int, d2: int)
    requires IsCalendarDate(y1, m1, d1) && IsCalendarDate(y2, m2, d2)
    ensures DayNumber(y1, m1, d1) < DayNumber(y2, m2, d2) <==> DateBefore(y1, m1, d1, y2, m2, d2)
  {
    if DateBefore(y1, m1, d1, y2, m2, d2) {
      DayNumberIncreasing(y1, m1, d1, y2, m2, d2);
    } else if DateBefore(y2, m2, d2, y1, m1, d1) {
      DayNumberIncreasing(y2, m2, d2, y1, m1, d1);
    }
  }

  // ---------------------------------------------------------------------
  // `new Date("YYYY-MM-DD")`

  /** The shape `^\d{4}-\d{2}-\d{2}$`. */
  predicate IsIsoDateShape(s: string)
  {
    |s| == 10 && AllDigits(s[..4]) && s[4] == '-' && AllDigits(s[5..7]) && s[7] == '-' && AllDigits(s[8..])
  }

  /**
   * The instant, in milliseconds since the epoch, of a date-only ISO string, which
   * JavaScript reads as UTC midnight. Month 01-12 and day 01-31 are accepted, a day
   * past the end of its month rolls into the next; anything else is an Invalid Date.
   */
  function IsoDateInstant(s: string): Option<int>
  {
    if !IsIsoDateShape(s) then None
    else
      var y, m, d := DecimalValue(s[..4]), DecimalValue(s[5..7]), DecimalValue(s[8..]);
      if 1 <= m <= 12 && 1 <= d <= 31 then Some(DayNumber(y, m, d) * MsPerDay) else None
  }

  // ---------------------------------------------------------------------
  // `new Date(year, month - 1, day).getFullYear()`

  /** The Date constructor reads the years 0 to 99 as 1900 to 1999. */
  function MakeFullYear(y: int): int
  {
    if 0 <= y <= 99 then 1900 + y else y
  }

  /**
   * The year of the day that lies `d - 1` days after the first of month `m` of year `y`,
   * found by moving a month at a time until `d` is a day of the month.
   */
  function RollYear(y: int, m: int, d: int): int
    requires 1 <= m <= 12
    decreases if d < 1 then 1 - d else 0, d
  {
    if d < 1 then
      (if m == 1 then RollYear(y - 1, 12, d + 31) else RollYear(y, m - 1, d + DaysInMonth(y, m - 1)))
    else if d > DaysInMonth(y, m) then
      (if m == 12 then RollYear(y + 1, 1, d - 31) else RollYear(y, m + 1, d - DaysInMonth(y, m)))
    else y
  }

  /** getFullYear() of `new Date(year, month - 1, day)`, with month and day rolling over as the constructor does. */
  function DateYear(year: int, month: int, day: int): int
  {
    var mi := month - 1;
    RollYear(MakeFullYear(year) + mi / 12, mi % 12 + 1, day)
  }

  /** `n` is the number of a day of year `r`. */
  predicate DayOfYear(n: int, r: int)
  {
    DaysBeforeYear(r) - UnixEpochDays <= n < DaysBeforeYear(r + 1) - UnixEpochDays
  }

  /** RollYear finds the year whose days contain the day number of (y, m, d). */
  lemma {:induction false} RollYearContainsDay(y: int, m: int, d: int)
    requires 1 <= m <= 12
    ensures DayOfYear(DayNumber(y, m, d), RollYear(y, m, d))
    decreases if d < 1 then 1 - d else 0, d
  {
    if d < 1 {
      if m == 1 {
        RollYearContainsDay(y - 1, 12, d + 31);
        ShiftYear(y - 1, d + 31);
      } else {
        var d' := d + DaysInMonth(y, m - 1);
        RollYearContainsDay(y, m - 1, d');
        ShiftMonth(y, m - 1, d');
      }
    } else if d > DaysInMonth(y, m) {
      if m == 12 {
        RollYearContainsDay(y + 1, 1, d - 31);
        ShiftYear(y, d);
      } else {
        var d' := d - DaysInMonth(y, m);
        RollYearContainsDay(y, m + 1, d');
        ShiftMonth(y, m, d);
      }
    } else {
      DayInYear(y, m, d);
    }
  }

  /** getFullYear() reports the year that holds the day the constructor's arguments denote. */
  lemma DateYearContainsDay(year: int, month: int, day: int)
    ensures var mi := month - 1;
      DayOfYear(DayNumber(MakeFullYear(year) + mi / 12, mi % 12 + 1, day), DateYear(year, month, day))
  {
    var mi := month - 1;
    RollYearContainsDay(MakeFullYear(year) + mi / 12, mi % 12 + 1, day);
  }

  /** Counting `d` days from the first of month `m` is counting the rest of them from the first of month `m + 1`. */
  lemma ShiftMonth(y: int, m: int, d: int)
    requires 1 <= m < 12
    ensures DayNumber(y, m + 1, d - DaysInMonth(y, m)) == DayNumber(y, m, d)
  {
    MonthLength(y, m);
  }

  /** Counting `d` days from the first of December is counting the rest of them from the next first of January. */
  lemma ShiftYear(y: int, d: int)
    ensures DayNumber(y + 1, 1, d - 31) == DayNumber(y, 12, d)
  {
    YearLength(y);
    DecemberEndsYear(y);
  }

  /** A day of a month of year `y` has a day number inside year `y`. */
  lemma DayInYear(y: int, m: int, d: int)
    requires 1 <= m <= 12 && 1 <= d <= DaysInMonth(y, m)
    ensures DayOfYear(DayNumber(y, m, d), y)
  {
    YearLength(y);
    DaysBeforeMonthBound(y, m);
  }

  lemma DaysBeforeMonthBound(y: int, m: int)
    requires 1 <= m <= 12
    ensures DaysBeforeMonth(y, m) + DaysInMonth(y, m) <= DaysInYear(y)
  {
  }

  /** For a real calendar date the constructor's year is the year as written, after the 0-99 rule. */
  lemma DateYearOfCalendarDate(year: int, month: int, day: int)
    requires IsCalendarDate(MakeFullYear(year), month, day)
    ensures DateYear(year, month, day) == MakeFullYear(year)
  {
  }
}
