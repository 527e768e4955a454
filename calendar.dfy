/**
 * Proleptic Gregorian dates and whole-second instants, as Python's
 * `datetime` handles them for years 1 to 9999.
 *
 * An instant is represented by the number of seconds since the day before
 * 0001-01-01 (`Seconds`), so that the script's `timedelta` arithmetic is
 * integer addition. `SecondsOrder` shows that comparing these integers is
 * the same as comparing the `datetime` values field by field.
 */
module Calendar {
  import opened Wrappers


  datatype Date = Date(year: int, month: int, day: int)

  datatype DateTime = DateTime(date: Date, hour: int, minute: int, second: int)

  const MaxDate := Date(9999, 12, 31)

  /** `d` is 9999-12-31, the last day `datetime` can represent (compared field by field). */
  predicate IsMaxDate(d: Date) {
    d.year == 9999 && d.month == 12 && d.day == 31
  }

  predicate LeapYear(y: int) {
    y % 4 == 0 && (y % 100 != 0 || y % 400 == 0)
  }

  function DaysInMonth(y: int, m: int): (n: int)
    requires 1 <= m <= 12
    ensures 28 <= n <= 31
  {
    if m == 2 then (if LeapYear(y) then 29 else 28)
    else if m == 4 || m == 6 || m == 9 || m == 11 then 30
    else 31
  }

  predicate ValidDate(d: Date) {
    1 <= d.year <= 9999 && 1 <= d.month <= 12 && 1 <= d.day <= DaysInMonth(d.year, d.month)
  }

  predicate ValidTime(t: DateTime) {
    0 <= t.hour < 24 && 0 <= t.minute < 60 && 0 <= t.second < 60
  }

  predicate ValidDateTime(t: DateTime) {
    ValidDate(t.date) && ValidTime(t)
  }

  /** Days of year `y` before the first day of month `m` (m == 13: the whole year). */
  function DaysBeforeMonth(y: int, m: int): nat
    requires 1 <= m <= 13
  {
    [0, 31, 59, 90, 120, 151, 181, 212, 243, 273, 304, 334, 365][m - 1]
      + (if m > 2 && LeapYear(y) then 1 else 0)
  }

  function YearLength(y: int): nat {
    DaysBeforeMonth(y, 13)
  }

  /** Days before 1 January of year `y`, counted from 0001-01-01 (Python's closed form). */
  function DaysBeforeYear(y: int): int
    requires y >= 1
  {
    var x := y - 1;
    x * 365 + x / 4 - x / 100 + x / 400
  }

  /** Python's `date.toordinal()`: 0001-01-01 is day 1. */
  function Ordinal(d: Date): int
    requires ValidDate(d)
  {
    DaysBeforeYear(d.year) + DaysBeforeMonth(d.year, d.month) + d.day
  }

  function TimeOfDay(t: DateTime): int {
    t.hour * 3600 + t.minute * 60 + t.second
  }

  function Seconds(t: DateTime): int
    requires ValidDateTime(t)
  {
    Ordinal(t.date) * 86400 + TimeOfDay(t)
  }

  function Midnight(d: Date): DateTime {
    DateTime(d, 0, 0, 0)
  }

  function LastSecond(d: Date): DateTime {
    DateTime(d, 23, 59, 59)
  }

  /** Field-by-field comparison of dates, as Python compares them. */
  predicate DateBefore(a: Date, b: Date) {
    a.year < b.year
    || (a.year == b.year && a.month < b.month)
    || (a.year == b.year && a.month == b.month && a.day < b.day)
  }

  /** Python's `a < b` on naive `datetime` values without microseconds. */
  predicate Before(a: DateTime, b: DateTime) {
    DateBefore(a.date, b.date)
    || (a.date == b.date && a.hour < b.hour)
    || (a.date == b.date && a.hour == b.hour && a.minute < b.minute)
    || (a.date == b.date && a.hour == b.hour && a.minute == b.minute && a.second < b.second)
  }

  function NextDay(d: Date): Date
    requires ValidDate(d)
  {
    if d.day < DaysInMonth(d.year, d.month) then Date(d.year, d.month, d.day + 1)
    else if d.month < 12 then Date(d.year, d.month + 1, 1)
    else Date(d.year + 1, 1, 1)
  }

  /** The earliest instant `datetime` can hold, 0001-01-01 00:00:00, in seconds. */
  const MinInstant: int := 86400

  /**
   * The latest whole-second instant `datetime` can hold, 9999-12-31 23:59:59,
   * in seconds: day 3652059 times 86400, plus 86399.
   */
  const MaxInstant: int := 315537983999

  /** `t + timedelta(seconds=delta)`; None where Python raises OverflowError. */
  function AddSeconds(t: int, delta: int): Option<int> {
    if MinInstant <= t + delta <= MaxInstant then Some(t + delta) else None
  }

  /**
   * The `--end` bound: the day at midnight, plus one day, minus one second.
   * None where adding the day overflows.
   */
  function EndOfDay(d: Date): Option<int>
    requires ValidDate(d)
  {
    match AddSeconds(Seconds(Midnight(d)), 86400)
    case None => None
    case Some(t) => AddSeconds(t, -1)
  }

  // ---------------------------------------------------------------------
  // Lemmas

  /** Each month starts where the previous one ends. */
  lemma MonthStep(y: int, m: int)
    requires 1 <= m <= 12
    ensures DaysBeforeMonth(y, m + 1) == DaysBeforeMonth(y, m) + DaysInMonth(y, m)
  {
  }

  lemma MonthsBefore(y: int, m: int, m': int)
    requires 1 <= m <= 12 && m < m' <= 13
    ensures DaysBeforeMonth(y, m) + DaysInMonth(y, m) <= DaysBeforeMonth(y, m')
  {
    MonthStep(y, m);
  }

  /** The closed form advances by the length of each year. */
  lemma YearStep(y: int)
    requires y >= 1
    ensures DaysBeforeYear(y + 1) == DaysBeforeYear(y) + YearLength(y)
  {
    QuotientStep(y, 4);
    QuotientStep(y, 100);
    QuotientStep(y, 400);
    assert DaysBeforeYear(y + 1) == y * 365 + y / 4 - y / 100 + y / 400;
    assert DaysBeforeYear(y) == (y - 1) * 365 + (y - 1) / 4 - (y - 1) / 100 + (y - 1) / 400;
    assert YearLength(y) == 365 + if LeapYear(y) then 1 else 0;
  }

  /** The quotient by each leap-year period grows by one exactly at its multiples. */
  lemma QuotientStep(y: int, k: int)
    requires y >= 1 && (k == 4 || k == 100 || k == 400)
    ensures y / k - (y - 1) / k == if y % k == 0 then 1 else 0
  {
    if k == 4 {
      assert y / 4 - (y - 1) / 4 == if y % 4 == 0 then 1 else 0;
    } else if k == 100 {
      assert y / 100 - (y - 1) / 100 == if y % 100 == 0 then 1 else 0;
    } else {
      assert y / 400 - (y - 1) / 400 == if y % 400 == 0 then 1 else 0;
    }
  }

  lemma {:induction false} YearsBefore(y: int, y': int)
    requires 1 <= y < y'
    ensures DaysBeforeYear(y) + YearLength(y) <= DaysBeforeYear(y')
    decreases y'
  {
    YearStep(y' - 1);
    if y' > y + 1 {
      YearsBefore(y, y' - 1);
    }
  }

  /** A valid day lies within its year. */
  lemma DayWithinYear(d: Date)
    requires ValidDate(d)
    ensures DaysBeforeMonth(d.year, d.month) + d.day <= YearLength(d.year)
  {
    MonthsBefore(d.year, d.month, 13);
  }

  lemma OrdinalPositive(d: Date)
    requires ValidDate(d)
    ensures Ordinal(d) >= 1
  {
    assert DaysBeforeYear(1) == 0;
    if d.year > 1 {
      YearsBefore(1, d.year);
    }
  }

  /** Ordinals follow the field-by-field order of dates. */
  lemma OrdinalOrder(a: Date, b: Date)
    requires ValidDate(a) && ValidDate(b) && DateBefore(a, b)
    ensures Ordinal(a) < Ordinal(b)
  {
    if a.year < b.year {
      DayWithinYear(a);
      YearsBefore(a.year, b.year);
    } else if a.month < b.month {
      MonthsBefore(a.year, a.month, b.month);
    }
  }

  lemma DateTrichotomy(a: Date, b: Date)
    ensures a == b || DateBefore(a, b) || DateBefore(b, a)
  {
  }

  lemma BeforeImpliesFewerSeconds(a: DateTime, b: DateTime)
    requires ValidDateTime(a) && ValidDateTime(b) && Before(a, b)
    ensures Seconds(a) < Seconds(b)
  {
    if DateBefore(a.date, b.date) {
      OrdinalOrder(a.date, b.date);
    }
  }

  /**
   * Comparing instants as seconds agrees with comparing the `datetime`
   * values, and distinct valid date-times have distinct seconds.
   */
  lemma SecondsOrder(a: DateTime, b: DateTime)
    requires ValidDateTime(a) && ValidDateTime(b)
    ensures Seconds(a) < Seconds(b) <==> Before(a, b)
    ensures Seconds(a) == Seconds(b) <==> a == b
  {
    if Before(a, b) {
      BeforeImpliesFewerSeconds(a, b);
    } else if Before(b, a) {
      BeforeImpliesFewerSeconds(b, a);
    } else {
      DateTrichotomy(a.date, b.date);
      assert a.date == b.date;
      assert a == b;
    }
  }

  /** The day after a valid date other than the last one is valid and one ordinal later. */
  lemma NextDayOrdinal(d: Date)
    requires ValidDate(d) && !IsMaxDate(d)
    ensures ValidDate(NextDay(d)) && Ordinal(NextDay(d)) == Ordinal(d) + 1
  {
    if d.day < DaysInMonth(d.year, d.month) {
    } else if d.month < 12 {
      MonthStep(d.year, d.month);
    } else {
      YearStep(d.year);
      MonthStep(d.year, 12);
    }
  }

  /** Every valid date is at most 9999-12-31. */
  lemma AtMostMaxDate(d: Date)
    requires ValidDate(d)
    ensures d == MaxDate || DateBefore(d, MaxDate)
  {
  }

  /** Python's `date.max.toordinal()`. */
  lemma MaxOrdinal()
    ensures Ordinal(MaxDate) == 3652059
  {
  }

  /** Every valid date-time lies between the two extreme instants, which it reaches. */
  lemma InstantBounds(t: DateTime)
    requires ValidDateTime(t)
    ensures MinInstant <= Seconds(t) <= MaxInstant
    ensures t.date == Date(1, 1, 1) && TimeOfDay(t) == 0 ==> Seconds(t) == MinInstant
    ensures t == LastSecond(MaxDate) ==> Seconds(t) == MaxInstant
  {
    OrdinalPositive(t.date);
    MaxOrdinal();
    AtMostMaxDate(t.date);
    if t.date != MaxDate {
      OrdinalOrder(t.date, MaxDate);
    }
    if t.date == Date(1, 1, 1) {
      assert Ordinal(t.date) == 1;
    }
  }

  /** Adding one day to midnight of 9999-12-31 leaves the representable range. */
  lemma NextMidnightOverflows(d: Date)
    requires ValidDate(d) && IsMaxDate(d)
    ensures Seconds(Midnight(d)) + 86400 > MaxInstant
    ensures EndOfDay(d).None?
  {
    MaxOrdinal();
  }

  /** On every other day, midnight of the next day is representable. */
  lemma NextMidnightInRange(d: Date)
    requires ValidDate(d) && !IsMaxDate(d)
    ensures MinInstant <= Seconds(Midnight(d)) + 86400 <= MaxInstant
  {
    OrdinalPositive(d);
    AtMostMaxDate(d);
    MaxOrdinal();
    OrdinalOrder(d, MaxDate);
  }

  /** Normalising `--end` fails only for 9999-12-31, where Python raises OverflowError. */
  lemma EndOfDayFails(d: Date)
    requires ValidDate(d)
    ensures EndOfDay(d).None? <==> IsMaxDate(d)
  {
    if IsMaxDate(d) {
      NextMidnightOverflows(d);
    } else {
      EndOfDayIsLastSecond(d);
    }
  }

  /**
   * Otherwise the normalised `--end` bound is 23:59:59 of the given day: it
   * is at or after every instant of that day and one second before the
   * next day begins.
   */
  lemma EndOfDayIsLastSecond(d: Date)
    requires ValidDate(d) && !IsMaxDate(d)
    ensures EndOfDay(d) == Some(Seconds(LastSecond(d)))
    ensures forall t :: ValidDateTime(t) && t.date == d ==> Seconds(t) <= Seconds(LastSecond(d))
    ensures Seconds(LastSecond(d)) + 1 == Seconds(Midnight(NextDay(d)))
  {
    hide DaysBeforeYear, DaysBeforeMonth;
    NextMidnightInRange(d);
    OrdinalPositive(d);
    NextDayOrdinal(d);
  }
}
