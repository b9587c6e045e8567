/**
 * Gregorian calendar arithmetic behind `new Date(year, monthIndex, day)`, which
 * the budget and transaction repositories use to bound a month.
 * Dates are local calendar dates with JavaScript's zero-based month index.
 */
module Calendar {
  import opened Common

  datatype CivilDate = CivilDate(year: int, month: int, day: int)

  predicate IsLeapYear(year: int) {
    (year % 4 == 0 && year % 100 != 0) || year % 400 == 0
  }

  function DaysInMonth(year: int, month: int): (n: int)
    requires 0 <= month < 12
    ensures 28 <= n <= 31
    ensures month == 1 ==> (n == 29 <==> IsLeapYear(year))
  {
    if month == 1 then (if IsLeapYear(year) then 29 else 28)
    else if month == 3 || month == 5 || month == 8 || month == 10 then 30
    else 31
  }

  predicate IsValidDate(d: CivilDate) {
    0 <= d.month < 12 && 1 <= d.day <= DaysInMonth(d.year, d.month)
  }

  /** What a JavaScript Date's local getters can report. */
  type Date = d: CivilDate | IsValidDate(d) witness CivilDate(1970, 0, 1)

  /**
   * A day number that may lie outside the month rolls into the neighbouring
   * months, one month at a time, as the Date constructor does.
   */
  function Normalize(year: int, month: int, day: int): (d: Date)
    requires 0 <= month < 12
    ensures 1 <= day <= DaysInMonth(year, month) ==> d == CivilDate(year, month, day)
    decreases if day < 1 then 1 - day else 0, if day < 1 then 0 else day
  {
    if day < 1 then
      var py := if month == 0 then year - 1 else year;
      var pm := if month == 0 then 11 else month - 1;
      Normalize(py, pm, day + DaysInMonth(py, pm))
    else if day > DaysInMonth(year, month) then
      var ny := if month == 11 then year + 1 else year;
      var nm := if month == 11 then 0 else month + 1;
      Normalize(ny, nm, day - DaysInMonth(year, month))
    else
      CivilDate(year, month, day)
  }

  /** `new Date(year, monthIndex, day)`: the month index rolls into the year first. */
  function NewDate(year: int, monthIndex: int, day: int): (d: Date)
    ensures 0 <= monthIndex < 12 && 1 <= day <= DaysInMonth(year, monthIndex) ==> d == CivilDate(year, monthIndex, day)
  {
    Normalize(year + monthIndex / 12, monthIndex % 12, day)
  }

  /** Day 0 of the month after `d`'s month is the last day of `d`'s month. */
  lemma DayZeroOfNextMonth(d: Date)
    ensures NewDate(d.year, d.month + 1, 0) == CivilDate(d.year, d.month, DaysInMonth(d.year, d.month))
  {
    var y, m := d.year, d.month;
    if m == 11 {
      assert (m + 1) / 12 == 1 && (m + 1) % 12 == 0;
      assert NewDate(y, m + 1, 0) == Normalize(y + 1, 0, 0);
      assert Normalize(y + 1, 0, 0) == Normalize(y, 11, DaysInMonth(y, 11));
    } else {
      assert (m + 1) / 12 == 0 && (m + 1) % 12 == m + 1;
      assert NewDate(y, m + 1, 0) == Normalize(y, m + 1, 0);
      assert Normalize(y, m + 1, 0) == Normalize(y, m, DaysInMonth(y, m));
    }
  }

  /** `new Date(month.getFullYear(), month.getMonth(), 1)` */
  function StartOfMonth(d: Date): (r: Date)
    ensures r == CivilDate(d.year, d.month, 1)
  {
    assert d.month / 12 == 0 && d.month % 12 == d.month;
    NewDate(d.year, d.month, 1)
  }

  /** `new Date(month.getFullYear(), month.getMonth() + 1, 0)`: the last calendar day of the month. */
  function EndOfMonth(d: Date): (r: Date)
    ensures r.year == d.year && r.month == d.month
    ensures r.day == DaysInMonth(d.year, d.month) && 28 <= r.day
    ensures forall e: Date | e.year == d.year && e.month == d.month :: e.day <= r.day
  {
    DayZeroOfNextMonth(d);
    NewDate(d.year, d.month + 1, 0)
  }

  /** The first and the last day of a month are never the same day. */
  lemma StartIsNotEnd(d: Date)
    ensures StartOfMonth(d) != EndOfMonth(d)
  {
  }

  // ----- Instants of local midnights (time zones are not modelled: local time is UTC) -----

  const MsPerDay: int := 86_400_000

  function DaysBeforeMonth(year: int, month: int): (n: int)
    requires 0 <= month <= 12
    ensures 28 * month <= n <= 31 * month
    ensures month <= 1 ==> n == 31 * month
  {
    if month == 0 then 0 else DaysBeforeMonth(year, month - 1) + DaysInMonth(year, month - 1)
  }

  function LeapDaysBefore(year: int): int {
    (year - 1) / 4 - (year - 1) / 100 + (year - 1) / 400
  }

  /** Days from 1970-01-01 to `d` in the proleptic Gregorian calendar. */
  function DayNumber(d: Date): int {
    365 * (d.year - 1970) + LeapDaysBefore(d.year) - LeapDaysBefore(1970)
      + DaysBeforeMonth(d.year, d.month) + d.day - 1
  }

  /** The instant at which the local day `d` begins. */
  function MidnightOf(d: Date): Instant {
    DayNumber(d) * MsPerDay
  }

  /** Every instant of the local days of `d`'s month. */
  predicate InMonth(t: Instant, d: Date) {
    MidnightOf(StartOfMonth(d)) <= t < MidnightOf(EndOfMonth(d)) + MsPerDay
  }

  /** Consecutive days of one month begin one day apart. */
  lemma MidnightsWithinMonth(d: Date)
    ensures MidnightOf(EndOfMonth(d))
         == MidnightOf(StartOfMonth(d)) + (DaysInMonth(d.year, d.month) - 1) * MsPerDay
  {
  }

  /**
   * The instants `new Date(y, m, 1)` and `new Date(y, m + 1, 0)` denote: the
   * midnights that begin the first and the last day of `d`'s month.
   */
  function MonthMidnights(d: Date): (r: (Instant, Instant))
    ensures r.0 < r.1
    ensures r.1 - r.0 == (DaysInMonth(d.year, d.month) - 1) * MsPerDay
    ensures InMonth(r.0, d) && InMonth(r.1, d)
  {
    MidnightsWithinMonth(d);
    (MidnightOf(StartOfMonth(d)), MidnightOf(EndOfMonth(d)))
  }

  /** Every instant of `d`'s month, first millisecond to last, as one inclusive range. */
  function MonthSpan(d: Date): (r: (Instant, Instant))
    ensures forall t: Instant :: r.0 <= t <= r.1 <==> InMonth(t, d)
  {
    (MidnightOf(StartOfMonth(d)), MidnightOf(EndOfMonth(d)) + MsPerDay - 1)
  }

  /**
   * The two midnights cover all but the last day of the month: the last day's
   * instants after its midnight, which the month's span keeps, fall outside.
   */
  lemma MidnightsMissTheLastDay(d: Date)
    ensures MonthSpan(d).0 == MonthMidnights(d).0
    ensures MonthSpan(d).1 == MonthMidnights(d).1 + MsPerDay - 1
    ensures InMonth(MonthMidnights(d).1 + 1, d) && MonthMidnights(d).1 + 1 > MonthMidnights(d).1
  {
  }

  // ----- Anchors tying the day count to the calendar -----

  /** The count starts at the epoch: 1 January 1970 is day 0. */
  lemma EpochIsDayZero()
    ensures DayNumber(CivilDate(1970, 0, 1)) == 0
  {
  }

  /** The twelve months of a year add up to 365 days, 366 in a leap year. */
  lemma YearLength(year: int)
    ensures DaysBeforeMonth(year, 12) == 365 + (if IsLeapYear(year) then 1 else 0)
  {
    assert DaysBeforeMonth(year, 1) == DaysBeforeMonth(year, 0) + DaysInMonth(year, 0);
    assert DaysBeforeMonth(year, 2) == DaysBeforeMonth(year, 1) + DaysInMonth(year, 1);
    assert DaysBeforeMonth(year, 3) == DaysBeforeMonth(year, 2) + DaysInMonth(year, 2);
    assert DaysBeforeMonth(year, 4) == DaysBeforeMonth(year, 3) + DaysInMonth(year, 3);
    assert DaysBeforeMonth(year, 5) == DaysBeforeMonth(year, 4) + DaysInMonth(year, 4);
    assert DaysBeforeMonth(year, 6) == DaysBeforeMonth(year, 5) + DaysInMonth(year, 5);
    assert DaysBeforeMonth(year, 7) == DaysBeforeMonth(year, 6) + DaysInMonth(year, 6);
    assert DaysBeforeMonth(year, 8) == DaysBeforeMonth(year, 7) + DaysInMonth(year, 7);
    assert DaysBeforeMonth(year, 9) == DaysBeforeMonth(year, 8) + DaysInMonth(year, 8);
    assert DaysBeforeMonth(year, 10) == DaysBeforeMonth(year, 9) + DaysInMonth(year, 9);
    assert DaysBeforeMonth(year, 11) == DaysBeforeMonth(year, 10) + DaysInMonth(year, 10);
    assert DaysBeforeMonth(year, 12) == DaysBeforeMonth(year, 11) + DaysInMonth(year, 11);
  }

  /** Stepping over a multiple of `k` raises `y / k` by one; any other step leaves it. */
  lemma DivStep(y: int, k: int)
    requires k == 4 || k == 100 || k == 400
    ensures y / k - (y - 1) / k == (if y % k == 0 then 1 else 0)
  {
    if k == 4 {
      assert y / 4 - (y - 1) / 4 == (if y % 4 == 0 then 1 else 0);
    } else if k == 100 {
      assert y / 100 - (y - 1) / 100 == (if y % 100 == 0 then 1 else 0);
    } else {
      assert y / 400 - (y - 1) / 400 == (if y % 400 == 0 then 1 else 0);
    }
  }

  /** The leap days before a year grow by one exactly across a leap year. */
  lemma LeapDayStep(year: int)
    ensures LeapDaysBefore(year + 1) == LeapDaysBefore(year) + (if IsLeapYear(year) then 1 else 0)
  {
    DivStep(year, 4);
    DivStep(year, 100);
    DivStep(year, 400);
    if year % 100 == 0 {
      var q := year / 100;
      assert year == 4 * (25 * q);
    }
    if year % 400 == 0 {
      var q := year / 400;
      assert year == 100 * (4 * q);
    }
  }

  /**
   * Consecutive months meet: the day after a month's last day is the first
   * day of the next month, December included, so the months' spans tile the
   * time line with neither gap nor overlap.
   */
  lemma MonthsMeet(d: Date)
    ensures MonthSpan(NewDate(d.year, d.month + 1, 1)).0 == MonthSpan(d).1 + 1
    ensures forall t: Instant :: InMonth(t, d) ==> !InMonth(t, NewDate(d.year, d.month + 1, 1))
  {
    var next := NewDate(d.year, d.month + 1, 1);
    if d.month == 11 {
      assert (d.month + 1) / 12 == 1 && (d.month + 1) % 12 == 0;
      assert next == CivilDate(d.year + 1, 0, 1);
      YearLength(d.year);
      LeapDayStep(d.year);
    } else {
      assert (d.month + 1) / 12 == 0 && (d.month + 1) % 12 == d.month + 1;
      assert next == CivilDate(d.year, d.month + 1, 1);
    }
    assert StartOfMonth(next) == next;
    assert DayNumber(next) == DayNumber(EndOfMonth(d)) + 1;
  }

  /** The Gregorian leap-year rule: every fourth year, except centuries not divisible by 400. */
  lemma LeapYearRule()
    ensures IsLeapYear(2024) && !IsLeapYear(2023)
    ensures !IsLeapYear(1900) && !IsLeapYear(2100) && IsLeapYear(2000)
  {
  }

  /** Day numbers of dates whose distance from the epoch is known independently. */
  lemma KnownDayNumbers()
    ensures DayNumber(CivilDate(1969, 11, 31)) == -1
    ensures DayNumber(CivilDate(2000, 0, 1)) == 10957
    ensures DayNumber(CivilDate(2024, 2, 1)) == 19783
  {
    assert LeapDaysBefore(1970) == 477;
    assert LeapDaysBefore(1969) == 477;
    assert LeapDaysBefore(2000) == 484;
    assert LeapDaysBefore(2024) == 490;
    assert DaysBeforeMonth(1969, 11) == 334 by {
      assert DaysBeforeMonth(1969, 2) == 59;
      assert DaysBeforeMonth(1969, 3) == 90;
      assert DaysBeforeMonth(1969, 4) == 120;
      assert DaysBeforeMonth(1969, 5) == 151;
      assert DaysBeforeMonth(1969, 6) == 181;
      assert DaysBeforeMonth(1969, 7) == 212;
      assert DaysBeforeMonth(1969, 8) == 243;
      assert DaysBeforeMonth(1969, 9) == 273;
      assert DaysBeforeMonth(1969, 10) == 304;
    }
    assert DaysBeforeMonth(2024, 2) == 60;
  }

  /** Every instant of every local day of a month lies in that month. */
  lemma DaysFillTheMonth(d: Date)
    ensures forall t: Instant :: MidnightOf(d) <= t < MidnightOf(d) + MsPerDay ==> InMonth(t, d)
  {
    assert DayNumber(StartOfMonth(d)) <= DayNumber(d) <= DayNumber(EndOfMonth(d));
  }
}
