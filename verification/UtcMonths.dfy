/** The months of the proleptic Gregorian calendar in UTC, as instants (section 21.4.1 of ECMA-262). */
module UtcMonths {
  const DAY_MS: int := 24 * 60 * 60 * 1000

  // ---- the calendar

  predicate Leap(y: int) {
    (y % 4 == 0 && y % 100 != 0) || y % 400 == 0
  }

  /** The day, counted from 1970-01-01, on which a year of the proleptic Gregorian calendar starts. */
  function DayFromYear(y: int): int {
    365 * (y - 1970) + (y - 1969) / 4 - (y - 1901) / 100 + (y - 1601) / 400
  }

  /** The days of a year before its month m, counted from 0. */
  function DaysBefore(m: int, leap: bool): (days: int)
    requires 0 <= m <= 12
    ensures m < 12 ==> 28 <= DaysBefore(m + 1, leap) - days <= 31
    decreases 12 - m
  {
    var extra := if leap && m >= 2 then 1 else 0;
    [0, 31, 59, 90, 120, 151, 181, 212, 243, 273, 304, 334, 365][m] + extra
  }

  lemma Quotients(x: int)
    ensures (x + 1) / 4 - x / 4 == if (x + 1) % 4 == 0 then 1 else 0
    ensures (x + 1) / 100 - x / 100 == if (x + 1) % 100 == 0 then 1 else 0
    ensures (x + 1) / 400 - x / 400 == if (x + 1) % 400 == 0 then 1 else 0
  {
  }

  lemma SameRemainders(y: int)
    ensures (y - 1968) % 4 == y % 4
    ensures (y - 1900) % 100 == y % 100
    ensures (y - 1600) % 400 == y % 400
  {
    assert y - 1968 == 4 * (y / 4 - 492) + y % 4;
    assert y - 1900 == 100 * (y / 100 - 19) + y % 100;
    assert y - 1600 == 400 * (y / 400 - 4) + y % 400;
  }

  lemma YearDifference(y: int)
    ensures DayFromYear(y + 1) - DayFromYear(y)
         == 365 + (if y % 4 == 0 then 1 else 0) - (if y % 100 == 0 then 1 else 0) + (if y % 400 == 0 then 1 else 0)
  {
    Quotients(y - 1969);
    Quotients(y - 1901);
    Quotients(y - 1601);
    SameRemainders(y);
  }

  lemma Centuries(y: int)
    ensures (y % 400 == 0 ==> y % 100 == 0) && (y % 100 == 0 ==> y % 4 == 0)
  {
  }

  /** A year has 366 days exactly when it is a leap year, and 365 otherwise. */
  lemma YearLength(y: int)
    ensures DayFromYear(y + 1) - DayFromYear(y) == DaysBefore(12, Leap(y)) == if Leap(y) then 366 else 365
  {
    YearDifference(y);
    Centuries(y);
  }

  /** The first day of month m of year y; month 12 is January of the next. */
  function MonthDay(y: int, m: int): int
    requires 0 <= m <= 12
  {
    DayFromYear(y) + DaysBefore(m, Leap(y))
  }

  /** The first instant of month k, months counted from January of year 0. */
  function MonthStart(k: int): int {
    MonthDay(k / 12, k % 12) * DAY_MS
  }

  lemma NextMonth(k: int)
    ensures MonthDay((k + 1) / 12, (k + 1) % 12) == MonthDay(k / 12, k % 12 + 1)
  {
    var y, m := k / 12, k % 12;
    if m < 11 {
      assert (k + 1) / 12 == y && (k + 1) % 12 == m + 1;
    } else {
      assert (k + 1) / 12 == y + 1 && (k + 1) % 12 == 0;
      YearLength(y);
    }
  }

  lemma InMilliseconds(from: int, to: int)
    ensures to * DAY_MS - from * DAY_MS == 86_400_000 * (to - from)
  {
  }

  /** Every month is as long as the calendar says, in milliseconds. */
  lemma MonthLength(k: int)
    ensures var y, m := k / 12, k % 12;
            MonthStart(k + 1) - MonthStart(k)
            == 86_400_000 * (if m == 1 then (if (y % 4 == 0 && y % 100 != 0) || y % 400 == 0 then 29 else 28)
                             else if m == 3 || m == 5 || m == 8 || m == 10 then 30 else 31)
  {
    NextMonth(k);
    InMilliseconds(MonthDay(k / 12, k % 12), MonthDay(k / 12, k % 12 + 1));
  }

  /** Time is counted from the first instant of January 1970. */
  lemma Epoch()
    ensures MonthStart(12 * 1970) == 0
  {
    assert 12 * 1970 / 12 == 1970 && 12 * 1970 % 12 == 0;
  }
}
