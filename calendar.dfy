/** The calendar arithmetic behind JavaScript's `Date.UTC` (ECMA-262, sections
    21.4.1.3 "Year Number", 21.4.1.4 "Month Number", 21.4.1.28 "MakeDay" and
    21.4.4.4 "Date.UTC"), on integers. Months are numbered from 0 as in
    JavaScript; days are counted from 1970-01-01. */
module Calendar {

  const SecondsPerDay: int := 24 * 60 * 60

  predicate IsLeapYear(y: int) {
    y % 4 == 0 && (y % 100 != 0 || y % 400 == 0)
  }

  function DaysInYear(y: int): int {
    if IsLeapYear(y) then 366 else 365
  }

  /** DayFromYear of ECMA-262: the day number of January 1 of year `y`. */
  function DayFromYear(y: int): int {
    365 * (y - 1970) + (y - 1969) / 4 - (y - 1901) / 100 + (y - 1601) / 400
  }

  function DaysInMonth(y: int, m: int): int
    requires 0 <= m < 12
  {
    if m == 1 then (if IsLeapYear(y) then 29 else 28)
    else if m == 3 || m == 5 || m == 8 || m == 10 then 30
    else 31
  }

  /** The number of days of year `y` before the first of month `m`. */
  function DaysBeforeMonth(y: int, m: int): int
    requires 0 <= m < 12
  {
    var common :=
      match m
      case 0 => 0 case 1 => 31 case 2 => 59 case 3 => 90 case 4 => 120 case 5 => 151
      case 6 => 181 case 7 => 212 case 8 => 243 case 9 => 273 case 10 => 304 case _ => 334;
    if m >= 2 && IsLeapYear(y) then common + 1 else common
  }

  /** MakeDay(year, month, date) for integer arguments: months outside 0..11
      carry into the year, and the date is an offset from the first of the
      month, so it may run past the month's end. */
  function MakeDay(year: int, month: int, date: int): int {
    var ym := year + month / 12;
    var mn := month % 12;
    DayFromYear(ym) + DaysBeforeMonth(ym, mn) + date - 1
  }

  /** `Date.UTC(year, month, date) / 1000`: seconds since the epoch of midnight
      UTC on that date. A year from 0 to 99 stands for 1900 to 1999. */
  function DateUtcSeconds(year: int, month: int, date: int): int {
    var y := if 0 <= year <= 99 then 1900 + year else year;
    MakeDay(y, month, date) * SecondsPerDay
  }

  /** Every instant `Date.UTC` gives for a date is a midnight UTC. */
  lemma DateUtcIsMidnight(year: int, month: int, date: int)
    ensures DateUtcSeconds(year, month, date) % SecondsPerDay == 0
  {
  }

  /** Day numbering starts on 1970-01-01. */
  lemma EpochIsDayZero()
    ensures DateUtcSeconds(1970, 0, 1) == 0
  {
    assert 0 / 12 == 0 && 0 % 12 == 0;
    assert 1 / 4 == 0 && 69 / 100 == 0 && 369 / 400 == 0;
    assert DayFromYear(1970) == 0;
    assert MakeDay(1970, 0, 1) == 0;
    assert DateUtcSeconds(1970, 0, 1) == MakeDay(1970, 0, 1) * SecondsPerDay;
  }

  /** ECMA-262's closed form agrees with the Gregorian leap-year rule: from
      one January 1 to the next there are exactly DaysInYear days. */
  lemma DayFromYearStep(y: int)
    ensures DayFromYear(y + 1) == DayFromYear(y) + DaysInYear(y)
  {
    var a, b, c := (y - 1969) / 4, (y - 1901) / 100, (y - 1601) / 400;
    var a', b', c' := (y - 1968) / 4, (y - 1900) / 100, (y - 1600) / 400;
    assert DayFromYear(y) == 365 * (y - 1970) + a - b + c;
    assert DayFromYear(y + 1) == 365 * (y - 1970) + 365 + a' - b' + c';
    FourYearStep(y);
    CenturyStep(y);
    FourCenturyStep(y);
  }

  lemma FourYearStep(y: int)
    ensures (y - 1968) / 4 == (y - 1969) / 4 + (if y % 4 == 0 then 1 else 0)
  {
    var q, r := (y - 1969) / 4, (y - 1969) % 4;
    assert y - 1969 == 4 * q + r && 0 <= r < 4;
    if r == 3 {
      assert y - 1968 == 4 * (q + 1) && y == 4 * (q + 493);
    } else {
      assert y - 1968 == 4 * q + (r + 1) && y == 4 * (q + 492) + (r + 1);
    }
  }

  lemma CenturyStep(y: int)
    ensures (y - 1900) / 100 == (y - 1901) / 100 + (if y % 100 == 0 then 1 else 0)
  {
    var q, r := (y - 1901) / 100, (y - 1901) % 100;
    assert y - 1901 == 100 * q + r && 0 <= r < 100;
    if r == 99 {
      assert y - 1900 == 100 * (q + 1) && y == 100 * (q + 20);
    } else {
      assert y - 1900 == 100 * q + (r + 1) && y == 100 * (q + 19) + (r + 1);
    }
  }

  lemma FourCenturyStep(y: int)
    ensures (y - 1600) / 400 == (y - 1601) / 400 + (if y % 400 == 0 then 1 else 0)
  {
    var q, r := (y - 1601) / 400, (y - 1601) % 400;
    assert y - 1601 == 400 * q + r && 0 <= r < 400;
    if r == 399 {
      assert y - 1600 == 400 * (q + 1) && y == 400 * (q + 5);
    } else {
      assert y - 1600 == 400 * q + (r + 1) && y == 400 * (q + 4) + (r + 1);
    }
  }

  /** The first of each month follows the first of the previous month by
      the length of that month, December running into January of the next
      year. */
  lemma MonthLengths(y: int, m: int)
    requires 0 <= m < 12
    ensures MakeDay(y, m + 1, 1) == MakeDay(y, m, 1) + DaysInMonth(y, m)
  {
    if m == 11 {
      assert 12 / 12 == 1 && 12 % 12 == 0 && 11 / 12 == 0 && 11 % 12 == 11;
      assert MakeDay(y, 12, 1) == DayFromYear(y + 1);
      assert MakeDay(y, 11, 1) == DayFromYear(y) + DaysBeforeMonth(y, 11);
      DayFromYearStep(y);
    } else {
      assert m / 12 == 0 && m % 12 == m && (m + 1) / 12 == 0 && (m + 1) % 12 == m + 1;
      assert MakeDay(y, m + 1, 1) == DayFromYear(y) + DaysBeforeMonth(y, m + 1);
      assert MakeDay(y, m, 1) == DayFromYear(y) + DaysBeforeMonth(y, m);
      MonthTable(y, m);
    }
  }

  /** Within a year the cumulative table grows by each month's length. */
  lemma MonthTable(y: int, m: int)
    requires 0 <= m < 11
    ensures DaysBeforeMonth(y, m + 1) == DaysBeforeMonth(y, m) + DaysInMonth(y, m)
  {
  }

  /** A day past the end of a month is the first of the next month. */
  lemma DateOverflowsIntoNextMonth(y: int, m: int)
    requires 0 <= m < 12
    ensures MakeDay(y, m, DaysInMonth(y, m) + 1) == MakeDay(y, m + 1, 1)
  {
    MonthLengths(y, m);
  }

  /** Two-digit years are read as years of the twentieth century. */
  lemma TwoDigitYears(year: int, month: int, date: int)
    requires 0 <= year <= 99
    ensures DateUtcSeconds(year, month, date) == DateUtcSeconds(1900 + year, month, date)
  {
  }

  /** The launch dates of the worked examples. */
  lemma NewYear2025()
    ensures DateUtcSeconds(2025, 0, 1) == 1735689600
  {
    assert 0 / 12 == 0 && 0 % 12 == 0;
    assert 56 / 4 == 14 && 124 / 100 == 1 && 424 / 400 == 1;
    assert DayFromYear(2025) == 20089;
    assert MakeDay(2025, 0, 1) == 20089;
  }

  lemma FirstOfDecember2024()
    ensures DateUtcSeconds(2024, 11, 1) == 1733011200
  {
    assert 11 / 12 == 0 && 11 % 12 == 11;
    assert 55 / 4 == 13 && 123 / 100 == 1 && 423 / 400 == 1;
    assert DayFromYear(2024) == 19723;
    assert IsLeapYear(2024) && DaysBeforeMonth(2024, 11) == 335;
    assert MakeDay(2024, 11, 1) == 20058;
  }

  lemma March21Of2025()
    ensures DateUtcSeconds(2025, 2, 21) == 1742515200
  {
    assert 2 / 12 == 0 && 2 % 12 == 2;
    assert 56 / 4 == 14 && 124 / 100 == 1 && 424 / 400 == 1;
    assert DayFromYear(2025) == 20089;
    assert !IsLeapYear(2025) && DaysBeforeMonth(2025, 2) == 59;
    assert MakeDay(2025, 2, 21) == 20168;
  }
}
