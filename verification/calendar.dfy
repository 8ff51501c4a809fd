/** Dates of the Gregorian calendar from 1970 on, and seconds since the start of 1970. */
module Calendar {
  import opened Bytes

  const EPOCH := 1970
  const SECONDS_PER_DAY := 86400
  const MICROSECONDS := 1_000_000
  const MONTH_DAYS := [31, 28, 31, 30, 31, 30, 31, 31, 30, 31, 30, 31]
  const MONTH_DAYS_LEAP_YEAR := [31, 29, 31, 30, 31, 30, 31, 31, 30, 31, 30, 31]

  datatype Date = Date(year: nat, month: nat, day: nat, hour: nat, min: nat, sec: nat, usec: nat)

  predicate Leap(year: int) {
    year > 0 && year % 4 == 0 && (year % 100 != 0 || year % 400 == 0)
  }

  function DaysInYear(year: int): nat {
    if Leap(year) then 366 else 365
  }

  function DaysInMonth(year: int, month: int): nat
    requires 1 <= month <= 12
  {
    if month == 2 then (if Leap(year) then 29 else 28)
    else if month == 4 || month == 6 || month == 9 || month == 11 then 30
    else 31
  }

  predicate ValidDate(d: Date) {
    && EPOCH <= d.year && 1 <= d.month <= 12 && 1 <= d.day <= DaysInMonth(d.year, d.month)
    && d.hour < 24 && d.min < 60 && d.sec < 60 && d.usec < MICROSECONDS
  }

  // ----- a date as a number -----

  /** Days from the start of 1970 to the start of `year`. */
  function YearStart(year: int): int
    decreases year
  {
    if year <= EPOCH then (year - EPOCH) * 365 else YearStart(year - 1) + DaysInYear(year - 1)
  }

  /** Days from the start of the year to the start of `month`. */
  function MonthStart(year: int, month: int): nat
    requires month <= 13
    decreases month
  {
    if month <= 1 then 0 else MonthStart(year, month - 1) + DaysInMonth(year, month - 1)
  }

  function Day(d: Date): int
    requires d.month <= 13
  {
    YearStart(d.year) + MonthStart(d.year, d.month) + d.day - 1
  }

  function Seconds(d: Date): int
    requires d.month <= 13
  {
    Day(d) * SECONDS_PER_DAY + d.hour * 3600 + d.min * 60 + d.sec
  }

  function Micros(d: Date): int
    requires d.month <= 13
  {
    Seconds(d) * MICROSECONDS + d.usec
  }

  lemma {:induction false} TablesAgree(year: int, month: int)
    requires 1 <= month <= 12
    ensures DaysInMonth(year, month) == if Leap(year) then MONTH_DAYS_LEAP_YEAR[month - 1] else MONTH_DAYS[month - 1]
  {
  }

  lemma {:induction false} YearHasItsMonths(year: int)
    ensures MonthStart(year, 13) == DaysInYear(year)
  {
    assert MonthStart(year, 3) == 31 + DaysInMonth(year, 2);
    assert MonthStart(year, 6) == MonthStart(year, 3) + 92;
    assert MonthStart(year, 9) == MonthStart(year, 6) + 92;
    assert MonthStart(year, 12) == MonthStart(year, 9) + 91;
  }

  /** The sum is taken modulo 2^32, like the source's 32-bit counter. */
  method UtcFromDateTime(year: uint16, month: uint8, day: uint8, hour: uint8, minute: uint8, second: uint8)
    returns (seconds: uint32)
    requires month <= 13
    ensures seconds == Seconds(Date(year, month, day, hour, minute, second, 0)) % 0x1_0000_0000
  {
    var total := (year - EPOCH) * (SECONDS_PER_DAY * 365);
    var i: int := EPOCH;
    while i < year
      invariant EPOCH <= i && (i <= year || i == EPOCH)
      invariant total == (year - EPOCH) * (SECONDS_PER_DAY * 365) + (YearStart(i) - (i - EPOCH) * 365) * SECONDS_PER_DAY
    {
      if Leap(i) {
        total := total + SECONDS_PER_DAY;
      }
      i := i + 1;
    }
    assert total == YearStart(year) * SECONDS_PER_DAY;
    i := 1;
    while i < month
      invariant 1 <= i && (i <= month || i == 1)
      invariant total == (YearStart(year) + MonthStart(year, i)) * SECONDS_PER_DAY
    {
      if i == 2 && Leap(year) {
        total := total + SECONDS_PER_DAY * 29;
      } else {
        TablesAgree(year, i);
        total := total + SECONDS_PER_DAY * MONTH_DAYS[i - 1];
      }
      i := i + 1;
    }
    total := total + (day - 1) * SECONDS_PER_DAY + hour * 3600 + minute * 60 + second;
    seconds := total % 0x1_0000_0000;
  }

  // ----- a number as a date -----

  datatype Part = Part(index: nat, rest: nat)

  /** The year that day number `days`, counted from the start of `year`, falls in. */
  function YearOf(days: nat, year: nat): (p: Part)
    requires year >= EPOCH
    ensures p.index >= year && p.rest < DaysInYear(p.index)
    ensures YearStart(p.index) + p.rest == YearStart(year) + days
    decreases days
  {
    if days < DaysInYear(year) then Part(year, days) else YearOf(days - DaysInYear(year), year + 1)
  }

  /** The month that day number `days`, counted from the start of `month`, falls in. */
  function MonthOf(days: nat, year: nat, month: nat): (p: Part)
    requires 1 <= month <= 12 && MonthStart(year, month) + days < DaysInYear(year)
    ensures month <= p.index <= 12 && p.rest < DaysInMonth(year, p.index)
    ensures MonthStart(year, p.index) + p.rest == MonthStart(year, month) + days
    decreases days
  {
    YearHasItsMonths(year);
    if days < DaysInMonth(year, month) then Part(month, days) else MonthOf(days - DaysInMonth(year, month), year, month + 1)
  }

  function DateOf(utcUs: nat): Date {
    var days, secs := utcUs / MICROSECONDS / SECONDS_PER_DAY, utcUs / MICROSECONDS % SECONDS_PER_DAY;
    var y := YearOf(days, EPOCH);
    var m := MonthOf(y.rest, y.index, 1);
    Date(y.index, m.index, m.rest + 1, secs / 3600, secs / 60 % 60, secs % 60, utcUs % MICROSECONDS)
  }

  lemma {:induction false} YearStartGrows(a: int, b: int)
    requires a <= b
    ensures YearStart(b) >= YearStart(a) + 365 * (b - a)
    decreases b - a
  {
    if a < b {
      YearStartGrows(a, b - 1);
    }
  }

  method FindYear(total: nat) returns (year: nat, days: nat)
    ensures Part(year, days) == YearOf(total, EPOCH)
  {
    days, year := total, EPOCH;
    while days >= DaysInYear(year)
      invariant EPOCH <= year && YearOf(total, EPOCH) == YearOf(days, year)
      decreases days
    {
      days := days - DaysInYear(year);
      year := year + 1;
    }
  }

  method FindMonth(year: nat, rest: nat) returns (month: nat, days: nat)
    requires rest < DaysInYear(year)
    ensures Part(month, days) == MonthOf(rest, year, 1)
  {
    var monthDays := if Leap(year) then MONTH_DAYS_LEAP_YEAR else MONTH_DAYS;
    days, month := rest, 1;
    YearHasItsMonths(year);
    TablesAgree(year, 1);
    while days >= monthDays[month - 1]
      invariant 1 <= month <= 12 && MonthStart(year, month) + days == rest
      invariant MonthOf(rest, year, 1) == MonthOf(days, year, month)
      invariant monthDays[month - 1] == DaysInMonth(year, month)
      decreases days
    {
      days := days - monthDays[month - 1];
      month := month + 1;
      TablesAgree(year, month);
    }
  }

  /** The year stays within sixteen bits for every time before the year 65536. */
  method DateTimeFromUtc(utcUs: uint64) returns (date: Date)
    requires utcUs / MICROSECONDS / SECONDS_PER_DAY < YearStart(0x1_0000)
    ensures date == DateOf(utcUs) && date.year < 0x1_0000
  {
    var year, rest := FindYear(utcUs / MICROSECONDS / SECONDS_PER_DAY);
    if year >= 0x1_0000 {
      YearStartGrows(0x1_0000, year);
    }
    var month, days := FindMonth(year, rest);
    var secondsRemaining := utcUs / MICROSECONDS % SECONDS_PER_DAY;
    date := Date(year, month, days + 1, secondsRemaining / 3600, secondsRemaining / 60 % 60, secondsRemaining % 60,
                 utcUs % MICROSECONDS);
  }

  // ----- both ways -----

  lemma {:induction false} DateOfIsDate(utcUs: nat)
    ensures ValidDate(DateOf(utcUs)) && Micros(DateOf(utcUs)) == utcUs
  {
    var secs := utcUs / MICROSECONDS % SECONDS_PER_DAY;
    ClockSplits(secs);
  }

  lemma {:induction false} ClockSplits(secs: nat)
    requires secs < SECONDS_PER_DAY
    ensures secs / 3600 < 24 && secs / 3600 * 3600 + secs / 60 % 60 * 60 + secs % 60 == secs
  {
    assert secs / 60 / 60 == secs / 3600;
  }

  predicate Earlier(a: Date, b: Date) {
    a.year < b.year || (a.year == b.year && (
    a.month < b.month || (a.month == b.month && (
    a.day < b.day || (a.day == b.day && (
    a.hour < b.hour || (a.hour == b.hour && (
    a.min < b.min || (a.min == b.min && (
    a.sec < b.sec || (a.sec == b.sec && a.usec < b.usec)))))))))))
  }

  lemma {:induction false} MonthStartGrows(year: int, a: int, b: int)
    requires 1 <= a < b <= 13
    ensures MonthStart(year, a) + DaysInMonth(year, a) <= MonthStart(year, b)
    decreases b
  {
    if a + 1 < b {
      MonthStartGrows(year, a, b - 1);
    }
  }

  lemma {:induction false} DayOrder(a: Date, b: Date)
    requires ValidDate(a) && ValidDate(b)
    requires a.year < b.year || (a.year == b.year && (a.month < b.month || (a.month == b.month && a.day < b.day)))
    ensures Day(a) < Day(b)
  {
    if a.year < b.year {
      MonthStartGrows(a.year, a.month, 13);
      YearHasItsMonths(a.year);
      YearStartGrows(a.year + 1, b.year);
    } else if a.month < b.month {
      MonthStartGrows(a.year, a.month, b.month);
    }
  }

  /** Earlier dates have smaller numbers. */
  lemma {:induction false} MicrosOrder(a: Date, b: Date)
    requires ValidDate(a) && ValidDate(b) && Earlier(a, b)
    ensures Micros(a) < Micros(b)
  {
    if a.year != b.year || a.month != b.month || a.day != b.day {
      DayOrder(a, b);
    }
  }

  lemma {:induction false} MicrosNotNegative(d: Date)
    requires ValidDate(d)
    ensures 0 <= Seconds(d) && 0 <= Micros(d) && Micros(d) / MICROSECONDS == Seconds(d)
  {
    YearStartGrows(EPOCH, d.year);
  }

  /** Every date is recovered from its number. */
  lemma {:induction false} DateRoundTrip(d: Date)
    requires ValidDate(d)
    ensures 0 <= Micros(d) && DateOf(Micros(d)) == d
  {
    MicrosNotNegative(d);
    var e := DateOf(Micros(d));
    DateOfIsDate(Micros(d));
    if Earlier(d, e) {
      MicrosOrder(d, e);
    } else if Earlier(e, d) {
      MicrosOrder(e, d);
    }
  }

  /** For every time of the 32-bit range the seconds of its date are the seconds of the time. */
  lemma {:induction false} SecondsRoundTrip(utcUs: nat)
    requires utcUs / MICROSECONDS < 0x1_0000_0000
    ensures Seconds(DateOf(utcUs)) % 0x1_0000_0000 == utcUs / MICROSECONDS
    ensures utcUs / MICROSECONDS / SECONDS_PER_DAY < YearStart(0x1_0000)
  {
    DateOfIsDate(utcUs);
    MicrosNotNegative(DateOf(utcUs));
    YearStartGrows(EPOCH, 0x1_0000);
  }

  /** Later times have later dates. */
  lemma {:induction false} DateOfIsMonotone(a: nat, b: nat)
    ensures a < b <==> Earlier(DateOf(a), DateOf(b))
  {
    DateOfIsDate(a);
    DateOfIsDate(b);
    if a < b && Earlier(DateOf(b), DateOf(a)) {
      MicrosOrder(DateOf(b), DateOf(a));
    }
    if Earlier(DateOf(a), DateOf(b)) {
      MicrosOrder(DateOf(a), DateOf(b));
    }
  }
}
