/** Seconds since 1970 as a Gregorian date and time of day. */
module Calendar {
  datatype Date = Date(year: int, month: int, day: int, hour: int, min: int, sec: int)

  const SECONDS_IN_DAY := 24 * 60 * 60

  predicate Leap(y: int) {
    y % 4 == 0 && (y % 100 != 0 || y % 400 == 0)
  }

  /** Days of month m, counted from 0. */
  function DaysIn(y: int, m: int): (d: int)
    ensures 28 <= d <= 31
  {
    if m == 1 then (if Leap(y) then 29 else 28)
    else if m == 3 || m == 5 || m == 8 || m == 10 then 30 else 31
  }

  predicate ValidDate(d: Date) {
    && d.year >= 1970 && 0 <= d.month < 12 && 1 <= d.day <= DaysIn(d.year, d.month)
    && 0 <= d.hour < 24 && 0 <= d.min < 60 && 0 <= d.sec < 60
  }

  /** The days of all years before y since 1970: one more for each leap year among them. */
  function DaysBeforeYear(y: int): int {
    365 * (y - 1970) + (y - 1) / 4 - (y - 1) / 100 + (y - 1) / 400 - 477
  }

  /** The days of the months before m. */
  function DaysBeforeMonth(y: int, m: int): int
    requires 0 <= m <= 12
  {
    if m == 0 then 0 else DaysBeforeMonth(y, m - 1) + DaysIn(y, m - 1)
  }

  /** Seconds from the start of 1970 to a date. */
  function Seconds(d: Date): int
    requires 0 <= d.month < 12
  {
    (DaysBeforeYear(d.year) + DaysBeforeMonth(d.year, d.month) + d.day - 1) * SECONDS_IN_DAY + d.hour * 3600
      + d.min * 60 + d.sec
  }

  lemma Quotient(y: int, n: int)
    requires n == 4 || n == 100 || n == 400
    ensures y / n == (y - 1) / n + if y % n == 0 then 1 else 0
  {}

  lemma YearGrows(y: int)
    ensures DaysBeforeYear(y + 1) == DaysBeforeYear(y) + if Leap(y) then 366 else 365
  {
    Quotient(y, 4);
    Quotient(y, 100);
    Quotient(y, 400);
  }

  lemma MonthAfter(y: int, m: int)
    requires 0 <= m < 12
    ensures DaysBeforeMonth(y, m + 1) == DaysBeforeMonth(y, m) + DaysIn(y, m)
    ensures m == 0 ==> DaysBeforeMonth(y, m) == 0
  {}

  lemma WholeYear(y: int)
    ensures DaysBeforeMonth(y, 12) == if Leap(y) then 366 else 365
  {
    MonthAfter(y, 0); MonthAfter(y, 1); MonthAfter(y, 2); MonthAfter(y, 3); MonthAfter(y, 4); MonthAfter(y, 5);
    MonthAfter(y, 6); MonthAfter(y, 7); MonthAfter(y, 8); MonthAfter(y, 9); MonthAfter(y, 10); MonthAfter(y, 11);
  }

  lemma {:induction false} MonthsGrow(y: int, m: int, n: int)
    requires 0 <= m < n <= 12
    ensures DaysBeforeMonth(y, m) + DaysIn(y, m) <= DaysBeforeMonth(y, n)
    decreases n
  {
    if m < n - 1 {
      MonthsGrow(y, m, n - 1);
    }
  }

  lemma {:induction false} YearsGrow(y: int, z: int)
    requires y < z
    ensures DaysBeforeYear(y + 1) <= DaysBeforeYear(z)
    decreases z - y
  {
    if y + 1 < z {
      YearsGrow(y, z - 1);
      YearGrows(z - 1);
    }
  }

  /** Within its year a date is before the next one. */
  lemma BeforeNextYear(d: Date)
    requires ValidDate(d)
    ensures DaysBeforeMonth(d.year, d.month) >= 0
    ensures DaysBeforeYear(d.year) + DaysBeforeMonth(d.year, d.month) + d.day <= DaysBeforeYear(d.year + 1)
  {
    MonthsGrow(d.year, d.month, 12);
    WholeYear(d.year);
    YearGrows(d.year);
    if d.month > 0 { MonthsGrow(d.year, 0, d.month); }
  }

  function DayNumber(d: Date): int
    requires 0 <= d.month < 12
  {
    DaysBeforeYear(d.year) + DaysBeforeMonth(d.year, d.month) + d.day
  }

  lemma LaterDay(a: Date, b: Date)
    requires ValidDate(a) && ValidDate(b)
    requires a.year < b.year || (a.year == b.year && a.month < b.month)
    ensures DayNumber(a) < DayNumber(b)
  {
    BeforeNextYear(a);
    BeforeNextYear(b);
    if a.year < b.year {
      YearsGrow(a.year, b.year);
    } else {
      MonthsGrow(a.year, a.month, b.month);
    }
  }

  lemma SameDayAndTime(x: int, y: int, t: int, u: int)
    requires x * SECONDS_IN_DAY + t == y * SECONDS_IN_DAY + u && 0 <= t < SECONDS_IN_DAY && 0 <= u < SECONDS_IN_DAY
    ensures x == y && t == u
  {}

  lemma SameTime(h: int, m: int, s: int, h': int, m': int, s': int)
    requires h * 3600 + m * 60 + s == h' * 3600 + m' * 60 + s'
    requires 0 <= m < 60 && 0 <= s < 60 && 0 <= m' < 60 && 0 <= s' < 60
    ensures h == h' && m == m' && s == s'
  {}

  /** No two dates and times are the same number of seconds. */
  lemma SecondsInjective(a: Date, b: Date)
    requires ValidDate(a) && ValidDate(b) && Seconds(a) == Seconds(b)
    ensures a == b
  {
    hide DaysBeforeYear, DaysBeforeMonth, DaysIn;
    SameDayAndTime(DayNumber(a) - 1, DayNumber(b) - 1, a.hour * 3600 + a.min * 60 + a.sec,
                   b.hour * 3600 + b.min * 60 + b.sec);
    SameTime(a.hour, a.min, a.sec, b.hour, b.min, b.sec);
    if a.year < b.year || (a.year == b.year && a.month < b.month) {
      LaterDay(a, b);
      assert false;
    } else if b.year < a.year || (b.year == a.year && b.month < a.month) {
      LaterDay(b, a);
      assert false;
    }
  }

  const MONTH_DAYS := [31, 28, 31, 30, 31, 30, 31, 31, 30, 31, 30, 31]

  lemma FirstYear()
    ensures DaysBeforeYear(1970) == 0
  {}

  /** The year of the date, and the seconds left of it. */
  method FindYear(s0: nat) returns (year: int, s: int)
    ensures year >= 1970 && 0 <= s && s0 == s + DaysBeforeYear(year) * SECONDS_IN_DAY
    ensures s < (if Leap(year) then 366 else 365) * SECONDS_IN_DAY
  {
    hide DaysBeforeYear;
    s, year := s0, 1970;
    FirstYear();
    while true
      invariant year >= 1970 && s >= 0 && s0 == s + DaysBeforeYear(year) * SECONDS_IN_DAY
      decreases s
    {
      var secondsInYear := (365 + if Leap(year) then 1 else 0) * 24 * 60 * 60;
      YearGrows(year);
      if s < secondsInYear { break; }
      s := s - secondsInYear;
      year := year + 1;
    }
  }

  /** The month within the year, never past December, and the seconds left of it. */
  method FindMonth(year: int, s0: int) returns (month: int, s: int)
    requires 0 <= s0 < (if Leap(year) then 366 else 365) * SECONDS_IN_DAY
    ensures 0 <= month < 12 && 0 <= s < DaysIn(year, month) * SECONDS_IN_DAY
    ensures s0 == s + DaysBeforeMonth(year, month) * SECONDS_IN_DAY
  {
    hide DaysBeforeMonth;
    s, month := s0, 0;
    WholeYear(year);
    MonthAfter(year, 0);
    while true
      invariant 0 <= month < 12 && s >= 0 && s0 == s + DaysBeforeMonth(year, month) * SECONDS_IN_DAY
      decreases s
    {
      var daysInMonth := MONTH_DAYS[month];
      if month == 1 && Leap(year) { daysInMonth := daysInMonth + 1; }
      assert daysInMonth == DaysIn(year, month);
      var secondsInMonth := daysInMonth * (24 * 60 * 60);
      if s < secondsInMonth { break; }
      MonthAfter(year, month);
      s := s - secondsInMonth;
      month := month + 1;
    }
  }

  /** How many whole units there are, by repeated subtraction. */
  method Subtract(s0: int, unit: int) returns (n: int, s: int)
    requires s0 >= 0 && unit > 0
    ensures n >= 0 && 0 <= s < unit && s0 == s + n * unit
  {
    s, n := s0, 0;
    while true
      invariant n >= 0 && s >= 0 && s0 == s + n * unit
      decreases s
    {
      if s < unit { break; }
      s := s - unit;
      n := n + 1;
    }
  }

  /** The date and time that is s seconds after the start of 1970; there is no other. */
  method PrintDate(s0: nat) returns (d: Date)
    ensures ValidDate(d) && Seconds(d) == s0
    ensures forall e :: ValidDate(e) && Seconds(e) == s0 ==> e == d
  {
    hide DaysBeforeYear, DaysBeforeMonth;
    var year, s := FindYear(s0);
    var month, day, hour, min: int;
    month, s := FindMonth(year, s);
    day, s := Subtract(s, 24 * 60 * 60);
    hour, s := Subtract(s, 60 * 60);
    min, s := Subtract(s, 60);
    d := Date(year, month, day + 1, hour, min, s);
    forall e | ValidDate(e) && Seconds(e) == s0 ensures e == d {
      SecondsInjective(e, d);
    }
  }

  /** The day after, at the same time, by the rule of the Gregorian calendar. */
  function NextDay(d: Date): Date
    requires 0 <= d.month < 12
  {
    var leap := d.year % 400 == 0 || (d.year % 4 == 0 && d.year % 100 != 0);
    var days := [31, if leap then 29 else 28, 31, 30, 31, 30, 31, 31, 30, 31, 30, 31][d.month];
    if d.day < days then d.(day := d.day + 1)
    else if d.month < 11 then d.(day := 1, month := d.month + 1)
    else d.(day := 1, month := 0, year := d.year + 1)
  }

  lemma LengthIs(d: Date)
    requires 0 <= d.month < 12
    ensures var leap := d.year % 400 == 0 || (d.year % 4 == 0 && d.year % 100 != 0);
            DaysIn(d.year, d.month) == [31, if leap then 29 else 28, 31, 30, 31, 30, 31, 31, 30, 31, 30, 31][d.month]
  {}

  lemma FirstMonth(y: int)
    ensures DaysBeforeMonth(y, 0) == 0 && DaysIn(y, 0) == 31
  {}

  lemma TomorrowIsNext(d: Date)
    requires ValidDate(d)
    ensures ValidDate(NextDay(d)) && DayNumber(NextDay(d)) == DayNumber(d) + 1
    ensures NextDay(d).hour == d.hour && NextDay(d).min == d.min && NextDay(d).sec == d.sec
  {
    hide DaysBeforeYear, DaysBeforeMonth, DaysIn;
    LengthIs(d);
    MonthAfter(d.year, d.month);
    if d.month == 11 {
      WholeYear(d.year);
      YearGrows(d.year);
      MonthAfter(d.year + 1, 0);
      FirstMonth(d.year + 1);
    }
  }

  /** Every day of the calendar adds 86400 to the count. */
  lemma DaysCount(d: Date)
    requires ValidDate(d)
    ensures ValidDate(NextDay(d)) && Seconds(NextDay(d)) == Seconds(d) + 86400
  {
    hide DaysBeforeYear, DaysBeforeMonth, DaysIn, NextDay;
    TomorrowIsNext(d);
  }

  /** It starts at 0 with 1970, and within a day hours, minutes and seconds count 3600, 60 and 1. */
  lemma CountStarts(d: Date)
    requires 0 <= d.month < 12
    ensures Seconds(Date(1970, 0, 1, 0, 0, 0)) == 0
    ensures Seconds(d) == Seconds(d.(hour := 0, min := 0, sec := 0)) + 3600 * d.hour + 60 * d.min + d.sec
  {
    hide DaysBeforeYear, DaysBeforeMonth;
    FirstYear();
    FirstMonth(1970);
  }

  /** Half past noon on the leap day of 2000, and the start of March 2100, which no leap day precedes. */
  lemma KnownDates()
    ensures Seconds(Date(2000, 1, 29, 12, 34, 56)) == 951827696 && Seconds(Date(2100, 2, 1, 0, 0, 0)) == 4107542400
  {
    FirstMonth(2000);
    MonthAfter(2000, 0);
    FirstMonth(2100);
    MonthAfter(2100, 0);
    MonthAfter(2100, 1);
  }
}
