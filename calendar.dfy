/** Calendar arithmetic of the JavaScript `Date` object, on local time.

    A transaction's date is a calendar day `Date(year, month, day)` with the month counted
    from 1, as in the `YYYY-MM-DD` strings the app stores. Day numbers and timestamps follow
    the ECMAScript definitions (DayFromYear, MakeDay, MakeDate): Dafny's `/` and `%` with a
    positive divisor are floor division and modulo, exactly the `floor` and `modulo` of that
    standard, so out-of-range months and days roll over the way `new Date(y, m, d)` and
    `setDate` do. */
module Calendar {

  datatype Date = Date(year: int, month: int, day: int)

  const MsPerDay: int := 86_400_000
  const MsPerHour: int := 3_600_000

  predicate IsLeapYear(y: int) {
    y % 4 == 0 && (y % 100 != 0 || y % 400 == 0)
  }

  function DaysInYear(y: int): int {
    if IsLeapYear(y) then 366 else 365
  }

  /** Length of month `m` (1..12) of year `y`. */
  function DaysInMonth(y: int, m: int): int
    requires 1 <= m <= 12
  {
    if m == 2 then (if IsLeapYear(y) then 29 else 28)
    else if m == 4 || m == 6 || m == 9 || m == 11 then 30
    else 31
  }

  /** A real calendar day with a four-digit year, the shape of an ISO `YYYY-MM-DD` string. */
  predicate ValidDate(d: Date) {
    0 <= d.year <= 9999 && 1 <= d.month <= 12 && 1 <= d.day <= DaysInMonth(d.year, d.month)
  }

  /** ECMAScript DayFromYear: the day number of 1 January of `y`, counted from 1970-01-01. */
  function DayFromYear(y: int): int {
    365 * (y - 1970) + (y - 1969) / 4 - (y - 1901) / 100 + (y - 1601) / 400
  }

  /** Days of year `y` that precede month `m0` (0-based, 0..11). */
  function DaysBeforeMonth(y: int, m0: int): int
    requires 0 <= m0 < 12
  {
    var leap := if IsLeapYear(y) && m0 >= 2 then 1 else 0;
    leap + (match m0
      case 0 => 0 case 1 => 31 case 2 => 59 case 3 => 90 case 4 => 120 case 5 => 151
      case 6 => 181 case 7 => 212 case 8 => 243 case 9 => 273 case 10 => 304 case _ => 334)
  }

  /** Day number of the first day of 0-based month `m0` of year `y`. */
  function MonthStart(y: int, m0: int): int
    requires 0 <= m0 < 12
  {
    DayFromYear(y) + DaysBeforeMonth(y, m0)
  }

  /** ECMAScript MakeDay(year, month, date): the month is 0-based and may lie outside 0..11,
      the date may lie outside the month; both roll over. */
  function MakeDay(year: int, month: int, date: int): int {
    MonthStart(year + month / 12, month % 12) + date - 1
  }

  /** The day number of a calendar day: `new Date(y, m - 1, d)` without its time. */
  function DayNumber(d: Date): int {
    MakeDay(d.year, d.month - 1, d.day)
  }

  /** ECMAScript MakeDate: a timestamp in milliseconds from a day number and the time of day. */
  function MakeDate(day: int, time: int): int {
    day * MsPerDay + time
  }

  /** `new Date(s + 'T12:00:00')` for the `YYYY-MM-DD` string `s` of `d`: noon of that day. */
  function NoonOf(d: Date): int {
    MakeDate(DayNumber(d), 12 * MsPerHour)
  }

  /** `x.setHours(0, 0, 0, 0)` on a moment of day `d`. */
  function StartOfDay(d: Date): int {
    MakeDate(DayNumber(d), 0)
  }

  /** `x.setHours(23, 59, 59, 999)` on a moment of day `d`. */
  function EndOfDay(d: Date): int {
    MakeDate(DayNumber(d), MsPerDay - 1)
  }

  /** The month before `(y, m)`, months 1..12: January rolls back to December of the year before. */
  function PrevMonth(y: int, m: int): (r: (int, int))
    requires 1 <= m <= 12
    ensures 1 <= r.1 <= 12
    ensures m == 1 ==> r == (y - 1, 12)
    ensures m > 1 ==> r == (y, m - 1)
  {
    if m == 1 then (y - 1, 12) else (y, m - 1)
  }

  /** Lexicographic order of calendar days. */
  predicate LexLe(a: Date, b: Date) {
    a.year < b.year
    || (a.year == b.year && a.month < b.month)
    || (a.year == b.year && a.month == b.month && a.day <= b.day)
  }

  // ---------------------------------------------------------------------------------------
  // Lemmas

  /** Floor division by 4, 100 and 400 steps up by one exactly at multiples. */
  lemma Div4Step(a: int)
    ensures (a + 1) / 4 == a / 4 + (if (a + 1) % 4 == 0 then 1 else 0)
  {
  }

  lemma Div100Step(a: int)
    ensures (a + 1) / 100 == a / 100 + (if (a + 1) % 100 == 0 then 1 else 0)
  {
  }

  lemma Div400Step(a: int)
    ensures (a + 1) / 400 == a / 400 + (if (a + 1) % 400 == 0 then 1 else 0)
  {
  }

  /** The leap-year test read off the three quotients that DayFromYear adds up. */
  lemma LeapQuotients(y: int)
    ensures (y - 1968) % 4 == y % 4
    ensures (y - 1900) % 100 == y % 100
    ensures (y - 1600) % 400 == y % 400
  {
    assert y - 1968 == 4 * (y / 4 - 492) + y % 4;
    assert y - 1900 == 100 * (y / 100 - 19) + y % 100;
    assert y - 1600 == 400 * (y / 400 - 4) + y % 400;
  }

  /** Multiples of 400 are multiples of 100, and multiples of 100 are multiples of 4. */
  lemma MultiplesNest(y: int)
    ensures y % 400 == 0 ==> y % 100 == 0
    ensures y % 100 == 0 ==> y % 4 == 0
  {
    if y % 400 == 0 {
      HundredsOfFourHundred(y);
    }
    if y % 100 == 0 {
      FoursOfHundred(y);
    }
  }

  lemma HundredsOfFourHundred(y: int)
    requires y % 400 == 0
    ensures y % 100 == 0
  {
    var q := y / 400;
    assert y == 400 * q;
    assert y / 100 == 4 * q;
  }

  lemma FoursOfHundred(y: int)
    requires y % 100 == 0
    ensures y % 4 == 0
  {
    var q := y / 100;
    assert y == 100 * q;
    assert y / 4 == 25 * q;
  }

  /** One year after another: DayFromYear grows by the length of the year. */
  lemma DayFromYearStep(y: int)
    ensures DayFromYear(y + 1) == DayFromYear(y) + DaysInYear(y)
  {
    var q4, q100, q400 := (y - 1969) / 4, (y - 1901) / 100, (y - 1601) / 400;
    var r4, r100, r400 := (y - 1968) / 4, (y - 1900) / 100, (y - 1600) / 400;
    var e4, e100, e400 := r4 - q4, r100 - q100, r400 - q400;
    assert e4 == (if y % 4 == 0 then 1 else 0) by {
      Div4Step(y - 1969);
      LeapQuotients(y);
    }
    assert e100 == (if y % 100 == 0 then 1 else 0) by {
      Div100Step(y - 1901);
      LeapQuotients(y);
    }
    assert e400 == (if y % 400 == 0 then 1 else 0) by {
      Div400Step(y - 1601);
      LeapQuotients(y);
    }
    MultiplesNest(y);
    assert DayFromYear(y + 1) - DayFromYear(y) == 365 + e4 - e100 + e400;
  }

  /** DayFromYear is strictly increasing, by at least the length of the earlier year. */
  lemma {:induction false} DayFromYearMonotone(y1: int, y2: int)
    requires y1 < y2
    ensures DayFromYear(y1) + DaysInYear(y1) <= DayFromYear(y2)
    decreases y2 - y1
  {
    DayFromYearStep(y1);
    if y1 + 1 < y2 {
      DayFromYearMonotone(y1 + 1, y2);
    }
  }

  /** The month after 0-based month `m0` starts `DaysInMonth` days later, December rolling
      into January of the next year. */
  lemma NextMonthStart(y: int, m0: int)
    requires 0 <= m0 < 12
    ensures m0 < 11 ==> MonthStart(y, m0) + DaysInMonth(y, m0 + 1) == MonthStart(y, m0 + 1)
    ensures m0 == 11 ==> MonthStart(y, m0) + DaysInMonth(y, m0 + 1) == MonthStart(y + 1, 0)
  {
    if m0 == 11 {
      DayFromYearStep(y);
    }
  }

  /** Within a year, earlier 0-based months end before later ones start. */
  lemma MonthStartMonotone(y: int, m1: int, m2: int)
    requires 0 <= m1 < m2 < 12
    ensures MonthStart(y, m1) + DaysInMonth(y, m1 + 1) <= MonthStart(y, m2)
  {
  }

  /** The first day of the first month of a year precedes every day of that year, the last
      day of December follows it. */
  lemma YearSpan(y: int, m0: int)
    requires 0 <= m0 < 12
    ensures DayFromYear(y) <= MonthStart(y, m0)
    ensures MonthStart(y, m0) + DaysInMonth(y, m0 + 1) <= DayFromYear(y) + DaysInYear(y)
  {
  }

  /** The day number of a valid date lies in its month's range. */
  lemma DayNumberInMonth(d: Date)
    requires ValidDate(d)
    ensures DayNumber(d) == MonthStart(d.year, d.month - 1) + d.day - 1
    ensures MonthStart(d.year, d.month - 1) <= DayNumber(d) < MonthStart(d.year, d.month - 1) + DaysInMonth(d.year, d.month)
  {
    assert (d.month - 1) / 12 == 0 && (d.month - 1) % 12 == d.month - 1;
  }

  /** A valid day of an earlier year has a smaller day number. */
  lemma EarlierYear(a: Date, b: Date)
    requires ValidDate(a) && ValidDate(b) && a.year < b.year
    ensures DayNumber(a) < DayNumber(b)
  {
    DayNumberInMonth(a);
    DayNumberInMonth(b);
    YearSpan(a.year, a.month - 1);
    YearSpan(b.year, b.month - 1);
    DayFromYearMonotone(a.year, b.year);
  }

  /** A valid day of an earlier month of the same year has a smaller day number. */
  lemma EarlierMonth(a: Date, b: Date)
    requires ValidDate(a) && ValidDate(b) && a.year == b.year && a.month < b.month
    ensures DayNumber(a) < DayNumber(b)
  {
    DayNumberInMonth(a);
    DayNumberInMonth(b);
    MonthStartMonotone(a.year, a.month - 1, b.month - 1);
  }

  /** Order of day numbers is the lexicographic order of valid calendar days. */
  lemma DayNumberOrder(a: Date, b: Date)
    requires ValidDate(a) && ValidDate(b)
    ensures DayNumber(a) <= DayNumber(b) <==> LexLe(a, b)
  {
    if a.year < b.year {
      EarlierYear(a, b);
    } else if b.year < a.year {
      EarlierYear(b, a);
    } else if a.month < b.month {
      EarlierMonth(a, b);
    } else if b.month < a.month {
      EarlierMonth(b, a);
    } else {
      DayNumberInMonth(a);
      DayNumberInMonth(b);
    }
  }

  /** Valid calendar days with the same day number are the same day. */
  lemma DayNumberInjective(a: Date, b: Date)
    requires ValidDate(a) && ValidDate(b)
    ensures DayNumber(a) == DayNumber(b) <==> a == b
  {
    DayNumberOrder(a, b);
    DayNumberOrder(b, a);
  }

  /** Noon of one day lies at or after the start of another exactly when its day number is
      not smaller. */
  lemma NoonVersusStart(t: int, s: int)
    ensures MakeDate(t, 12 * MsPerHour) >= MakeDate(s, 0) <==> t >= s
  {
    if t < s {
      assert MakeDate(t, 12 * MsPerHour) < MakeDate(t + 1, 0) <= MakeDate(s, 0);
    }
  }

  /** Noon of one day lies at or before the last millisecond of another exactly when its day
      number is not larger. */
  lemma NoonVersusEnd(t: int, e: int)
    ensures MakeDate(t, 12 * MsPerHour) <= MakeDate(e, MsPerDay - 1) <==> t <= e
  {
    if t > e {
      assert MakeDate(e, MsPerDay - 1) < MakeDate(e + 1, 0) <= MakeDate(t, 0);
    }
  }

  /** Noon of one day lies at or after the last millisecond of another exactly when its day
      number is larger. */
  lemma NoonVersusEndAfter(t: int, e: int)
    ensures MakeDate(t, 12 * MsPerHour) >= MakeDate(e, MsPerDay - 1) <==> t > e
  {
    if t <= e {
      assert MakeDate(t, 12 * MsPerHour) < MakeDate(t, MsPerDay - 1) <= MakeDate(e, MsPerDay - 1);
    }
  }
}
