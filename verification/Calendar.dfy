/**
 The calendar date of a day counted from 1970-01-01, computed by era, year of era and month
 counted from March, against the calendar's own rule for the day after.
 */
module Calendar {
  import opened Wrappers

  datatype Date = Date(year: int, month: int, day: int)

  // ---------- the calendar's rules

  predicate IsLeapYear(year: int) {
    year % 4 == 0 && (year % 100 != 0 || year % 400 == 0)
  }

  function DaysInMonth(year: int, month: int): int {
    if month == 2 then (if IsLeapYear(year) then 29 else 28)
    else if month == 4 || month == 6 || month == 9 || month == 11 then 30
    else 31
  }

  predicate IsDate(date: Date) {
    1 <= date.month <= 12 && 1 <= date.day <= DaysInMonth(date.year, date.month)
  }

  /** The day after. */
  function Next(date: Date): Date {
    if date.day < DaysInMonth(date.year, date.month) then Date(date.year, date.month, date.day + 1)
    else if date.month < 12 then Date(date.year, date.month + 1, 1)
    else Date(date.year + 1, 1, 1)
  }

  // ---------- the computation

  /** Division as Rust's, towards zero. */
  function Div(a: int, b: int): int
    requires b > 0
  {
    if a >= 0 then a / b else -((-a) / b)
  }

  const DAYS_PER_ERA := 146097

  /** Eras are 400 years from a 1st of March; `z` counts days from 0000-03-01. */
  function Era(z: int): int {
    Div(if z >= 0 then z else z - 146096, DAYS_PER_ERA)
  }

  function YearOfEra(doe: nat): nat
    requires doe < DAYS_PER_ERA
  {
    (doe - doe / 1460 + doe / 36524 - doe / 146096) / 365
  }

  /** The days of the era before its year `yoe`. */
  function DaysBefore(yoe: nat): nat {
    365 * yoe + yoe / 4 - yoe / 100
  }

  function MonthFromMarch(doy: nat): nat {
    (5 * doy + 2) / 153
  }

  /** The days of the year before its month `mp`, counted from March. */
  function DaysBeforeMonth(mp: nat): nat {
    (153 * mp + 2) / 5
  }

  /** The date `doy` days into the year from the 1st of March of `year`. */
  function DateInYear(year: int, doy: int): Date
    requires 0 <= doy <= 365
  {
    var mp := MonthFromMarch(doy);
    var day := doy - DaysBeforeMonth(mp) + 1;
    var month := if mp < 10 then mp + 3 else mp - 9;
    Date(if month <= 2 then year + 1 else year, month, day)
  }

  function Civil(days: int): Date
  {
    var z := days + 719468;
    var era := Era(z);
    EraBounds(z);
    var doe := z - era * DAYS_PER_ERA;
    var yoe := YearOfEra(doe);
    YearOfEraBounds(doe);
    DateInYear(yoe + era * 400, doe - DaysBefore(yoe))
  }

  // ---------- no subtraction goes below zero, and each part is in range

  lemma EraBounds(z: int)
    ensures 0 <= z - Era(z) * DAYS_PER_ERA < DAYS_PER_ERA
  {}

  predicate InYear(doe: int, yoe: nat) {
    yoe < 400 && DaysBefore(yoe) <= doe < DaysBefore(yoe) + YearLength(yoe)
  }

  /** A year of the era ends with the February of the calendar year after it. */
  function YearLength(yoe: nat): nat {
    if IsLeapYear(yoe + 1) then 366 else 365
  }

  /** A day of the era by century, four-year cycle, year and day: the last of a group takes in its
      leap day. */
  lemma DayOfEraParts(doe: nat) returns (c: nat, q: nat, k: nat, d: nat)
    requires doe < DAYS_PER_ERA
    ensures doe == 36524 * c + 1461 * q + 365 * k + d
    ensures c <= 3 && q <= 24 && k <= 3 && d <= 365
    ensures d == 365 ==> k == 3 && (q < 24 || c == 3)
  {
    c := if doe / 36524 < 3 then doe / 36524 else 3;
    var r := doe - 36524 * c;
    assert r <= 36524 && (c < 3 ==> r < 36524);
    q := r / 1461;
    var s := r - 1461 * q;
    assert 0 <= s <= 1460;
    k := if s / 365 < 3 then s / 365 else 3;
    d := s - 365 * k;
  }

  lemma YearOfParts(doe: nat, c: nat, q: nat, k: nat, d: nat)
    requires doe == 36524 * c + 1461 * q + 365 * k + d && doe < DAYS_PER_ERA
    requires c <= 3 && q <= 24 && k <= 3 && d <= 365
    requires d == 365 ==> k == 3 && (q < 24 || c == 3)
    ensures YearOfEra(doe) == 100 * c + 4 * q + k
    ensures DaysBefore(100 * c + 4 * q + k) == doe - d
  {
    var rest := 24 * c + q + 365 * k + d;
    var extra := if rest >= 1460 then 1 else 0;
    assert doe == 1460 * (25 * c + q) + rest && rest < 2920;
    assert doe / 1460 == 25 * c + q + extra;
    assert doe / 36524 == if doe == 146096 then 4 else c;
    assert doe / 146096 == if doe == 146096 then 1 else 0;
    assert 0 <= d - extra < 365;
    var yoe := 100 * c + 4 * q + k;
    assert yoe / 4 == 25 * c + q;
    assert yoe / 100 == c;
  }

  lemma YearLengthOfParts(c: nat, q: nat, k: nat)
    requires c <= 3 && q <= 24 && k <= 3
    ensures YearLength(100 * c + 4 * q + k) == if k == 3 && (q < 24 || c == 3) then 366 else 365
  {
    var year := 100 * c + 4 * q + k + 1;
    assert year % 4 == (k + 1) % 4;
    assert year % 100 == (4 * q + k + 1) % 100;
    assert year % 400 == 0 <==> year == 400;
  }

  /** The computed year of the era is the one the day falls in. */
  lemma YearOfEraBounds(doe: nat)
    requires doe < DAYS_PER_ERA
    ensures InYear(doe, YearOfEra(doe))
    ensures 0 <= doe - DaysBefore(YearOfEra(doe)) <= 365
  {
    var c, q, k, d := DayOfEraParts(doe);
    YearOfParts(doe, c, q, k, d);
    YearLengthOfParts(c, q, k);
  }

  /** Years of the era follow one another without gaps. */
  lemma YearsAbut(yoe: nat)
    requires yoe < 400
    ensures DaysBefore(yoe) + YearLength(yoe) == DaysBefore(yoe + 1) + (if yoe == 399 then 1 else 0)
  {
    var next := yoe + 1;
    assert next / 4 == yoe / 4 + (if next % 4 == 0 then 1 else 0);
    assert next / 100 == yoe / 100 + (if next % 100 == 0 then 1 else 0);
    assert next % 400 == 0 <==> next == 400;
  }

  lemma {:induction false} DaysBeforeMonotone(a: nat, b: nat)
    requires a <= b <= 400
    ensures DaysBefore(a) <= DaysBefore(b)
    ensures a < b ==> DaysBefore(a) + YearLength(a) <= DaysBefore(b) + (if b == 400 then 1 else 0)
    decreases b - a
  {
    if a < b {
      YearsAbut(a);
      if a + 1 < b {
        DaysBeforeMonotone(a + 1, b);
      }
    }
  }

  lemma YearOfEraUnique(doe: nat, yoe: nat)
    requires doe < DAYS_PER_ERA && InYear(doe, yoe)
    ensures YearOfEra(doe) == yoe
  {
    var y := YearOfEra(doe);
    YearOfEraBounds(doe);
    if y < yoe {
      DaysBeforeMonotone(y, yoe);
    } else if yoe < y {
      DaysBeforeMonotone(yoe, y);
    }
  }

  // ---------- the day after

  lemma MonthBounds(doy: nat)
    requires doy <= 365
    ensures var mp := MonthFromMarch(doy); mp <= 11 && DaysBeforeMonth(mp) <= doy < DaysBeforeMonth(mp + 1)
  {}

  lemma MonthUnique(doy: nat, mp: nat)
    requires DaysBeforeMonth(mp) <= doy < DaysBeforeMonth(mp + 1)
    ensures MonthFromMarch(doy) == mp
  {}

  /** Months counted from March have their calendar lengths, February taking what is left. */
  lemma MonthLength(year: int, mp: nat)
    requires mp <= 10
    ensures DaysBeforeMonth(mp + 1) - DaysBeforeMonth(mp)
            == DaysInMonth(if mp < 10 then year else year + 1, if mp < 10 then mp + 3 else mp - 9)
  {
    if mp == 0 {} else if mp == 1 {} else if mp == 2 {} else if mp == 3 {} else if mp == 4 {} else if mp == 5 {}
    else if mp == 6 {} else if mp == 7 {} else if mp == 8 {} else if mp == 9 {} else {}
  }

  /** Within a year from March, days follow the calendar. */
  lemma NextInYear(year: int, doy: nat)
    requires doy + 1 < (if IsLeapYear(year + 1) then 366 else 365)
    ensures IsDate(DateInYear(year, doy))
    ensures DateInYear(year, doy + 1) == Next(DateInYear(year, doy))
  {
    hide MonthFromMarch, IsLeapYear;
    MonthBounds(doy);
    var mp := MonthFromMarch(doy);
    if mp <= 10 {
      MonthLength(year, mp);
    }
    if doy + 1 < DaysBeforeMonth(mp + 1) {
      MonthUnique(doy + 1, mp);
    } else {
      MonthAbut(mp);
      MonthUnique(doy + 1, mp + 1);
    }
  }

  lemma MonthAbut(mp: nat)
    requires mp <= 11
    ensures mp < 11 ==> DaysBeforeMonth(mp + 1) < DaysBeforeMonth(mp + 2)
    ensures mp == 11 ==> DaysBeforeMonth(mp + 1) == 367
  {}

  /** And the last of February is followed by the 1st of March. */
  lemma NextYear(year: int)
    ensures var last := if IsLeapYear(year + 1) then 365 else 364;
            IsDate(DateInYear(year, last)) && DateInYear(year + 1, 0) == Next(DateInYear(year, last))
  {}

  /** The year a day falls in, counted in eras, and its place in that year. */
  lemma CivilParts(days: int) returns (era: int, yoe: nat, doy: nat)
    ensures yoe < 400 && doy < YearLength(yoe) && doy <= 365
    ensures days + 719468 == era * DAYS_PER_ERA + DaysBefore(yoe) + doy
  {
    hide YearOfEra, DaysBefore, YearLength, Era;
    var z := days + 719468;
    era := Era(z);
    EraBounds(z);
    var doe := z - era * DAYS_PER_ERA;
    YearOfEraBounds(doe);
    yoe := YearOfEra(doe);
    doy := doe - DaysBefore(yoe);
  }

  lemma EraUnique(z: int, era: int)
    requires 0 <= z - era * DAYS_PER_ERA < DAYS_PER_ERA
    ensures Era(z) == era
  {}

  lemma DayInEra(yoe: nat, doy: nat)
    requires yoe < 400 && doy < YearLength(yoe)
    ensures DaysBefore(yoe) + doy < DAYS_PER_ERA
  {
    hide YearLength;
    DaysBeforeMonotone(yoe, 400);
  }

  lemma CivilInYear(days: int, era: int, yoe: nat, doy: nat)
    requires yoe < 400 && doy < YearLength(yoe) && doy <= 365
    requires days + 719468 == era * DAYS_PER_ERA + DaysBefore(yoe) + doy
    ensures Civil(days) == DateInYear(yoe + era * 400, doy)
  {
    hide YearOfEra, DaysBefore, YearLength, Era, DateInYear;
    var doe := DaysBefore(yoe) + doy;
    DayInEra(yoe, doy);
    EraUnique(days + 719468, era);
    YearOfEraUnique(doe, yoe);
  }

  lemma Remainder4(a: int, b: int)
    ensures (a + 4 * b) % 4 == a % 4
  {
    assert (a + 4 * b) / 4 == a / 4 + b;
  }

  lemma Remainder100(a: int, b: int)
    ensures (a + 100 * b) % 100 == a % 100
  {
    assert (a + 100 * b) / 100 == a / 100 + b;
  }

  lemma Remainder400(a: int, b: int)
    ensures (a + 400 * b) % 400 == a % 400
  {
    assert (a + 400 * b) / 400 == a / 400 + b;
  }

  lemma LeapYearInEra(yoe: nat, era: int)
    ensures IsLeapYear(yoe + era * 400 + 1) <==> IsLeapYear(yoe + 1)
  {
    Remainder4(yoe + 1, 100 * era);
    Remainder100(yoe + 1, 4 * era);
    Remainder400(yoe + 1, era);
  }

  /** Every day's date is a date of the calendar, and the next day's is the date after it; day 0
      is the 1st of January 1970. So the dates are the calendar's, on every day before and after. */
  lemma CivilIsTheCalendar(days: int)
    ensures IsDate(Civil(days))
    ensures Civil(days + 1) == Next(Civil(days))
    ensures Civil(0) == Date(1970, 1, 1)
  {
    hide Civil, DaysBefore, DateInYear, Next, IsDate, IsLeapYear;
    CivilEpoch();
    var era, yoe, doy := CivilParts(days);
    LeapYearInEra(yoe, era);
    CivilInYear(days, era, yoe, doy);
    if doy + 1 < YearLength(yoe) {
      CivilInYear(days + 1, era, yoe, doy + 1);
      NextInYear(yoe + era * 400, doy);
    } else {
      NextYear(yoe + era * 400);
      YearsAbut(yoe);
      FirstYear();
      if yoe < 399 {
        CivilInYear(days + 1, era, yoe + 1, 0);
      } else {
        CivilInYear(days + 1, era + 1, 0, 0);
      }
    }
  }

  lemma FirstYear()
    ensures DaysBefore(0) == 0 && DaysBefore(400) == DAYS_PER_ERA - 1
  {}

  lemma CivilEpoch()
    ensures Civil(0) == Date(1970, 1, 1)
  {
    assert Era(719468) == 4;
    assert YearOfEra(135080) == 369;
    assert DaysBefore(369) == 134774;
    assert MonthFromMarch(306) == 10 && DaysBeforeMonth(10) == 306;
  }

  // ---------- dates in order

  function CompareDate(a: Date, b: Date): Ordering {
    CompareInt(a.year, b.year).Then(CompareInt(a.month, b.month)).Then(CompareInt(a.day, b.day))
  }

  lemma NextIsLater(date: Date)
    requires IsDate(date)
    ensures CompareDate(date, Next(date)) == Less
  {}

  lemma CompareDateTransitive(a: Date, b: Date, c: Date)
    requires CompareDate(a, b) == Less && CompareDate(b, c) == Less
    ensures CompareDate(a, c) == Less
  {}

  lemma {:induction false} LaterDaysHaveLaterDates(a: int, b: int)
    requires a < b
    ensures CompareDate(Civil(a), Civil(b)) == Less
    decreases b - a
  {
    hide Civil, IsDate, CompareDate, Next;
    CivilIsTheCalendar(a);
    NextIsLater(Civil(a));
    if a + 1 < b {
      LaterDaysHaveLaterDates(a + 1, b);
      CompareDateTransitive(Civil(a), Civil(a + 1), Civil(b));
    }
  }

  /** Dates compare, year first, exactly as their days do; in particular no two days share one. */
  lemma DateOrderIsDayOrder(a: int, b: int)
    ensures CompareDate(Civil(a), Civil(b)) == CompareInt(a, b)
  {
    hide Civil;
    if a < b {
      LaterDaysHaveLaterDates(a, b);
    } else if b < a {
      LaterDaysHaveLaterDates(b, a);
    }
  }

  // ---------- the time of day

  datatype Clock = Clock(hour: int, minute: int, second: int)

  /** A second count, as days and the time of day. */
  function DaysOf(seconds: int): int {
    seconds / 60 / 60 / 24
  }

  function ClockOf(seconds: int): Clock {
    Clock(seconds / 60 / 60 % 24, seconds / 60 % 60, seconds % 60)
  }

  /** The fields recombine to the second count, each within its range. */
  lemma ClockRecombines(seconds: int)
    ensures var clock := ClockOf(seconds);
            && seconds == 86400 * DaysOf(seconds) + 3600 * clock.hour + 60 * clock.minute + clock.second
            && 0 <= clock.hour < 24 && 0 <= clock.minute < 60 && 0 <= clock.second < 60
  {}

  function CompareClock(a: Clock, b: Clock): Ordering {
    CompareInt(a.hour, b.hour).Then(CompareInt(a.minute, b.minute)).Then(CompareInt(a.second, b.second))
  }

  /** Seconds compare as their date and then their time of day do. */
  lemma SecondOrder(a: int, b: int)
    ensures CompareInt(a, b)
            == CompareDate(Civil(DaysOf(a)), Civil(DaysOf(b))).Then(CompareClock(ClockOf(a), ClockOf(b)))
  {
    hide Civil, CompareDate;
    DateOrderIsDayOrder(DaysOf(a), DaysOf(b));
    SecondsByDay(a, b);
  }

  lemma SecondsByDay(a: int, b: int)
    ensures CompareInt(a, b) == CompareInt(DaysOf(a), DaysOf(b)).Then(CompareClock(ClockOf(a), ClockOf(b)))
  {
    hide DaysOf, ClockOf;
    ClockRecombines(a);
    ClockRecombines(b);
  }
}
