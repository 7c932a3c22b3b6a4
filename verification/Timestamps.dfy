/**
 Timestamps as stored text: written in one fixed-width form, so that text order is time order.

 An instant is a count of nanoseconds since 1970-01-01T00:00:00Z, without leap seconds.
 */
module Timestamps {
  import opened Wrappers
  import opened TextOrder
  import opened Calendar
  import opened Powers

  datatype Precision = Second | Microsecond

  type Instant = int

  const NANOS := 1_000_000_000

  function SecondsOf(instant: Instant): int {
    instant / NANOS
  }

  function MicrosOf(instant: Instant): int {
    instant % NANOS / 1000
  }

  /** An instant at a precision: whole seconds, or whole microseconds. */
  function Truncated(precision: Precision, instant: Instant): int {
    match precision
    case Second => instant / NANOS
    case Microsecond => instant / 1000
  }

  // ---------- fixed-width digits

  function Digit(n: nat): char
    requires n < 10
  {
    '0' + n as char
  }

  /** The last `width` decimal digits of `value`, zero-padded. */
  function Digits(value: nat, width: nat): (digits: string)
    ensures |digits| == width
  {
    if width == 0 then [] else Digits(value / 10, width - 1) + [Digit(value % 10)]
  }

  lemma DivideTwice(value: nat, a: nat)
    requires a > 0
    ensures value / a / 10 == value / (10 * a)
  {
    var q, r := value / a, value % a;
    var q', r' := q / 10, q % 10;
    SplitTens(q', r', a, r);
    assert r' * a <= 9 * a by { AtMost(r', 9, a); }
    QuotientUnique(value, 10 * a, q', r' * a + r);
  }

  lemma SplitTens(q: int, r: int, a: int, s: int)
    ensures (10 * q + r) * a + s == q * (10 * a) + (r * a + s)
  {
    assert (10 * q + r) * a == (10 * q) * a + r * a;
    assert (10 * q) * a == q * (10 * a);
  }

  lemma QuotientUnique(value: nat, b: nat, q: nat, r: nat)
    requires b > 0 && value == q * b + r && r < b
    ensures value / b == q
  {
    var p, s := value / b, value % b;
    assert value == p * b + s;
    assert (p - q) * b == p * b - q * b;
    assert (q - p) * b == q * b - p * b;
    if p > q {
      AtLeastOnce(p - q, b);
    } else if q > p {
      AtLeastOnce(q - p, b);
    }
  }

  lemma AtLeastOnce(d: nat, b: nat)
    requires d >= 1
    ensures d * b >= b
  {
    assert d * b == b + (d - 1) * b;
    assert (d - 1) * b >= 0;
  }

  /** What a number leaves above a decimal place. */
  function Above(value: nat, place: nat): nat {
    Pow10Positive(place);
    Quotient(value, Pow10(place))
  }

  function Quotient(value: nat, divisor: nat): nat
    requires divisor > 0
  {
    value / divisor
  }

  lemma AboveNext(value: nat, place: nat)
    ensures Above(value, place) / 10 == Above(value, place + 1)
  {
    hide Pow10;
    Pow10Positive(place);
    Pow10Positive(place + 1);
    Pow10Next(place);
    DivideTwice(value, Pow10(place));
  }

  lemma Pow10Next(n: nat)
    ensures Pow10(n + 1) == 10 * Pow10(n)
  {}

  lemma AboveZero(value: nat)
    ensures Above(value, 0) == value
  {}

  /** Appends the digits, the most significant place first. */
  method PushDigits(out: string, value: nat, width: nat) returns (pushed: string)
    ensures pushed == out + Digits(value, width)
  {
    hide Pow10, Above;
    pushed := out;
    var place: nat := width;
    while place > 0
      invariant 0 <= place <= width
      invariant pushed == out + Digits(Above(value, place), width - place)
    {
      place := place - 1;
      AboveNext(value, place);
      var digit := Above(value, place) % 10;
      pushed := pushed + [Digit(digit)];
      assert pushed == out + (Digits(Above(value, place + 1), width - (place + 1)) + [Digit(digit)]);
    }
    AboveZero(value);
  }

  /** Below ten to the width, digits compare as the numbers do. */
  lemma {:induction false} DigitsOrder(a: nat, b: nat, width: nat)
    requires a < Pow10(width) && b < Pow10(width)
    ensures CompareText(Digits(a, width), Digits(b, width)) == CompareInt(a, b)
  {
    if width > 0 {
      DigitsOrder(a / 10, b / 10, width - 1);
      CompareConcat(Digits(a / 10, width - 1), Digits(b / 10, width - 1), [Digit(a % 10)], [Digit(b % 10)]);
      CompareDigit(a % 10, b % 10);
    }
  }

  lemma CompareDigit(a: nat, b: nat)
    requires a < 10 && b < 10
    ensures CompareText([Digit(a)], [Digit(b)]) == CompareInt(a, b)
  {
    var x, y := [Digit(a)], [Digit(b)];
    assert x[1..] == [] && y[1..] == [];
  }

  // ---------- the stored form

  // The days 0000-01-01 and 10000-01-01.
  const YEAR_0 := -719_528
  const YEAR_10000 := 2_932_897

  /** The instants whose year has four digits. */
  predicate FourDigitYear(instant: Instant) {
    YEAR_0 * 86400 * NANOS <= instant < YEAR_10000 * 86400 * NANOS
  }

  lemma YearStarts()
    ensures Civil(YEAR_0) == Date(0, 1, 1)
    ensures Civil(YEAR_10000) == Date(10000, 1, 1)
  {
    hide Civil;
    assert DaysBefore(399) == 145_731 && YearLength(399) == 366;
    CivilInYear(YEAR_0, -1, 399, 306);
    CivilInYear(YEAR_10000, 24, 399, 306);
    assert MonthFromMarch(306) == 10 && DaysBeforeMonth(10) == 306;
  }

  lemma YearsByDay(days: int)
    ensures 0 <= Civil(days).year <= 9999 <==> YEAR_0 <= days < YEAR_10000
  {
    hide Civil;
    YearStarts();
    CivilIsTheCalendar(days);
    DateOrderIsDayOrder(days, YEAR_0);
    DateOrderIsDayOrder(days, YEAR_10000);
  }

  lemma FourDigitYears(instant: Instant)
    ensures FourDigitYear(instant) <==> 0 <= Civil(DaysOf(SecondsOf(instant))).year <= 9999
  {
    hide Civil;
    var seconds := SecondsOf(instant);
    ClockRecombines(seconds);
    YearsByDay(DaysOf(seconds));
    assert instant == NANOS * seconds + instant % NANOS;
  }

  /** A part of the form after the year: what separates it, its value and its width. */
  datatype Part = Part(separator: char, value: nat, width: nat)

  function Parts(precision: Precision, instant: Instant): seq<Part> {
    var seconds := SecondsOf(instant);
    var date, clock := Civil(DaysOf(seconds)), ClockOf(seconds);
    CivilIsTheCalendar(DaysOf(seconds));
    ClockRecombines(seconds);
    [Part('-', date.month, 2), Part('-', date.day, 2),
     Part('T', clock.hour, 2), Part(':', clock.minute, 2), Part(':', clock.second, 2)]
    + if precision == Microsecond then [Part('.', MicrosOf(instant), 6)] else []
  }

  function PartsText(parts: seq<Part>): string {
    if parts == [] then ['Z'] else [parts[0].separator] + Digits(parts[0].value, parts[0].width) + PartsText(parts[1..])
  }

  /** The stored form of an instant whose year has four digits. */
  function Format(precision: Precision, instant: Instant): string
    requires FourDigitYear(instant)
  {
    FourDigitYears(instant);
    Digits(Civil(DaysOf(SecondsOf(instant))).year, 4) + PartsText(Parts(precision, instant))
  }

  /** The stored form: the fixed-width one for the years 0 to 9999, and for others the form the date
      library gives, `elsewhere`. */
  method FormatInstant(precision: Precision, instant: Instant, elsewhere: (Precision, Instant) -> string)
    returns (out: string)
    ensures out == if FourDigitYear(instant) then Format(precision, instant) else elsewhere(precision, instant)
  {
    hide Civil, DaysOf, SecondsOf, Digits, PartsText, Parts, FourDigitYear;
    FourDigitYears(instant);
    var year := Civil(DaysOf(SecondsOf(instant))).year;
    if !(0 <= year <= 9999) {
      return elsewhere(precision, instant);
    }
    out := PushDigits([], year, 4);
    var parts := Parts(precision, instant);
    assert parts[0..] == parts;
    for i := 0 to |parts|
      invariant out + PartsText(parts[i..]) == Format(precision, instant)
    {
      PartsNext(out, parts, i);
      out := out + [parts[i].separator];
      out := PushDigits(out, parts[i].value, parts[i].width);
    }
    NoParts(parts[|parts|..]);
    out := out + ['Z'];
  }

  lemma PartsNext(out: string, parts: seq<Part>, i: nat)
    requires i < |parts|
    ensures out + PartsText(parts[i..])
            == out + [parts[i].separator] + Digits(parts[i].value, parts[i].width) + PartsText(parts[i + 1..])
  {
    hide Digits;
    assert parts[i..][0] == parts[i] && parts[i..][1..] == parts[i + 1..];
  }

  lemma NoParts(parts: seq<Part>)
    requires parts == []
    ensures PartsText(parts) == ['Z']
  {}

  // ---------- text order is time order

  /** Two runs of parts laid out alike. */
  predicate Alike(a: seq<Part>, b: seq<Part>) {
    |a| == |b| && forall i | 0 <= i < |a| :: a[i].separator == b[i].separator && a[i].width == b[i].width
  }

  predicate Fit(parts: seq<Part>) {
    forall i | 0 <= i < |parts| :: parts[i].value < Pow10(parts[i].width)
  }

  function CompareParts(a: seq<Part>, b: seq<Part>): Ordering
    requires |a| == |b|
  {
    if a == [] then Equal else CompareInt(a[0].value, b[0].value).Then(CompareParts(a[1..], b[1..]))
  }

  lemma {:induction false} PartsOrder(a: seq<Part>, b: seq<Part>)
    requires Alike(a, b) && Fit(a) && Fit(b)
    ensures CompareText(PartsText(a), PartsText(b)) == CompareParts(a, b)
  {
    if a == [] {
      CompareTextEqual(['Z'], ['Z']);
    } else {
      var x, y := Digits(a[0].value, a[0].width), Digits(b[0].value, b[0].width);
      PartsOrder(a[1..], b[1..]);
      DigitsOrder(a[0].value, b[0].value, a[0].width);
      CompareConcat([a[0].separator] + x, [b[0].separator] + y, PartsText(a[1..]), PartsText(b[1..]));
      assert ([a[0].separator] + x)[1..] == x && ([b[0].separator] + y)[1..] == y;
    }
  }

  lemma PartsAlike(precision: Precision, a: Instant, b: Instant)
    ensures Alike(Parts(precision, a), Parts(precision, b))
  {
    hide Civil, DaysOf, ClockOf, SecondsOf, MicrosOf, IsDate;
  }

  lemma PowersOfTen()
    ensures Pow10(2) == 100 && Pow10(4) == 10_000 && Pow10(6) == 1_000_000
  {
    assert Pow10(1) == 10;
    assert Pow10(3) == 1000;
    assert Pow10(5) == 100_000;
  }

  lemma PartsFit(precision: Precision, instant: Instant)
    ensures Fit(Parts(precision, instant))
  {
    hide Civil, DaysOf, ClockOf, SecondsOf;
    PowersOfTen();
    CivilIsTheCalendar(DaysOf(SecondsOf(instant)));
    ClockRecombines(SecondsOf(instant));
  }

  /** The parts compare as the date within its year, the time of day, and then the microseconds. */
  lemma PartsCompare(precision: Precision, a: Instant, b: Instant)
    ensures |Parts(precision, a)| == |Parts(precision, b)|
    ensures var s, t := SecondsOf(a), SecondsOf(b);
            var x, y := Civil(DaysOf(s)), Civil(DaysOf(t));
            CompareParts(Parts(precision, a), Parts(precision, b))
            == CompareInt(x.month, y.month).Then(CompareInt(x.day, y.day)).Then(CompareClock(ClockOf(s), ClockOf(t)))
               .Then(if precision == Microsecond then CompareInt(MicrosOf(a), MicrosOf(b)) else Equal)
  {
    hide Civil, DaysOf, ClockOf, SecondsOf, MicrosOf, IsDate, CompareInt;
    var p, q := Parts(precision, a), Parts(precision, b);
    CompareFrom(p, q, 0);
    CompareFrom(p, q, 1);
    CompareFrom(p, q, 2);
    CompareFrom(p, q, 3);
    CompareFrom(p, q, 4);
    if precision == Microsecond {
      CompareFrom(p, q, 5);
      assert p[6..] == [] && q[6..] == [];
    } else {
      assert p[5..] == [] && q[5..] == [];
    }
    assert p[0..] == p && q[0..] == q;
  }

  lemma CompareFrom(a: seq<Part>, b: seq<Part>, i: nat)
    requires i < |a| == |b|
    ensures CompareParts(a[i..], b[i..])
            == CompareInt(a[i].value, b[i].value).Then(CompareParts(a[i + 1..], b[i + 1..]))
  {
    assert a[i..][1..] == a[i + 1..] && b[i..][1..] == b[i + 1..];
  }

  lemma TruncatedOrder(precision: Precision, a: Instant, b: Instant)
    ensures CompareInt(Truncated(precision, a), Truncated(precision, b))
            == CompareInt(SecondsOf(a), SecondsOf(b))
               .Then(if precision == Microsecond then CompareInt(MicrosOf(a), MicrosOf(b)) else Equal)
  {
    MicrosecondParts(a);
    MicrosecondParts(b);
  }

  lemma MicrosecondParts(instant: Instant)
    ensures instant / 1000 == 1_000_000 * SecondsOf(instant) + MicrosOf(instant)
    ensures 0 <= MicrosOf(instant) < 1_000_000
  {
    var seconds, rest := instant / NANOS, instant % NANOS;
    assert instant == 1000 * (1_000_000 * seconds) + rest;
    assert instant / 1000 == 1_000_000 * seconds + rest / 1000;
  }

  /** Text order is time order: the stored forms of two instants at one precision compare as text
      exactly as the instants do, truncated to that precision, and are the same text exactly when
      those are the same. */
  lemma TextOrderIsTimeOrder(precision: Precision, a: Instant, b: Instant)
    requires FourDigitYear(a) && FourDigitYear(b)
    ensures CompareText(Format(precision, a), Format(precision, b))
            == CompareInt(Truncated(precision, a), Truncated(precision, b))
    ensures Format(precision, a) == Format(precision, b) <==> Truncated(precision, a) == Truncated(precision, b)
  {
    hide Civil, Parts, PartsText, Digits, CompareText, Truncated, SecondsOf, DaysOf, ClockOf, MicrosOf, CompareClock;
    FourDigitYears(a);
    FourDigitYears(b);
    var x, y := Civil(DaysOf(SecondsOf(a))).year, Civil(DaysOf(SecondsOf(b))).year;
    var p, q := Parts(precision, a), Parts(precision, b);
    CompareTextEqual(Format(precision, a), Format(precision, b));
    CompareConcat(Digits(x, 4), Digits(y, 4), PartsText(p), PartsText(q));
    PowersOfTen();
    DigitsOrder(x, y, 4);
    PartsAlike(precision, a, b);
    PartsFit(precision, a);
    PartsFit(precision, b);
    PartsOrder(p, q);
    PartsCompare(precision, a, b);
    SecondOrder(SecondsOf(a), SecondsOf(b));
    TruncatedOrder(precision, a, b);
  }

  // ---------- what the text says

  /** The number a run of decimal digits denotes. */
  function NumberIn(digits: string): int {
    if digits == [] then 0
    else 10 * NumberIn(digits[..|digits| - 1]) + (digits[|digits| - 1] as int - '0' as int)
  }

  predicate AllDigits(text: string) {
    forall i | 0 <= i < |text| :: '0' <= text[i] <= '9'
  }

  /** Zero-padded digits are digits, and denote the number. */
  lemma {:induction false} DigitsDenote(value: nat, width: nat)
    requires value < Pow10(width)
    ensures AllDigits(Digits(value, width)) && NumberIn(Digits(value, width)) == value
  {
    if width > 0 {
      DigitsDenote(value / 10, width - 1);
      var digits := Digits(value, width);
      assert digits[..|digits| - 1] == Digits(value / 10, width - 1);
      assert digits[|digits| - 1] == Digit(value % 10);
    }
  }

  /** Where a part begins. */
  function Offset(parts: seq<Part>, i: nat): nat
    requires i <= |parts|
  {
    if i == 0 then 0 else 1 + parts[0].width + Offset(parts[1..], i - 1)
  }

  /** From `at` on the text has the separator and then, in as many digits as it is wide, the value. */
  predicate Says(text: string, at: nat, part: Part) {
    && at + 1 + part.width <= |text|
    && text[at] == part.separator
    && AllDigits(text[at + 1..at + 1 + part.width])
    && NumberIn(text[at + 1..at + 1 + part.width]) == part.value
  }

  lemma {:induction false} PartsSay(parts: seq<Part>, i: nat)
    requires i < |parts| && Fit(parts)
    ensures Says(PartsText(parts), Offset(parts, i), parts[i])
  {
    hide NumberIn, AllDigits;
    var first, rest := parts[0], PartsText(parts[1..]);
    var head := [first.separator] + Digits(first.value, first.width);
    var text := PartsText(parts);
    assert text == head + rest;
    if i == 0 {
      DigitsDenote(first.value, first.width);
      assert text[1..1 + first.width] == Digits(first.value, first.width);
    } else {
      PartsSay(parts[1..], i - 1);
      var at, width := Offset(parts[1..], i - 1), parts[i].width;
      assert text[|head| + at + 1..|head| + at + 1 + width] == rest[at + 1..at + 1 + width];
    }
  }

  lemma {:induction false} PartsEnd(parts: seq<Part>)
    ensures |PartsText(parts)| == Offset(parts, |parts|) + 1
    ensures PartsText(parts)[Offset(parts, |parts|)] == 'Z'
  {
    if parts != [] {
      PartsEnd(parts[1..]);
    }
  }

  lemma SaysAfter(front: string, text: string, at: nat, part: Part)
    requires Says(text, at, part)
    ensures Says(front + text, |front| + at, part)
  {
    hide NumberIn, AllDigits;
    assert (front + text)[|front| + at + 1..|front| + at + 1 + part.width] == text[at + 1..at + 1 + part.width];
  }

  lemma OffsetsOfParts(precision: Precision, instant: Instant)
    ensures var parts := Parts(precision, instant);
            && |parts| == (if precision == Microsecond then 6 else 5)
            && Offset(parts, 0) == 0 && Offset(parts, 1) == 3 && Offset(parts, 2) == 6
            && Offset(parts, 3) == 9 && Offset(parts, 4) == 12 && Offset(parts, 5) == 15
            && (precision == Microsecond ==> Offset(parts, 6) == 22)
  {
    hide Civil, DaysOf, ClockOf, SecondsOf, MicrosOf, IsDate;
    var parts := Parts(precision, instant);
    assert |parts| >= 5 && forall i | 0 <= i < 5 :: parts[i].width == 2;
    OffsetNext(parts, 0);
    OffsetNext(parts, 1);
    OffsetNext(parts, 2);
    OffsetNext(parts, 3);
    OffsetNext(parts, 4);
    if precision == Microsecond {
      assert parts[5].width == 6;
      OffsetNext(parts, 5);
    }
  }

  lemma {:induction false} OffsetNext(parts: seq<Part>, i: nat)
    requires i < |parts|
    ensures Offset(parts, i + 1) == Offset(parts, i) + 1 + parts[i].width
  {
    if i > 0 {
      OffsetNext(parts[1..], i - 1);
    }
  }

  /** Read back, the stored form says the year, month and day of the instant's date and the hour, minute
      and second of its clock, with the microseconds at that precision: `0000-00-00T00:00:00Z` and
      `0000-00-00T00:00:00.000000Z` with the digits filled in. */
  lemma FormatReadsBack(precision: Precision, instant: Instant)
    requires FourDigitYear(instant)
    ensures var text, seconds := Format(precision, instant), SecondsOf(instant);
            var date, clock := Civil(DaysOf(seconds)), ClockOf(seconds);
            && |text| == (if precision == Microsecond then 27 else 20)
            && AllDigits(text[..4]) && NumberIn(text[..4]) == date.year
            && date.month >= 0 && date.day >= 0 && clock.hour >= 0 && clock.minute >= 0 && clock.second >= 0
            && Says(text, 4, Part('-', date.month, 2))
            && Says(text, 7, Part('-', date.day, 2))
            && Says(text, 10, Part('T', clock.hour, 2))
            && Says(text, 13, Part(':', clock.minute, 2))
            && Says(text, 16, Part(':', clock.second, 2))
            && (precision == Microsecond ==> Says(text, 19, Part('.', MicrosOf(instant), 6)))
            && text[|text| - 1] == 'Z'
  {
    hide Civil, DaysOf, ClockOf, SecondsOf, MicrosOf, PartsText, Digits, Offset, Says, NumberIn, AllDigits;
    var parts, year := Parts(precision, instant), Civil(DaysOf(SecondsOf(instant))).year;
    FourDigitYears(instant);
    var front, text := Digits(year, 4), Format(precision, instant);
    CivilIsTheCalendar(DaysOf(SecondsOf(instant)));
    ClockRecombines(SecondsOf(instant));
    PowersOfTen();
    DigitsDenote(year, 4);
    assert text == front + PartsText(parts) && text[..4] == front;
    PartsFit(precision, instant);
    OffsetsOfParts(precision, instant);
    PartsEnd(parts);
    forall i | 0 <= i < |parts|
      ensures Says(text, 4 + Offset(parts, i), parts[i])
    {
      PartsSay(parts, i);
      SaysAfter(front, PartsText(parts), Offset(parts, i), parts[i]);
    }
    assert Says(text, 4 + Offset(parts, 0), parts[0]) && Says(text, 4 + Offset(parts, 1), parts[1]);
    assert Says(text, 4 + Offset(parts, 2), parts[2]) && Says(text, 4 + Offset(parts, 3), parts[3]);
    assert Says(text, 4 + Offset(parts, 4), parts[4]);
    if precision == Microsecond {
      assert Says(text, 4 + Offset(parts, 5), parts[5]);
    }
  }
}
