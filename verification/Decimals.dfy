/**
 Decimal text compared exactly: however long, and however a number is spelled.

 A decimal is an optional sign, digits, and optionally a point with at least one digit after it.
 */
module Decimals {
  import opened Wrappers
  import opened TextOrder
  import opened Powers

  // ---------- the code's tests and comparison

  predicate IsDigit(c: char) {
    '0' <= c <= '9'
  }

  predicate AllDigits(s: string) {
    forall i | 0 <= i < |s| :: IsDigit(s[i])
  }

  predicate IsSign(c: char) {
    c == '+' || c == '-'
  }

  /** Where the first point is, or the end. */
  function FirstPoint(s: string): (i: nat)
    ensures i <= |s|
  {
    if s == [] || s[0] == '.' then 0 else 1 + FirstPoint(s[1..])
  }

  function WholePart(s: string): string {
    s[..FirstPoint(s)]
  }

  function FractionPart(s: string): Option<string> {
    if FirstPoint(s) < |s| then Some(s[FirstPoint(s) + 1..]) else None
  }

  function StripSign(raw: string): string {
    if raw != [] && IsSign(raw[0]) then raw[1..] else raw
  }

  predicate IsDecimal(raw: string) {
    var rest := StripSign(raw);
    var whole, fraction := WholePart(rest), FractionPart(rest);
    && rest != []
    && !(fraction.Some? && FractionPart(fraction.value).Some?)
    && AllDigits(whole)
    && (fraction.Some? ==> fraction.value != [] && AllDigits(fraction.value))
    && !(whole == [] && fraction.None?)
  }

  function TrimSigns(s: string): string {
    if s != [] && IsSign(s[0]) then TrimSigns(s[1..]) else s
  }

  function TrimLeadingZeros(s: string): string {
    if s != [] && s[0] == '0' then TrimLeadingZeros(s[1..]) else s
  }

  function TrimTrailingZeros(s: string): string {
    if s != [] && s[|s| - 1] == '0' then TrimTrailingZeros(s[..|s| - 1]) else s
  }

  datatype Magnitude = Magnitude(negative: bool, whole: string, fraction: string)

  function Split(raw: string): Option<Magnitude> {
    if !IsDecimal(raw) then None
    else
      var rest := TrimSigns(raw);
      var whole := TrimLeadingZeros(WholePart(rest));
      var fraction := TrimTrailingZeros(FractionPart(rest).UnwrapOr([]));
      var zero := whole == [] && fraction == [];
      Some(Magnitude(raw[..1] == ['-'] && !zero, whole, fraction))
  }

  function CompareMagnitude(a: Magnitude, b: Magnitude): Ordering {
    CompareInt(|a.whole|, |b.whole|).Then(CompareText(a.whole, b.whole)).Then(CompareText(a.fraction, b.fraction))
  }

  function CompareDecimal(a: string, b: string): Option<Ordering> {
    var x, y := Split(a), Split(b);
    if x.None? || y.None? then None
    else
      var magnitude := CompareMagnitude(x.value, y.value);
      Some(match (x.value.negative, y.value.negative)
           case (false, true) => Greater
           case (true, false) => Less
           case (false, false) => magnitude
           case (true, true) => magnitude.Reverse())
  }

  // ---------- what a decimal is, and the number it denotes

  datatype Sign = Unsigned | Plus | Minus

  datatype Numeral = Numeral(sign: Sign, whole: string, fraction: string)

  predicate WellFormed(n: Numeral) {
    AllDigits(n.whole) && AllDigits(n.fraction) && !(n.whole == [] && n.fraction == [])
  }

  function SignText(sign: Sign): string {
    match sign
    case Unsigned => []
    case Plus => ['+']
    case Minus => ['-']
  }

  function Unsignedly(n: Numeral): string {
    n.whole + if n.fraction == [] then [] else ['.'] + n.fraction
  }

  function Text(n: Numeral): string {
    SignText(n.sign) + Unsignedly(n)
  }

  function DigitValue(c: char): nat
    requires IsDigit(c)
  {
    (c - '0') as nat
  }

  function Whole(s: string): nat
    requires AllDigits(s)
  {
    if s == [] then 0 else DigitValue(s[0]) * Pow10(|s| - 1) + Whole(s[1..])
  }

  function Fraction(s: string): real
    requires AllDigits(s)
  {
    if s == [] then 0.0 else (DigitValue(s[0]) as real + Fraction(s[1..])) / 10.0
  }

  function Size(n: Numeral): real
    requires WellFormed(n)
  {
    Whole(n.whole) as real + Fraction(n.fraction)
  }

  function Number(n: Numeral): real
    requires WellFormed(n)
  {
    if n.sign == Minus then -Size(n) else Size(n)
  }

  function CompareReal(a: real, b: real): Ordering {
    if a < b then Less else if a == b then Equal else Greater
  }

  // ---------- reading a numeral's text

  lemma {:induction false} PointAfter(whole: string, rest: string)
    requires AllDigits(whole)
    ensures FirstPoint(whole + rest) == |whole| + FirstPoint(rest)
  {
    if whole == [] {
      assert whole + rest == rest;
    } else {
      PointAfter(whole[1..], rest);
      assert (whole + rest)[1..] == whole[1..] + rest;
    }
  }

  lemma PartsOfText(n: Numeral)
    requires WellFormed(n)
    ensures WholePart(Unsignedly(n)) == n.whole
    ensures FractionPart(Unsignedly(n)) == if n.fraction == [] then None else Some(n.fraction)
    ensures Unsignedly(n) != [] && !IsSign(Unsignedly(n)[0])
  {
    if n.fraction == [] {
      PointAfter(n.whole, []);
      assert Unsignedly(n) == n.whole;
    } else {
      PointAfter(n.whole, ['.'] + n.fraction);
      assert Unsignedly(n)[|n.whole| + 1..] == n.fraction;
    }
  }

  lemma SignsOfText(n: Numeral)
    requires WellFormed(n)
    ensures StripSign(Text(n)) == TrimSigns(Text(n)) == Unsignedly(n)
    ensures Text(n)[..1] == ['-'] <==> n.sign == Minus
  {
    PartsOfText(n);
    if n.sign == Unsigned {
      assert Text(n) == Unsignedly(n);
      assert Text(n)[..1][0] == Text(n)[0];
    } else {
      assert Text(n)[1..] == Unsignedly(n);
      assert TrimSigns(Text(n)) == TrimSigns(Text(n)[1..]);
    }
  }

  lemma NoPointInDigits(s: string)
    requires AllDigits(s)
    ensures FractionPart(s).None?
  {
    PointAfter(s, []);
    assert s + [] == s;
  }

  /** The texts the code takes for decimals are exactly the numerals' texts. */
  lemma DecimalsAreTheNumeralsTexts(raw: string)
    ensures IsDecimal(raw) <==> exists n :: WellFormed(n) && Text(n) == raw
  {
    if IsDecimal(raw) {
      var rest := StripSign(raw);
      var sign := if rest == raw then Unsigned else if raw[0] == '+' then Plus else Minus;
      var n := Numeral(sign, WholePart(rest), FractionPart(rest).UnwrapOr([]));
      PointWithin(rest);
      assert Unsignedly(n) == rest;
      assert Text(n) == raw;
    }
    if n :| WellFormed(n) && Text(n) == raw {
      SignsOfText(n);
      PartsOfText(n);
      NoPointInDigits(n.fraction);
    }
  }

  lemma {:induction false} PointWithin(s: string)
    ensures FirstPoint(s) < |s| ==> s[FirstPoint(s)] == '.'
  {
    if s != [] && s[0] != '.' {
      PointWithin(s[1..]);
    }
  }

  // ---------- trimming keeps the number

  predicate NoLeadingZero(s: string) {
    s != [] ==> s[0] != '0'
  }

  predicate NoTrailingZero(s: string) {
    s != [] ==> s[|s| - 1] != '0'
  }

  lemma {:induction false} TrimmedWhole(s: string)
    requires AllDigits(s)
    ensures AllDigits(TrimLeadingZeros(s)) && NoLeadingZero(TrimLeadingZeros(s))
    ensures Whole(TrimLeadingZeros(s)) == Whole(s)
  {
    if s != [] && s[0] == '0' {
      TrimmedWhole(s[1..]);
    }
  }

  lemma {:induction false} ZerosAfter(s: string)
    requires AllDigits(s)
    ensures AllDigits(s + ['0']) && Fraction(s + ['0']) == Fraction(s)
  {
    if s == [] {
      assert (s + ['0'])[1..] == [];
    } else {
      assert (s + ['0'])[1..] == s[1..] + ['0'];
      ZerosAfter(s[1..]);
    }
  }

  lemma {:induction false} TrimmedFraction(s: string)
    requires AllDigits(s)
    ensures AllDigits(TrimTrailingZeros(s)) && NoTrailingZero(TrimTrailingZeros(s))
    ensures Fraction(TrimTrailingZeros(s)) == Fraction(s)
  {
    if s != [] && s[|s| - 1] == '0' {
      var front := s[..|s| - 1];
      TrimmedFraction(front);
      ZerosAfter(front);
      assert s == front + ['0'];
    }
  }

  // ---------- text order is number order

  lemma {:induction false} WholeBelow(s: string)
    requires AllDigits(s)
    ensures Whole(s) < Pow10(|s|)
  {
    if s != [] {
      WholeBelow(s[1..]);
      AtMost(DigitValue(s[0]), 9, Pow10(|s| - 1));
    }
  }

  lemma WholeFrom(s: string)
    requires AllDigits(s) && NoLeadingZero(s) && s != []
    ensures Pow10(|s| - 1) <= Whole(s)
  {
    AtMost(1, DigitValue(s[0]), Pow10(|s| - 1));
  }

  lemma {:induction false} Pow10Grows(m: nat, n: nat)
    requires m <= n
    ensures Pow10(m) <= Pow10(n)
  {
    if m < n {
      Pow10Grows(m, n - 1);
    }
  }

  lemma LeadingDigit(d: nat, e: nat, p: nat, x: nat, y: nat)
    requires d < e && x < p
    ensures d * p + x < e * p + y
  {
    AtMost(d + 1, e, p);
    assert (d + 1) * p == d * p + p;
  }

  lemma {:induction false} SameLengthOrder(a: string, b: string)
    requires AllDigits(a) && AllDigits(b) && |a| == |b|
    ensures CompareText(a, b) == CompareInt(Whole(a), Whole(b))
  {
    if a != [] {
      var p := Pow10(|a| - 1);
      SameLengthOrder(a[1..], b[1..]);
      WholeBelow(a[1..]);
      WholeBelow(b[1..]);
      if a[0] < b[0] {
        LeadingDigit(DigitValue(a[0]), DigitValue(b[0]), p, Whole(a[1..]), Whole(b[1..]));
      } else if b[0] < a[0] {
        LeadingDigit(DigitValue(b[0]), DigitValue(a[0]), p, Whole(b[1..]), Whole(a[1..]));
      }
    }
  }

  lemma ShorterIsLess(a: string, b: string)
    requires AllDigits(a) && AllDigits(b) && NoLeadingZero(b) && |a| < |b|
    ensures Whole(a) < Whole(b)
  {
    WholeBelow(a);
    WholeFrom(b);
    Pow10Grows(|a|, |b| - 1);
  }

  lemma WholeOrder(a: string, b: string)
    requires AllDigits(a) && AllDigits(b) && NoLeadingZero(a) && NoLeadingZero(b)
    ensures CompareInt(|a|, |b|).Then(CompareText(a, b)) == CompareInt(Whole(a), Whole(b))
  {
    hide Whole, CompareText;
    if |a| < |b| {
      ShorterIsLess(a, b);
    } else if |b| < |a| {
      ShorterIsLess(b, a);
    } else {
      SameLengthOrder(a, b);
    }
  }

  lemma {:induction false} FractionBounds(s: string)
    requires AllDigits(s)
    ensures 0.0 <= Fraction(s) < 1.0
    ensures NoTrailingZero(s) ==> (Fraction(s) == 0.0 <==> s == [])
  {
    if s != [] {
      FractionBounds(s[1..]);
    }
  }

  lemma {:induction false} FractionOrder(a: string, b: string)
    requires AllDigits(a) && AllDigits(b) && NoTrailingZero(a) && NoTrailingZero(b)
    ensures CompareText(a, b) == CompareReal(Fraction(a), Fraction(b))
  {
    FractionBounds(a);
    FractionBounds(b);
    if a != [] && b != [] {
      FractionOrder(a[1..], b[1..]);
      FractionBounds(a[1..]);
      FractionBounds(b[1..]);
    }
  }

  // ---------- exact comparison

  /** A numeral's magnitude as the code splits it off. */
  function Trimmed(n: Numeral): Magnitude {
    var whole, fraction := TrimLeadingZeros(n.whole), TrimTrailingZeros(n.fraction);
    Magnitude(n.sign == Minus && !(whole == [] && fraction == []), whole, fraction)
  }

  lemma SplitText(n: Numeral)
    requires WellFormed(n)
    ensures Split(Text(n)) == Some(Trimmed(n))
  {
    hide Text, Unsignedly, WholePart, FractionPart;
    DecimalsAreTheNumeralsTexts(Text(n));
    SignsOfText(n);
    PartsOfText(n);
  }

  lemma MagnitudeOrder(m: Numeral, n: Numeral)
    requires WellFormed(m) && WellFormed(n)
    ensures CompareMagnitude(Trimmed(m), Trimmed(n)) == CompareReal(Size(m), Size(n))
  {
    hide Whole, Fraction, CompareText;
    TrimmedWhole(m.whole);
    TrimmedWhole(n.whole);
    TrimmedFraction(m.fraction);
    TrimmedFraction(n.fraction);
    var a, b := Trimmed(m), Trimmed(n);
    WholeOrder(a.whole, b.whole);
    FractionOrder(a.fraction, b.fraction);
    FractionBounds(a.fraction);
    FractionBounds(b.fraction);
  }

  /** The code's negative numbers are those below zero: a negative zero is not one. */
  lemma NegativeMeansBelowZero(n: Numeral)
    requires WellFormed(n)
    ensures Trimmed(n).negative <==> Number(n) < 0.0
    ensures Size(n) >= 0.0
  {
    TrimmedWhole(n.whole);
    TrimmedFraction(n.fraction);
    var m := Trimmed(n);
    FractionBounds(m.fraction);
    if m.whole != [] {
      WholeFrom(m.whole);
      Pow10Positive(|m.whole| - 1);
    }
  }

  /** Two decimals compare as the numbers they denote. */
  lemma ComparesTheNumbers(m: Numeral, n: Numeral)
    requires WellFormed(m) && WellFormed(n)
    ensures CompareDecimal(Text(m), Text(n)) == Some(CompareReal(Number(m), Number(n)))
  {
    hide Text, Split, Trimmed, Size, CompareMagnitude;
    SplitText(m);
    SplitText(n);
    MagnitudeOrder(m, n);
    NegativeMeansBelowZero(m);
    NegativeMeansBelowZero(n);
  }

  /** There is an answer exactly for two decimals. */
  lemma AnswersExactlyForDecimals(a: string, b: string)
    ensures CompareDecimal(a, b).None? <==> !IsDecimal(a) || !IsDecimal(b)
  {}

  /** Among decimals the comparison is a total preorder, two of them equal exactly when they denote one number. */
  lemma IsATotalPreorder(a: string, b: string, c: string)
    requires IsDecimal(a) && IsDecimal(b) && IsDecimal(c)
    ensures CompareDecimal(a, a) == Some(Equal)
    ensures CompareDecimal(b, a) == Some(CompareDecimal(a, b).value.Reverse())
    ensures CompareDecimal(a, b).value != Greater && CompareDecimal(b, c).value != Greater ==>
              CompareDecimal(a, c).value == CompareDecimal(a, b).value.Then(CompareDecimal(b, c).value)
  {
    hide CompareDecimal, Number, Text, IsDecimal;
    DecimalsAreTheNumeralsTexts(a);
    DecimalsAreTheNumeralsTexts(b);
    DecimalsAreTheNumeralsTexts(c);
    var l :| WellFormed(l) && Text(l) == a;
    var m :| WellFormed(m) && Text(m) == b;
    var n :| WellFormed(n) && Text(n) == c;
    ComparesTheNumbers(l, l);
    ComparesTheNumbers(l, m);
    ComparesTheNumbers(m, l);
    ComparesTheNumbers(m, n);
    ComparesTheNumbers(l, n);
  }
}
