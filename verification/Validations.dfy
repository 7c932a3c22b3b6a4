/**
 The built-in validations: checked of a record in memory, and as the conditions under which a
 statement fails.
 */
module Validations {
  import opened Wrappers
  import opened Values
  import opened Atomic
  import Filters

  datatype Validation =
    | Present(field: string)
    | LengthWithin(field: string, minLength: Option<nat>, maxLength: Option<nat>)
    | Among(field: string, allowed: seq<string>)
    | NumberWithin(field: string, min: Option<int>, max: Option<int>)

  /** Integers as floats, and the finite floats that texts denote. */
  datatype Numbers = Numbers(rounded: int -> real, parse: string -> Option<real>)

  const STRING: AttributeType := "String"
  const CI_STRING: AttributeType := "CiString"

  // ---------- of a record in memory

  predicate IsBlank(store: Store, text: string) {
    store.change(Trim, text) == ""
  }

  predicate LengthOutside(min: Option<nat>, max: Option<nat>, length: nat) {
    (min.Some? && length < min.value) || (max.Some? && length > max.value)
  }

  predicate Outside(min: Option<int>, max: Option<int>, n: int) {
    (min.Some? && n < min.value) || (max.Some? && n > max.value)
  }

  predicate RoundedOutside(numbers: Numbers, min: Option<int>, max: Option<int>, n: real) {
    (min.Some? && n < numbers.rounded(min.value)) || (max.Some? && n > numbers.rounded(max.value))
  }

  /** A text that is no number, or one outside. */
  predicate TextOutside(numbers: Numbers, min: Option<int>, max: Option<int>, text: string) {
    numbers.parse(text).None? || RoundedOutside(numbers, min, max, numbers.parse(text).value)
  }

  /** The validation fails of the value its field will hold, null if it is missing. */
  predicate Rejects(store: Store, numbers: Numbers, validation: Validation, v: Value) {
    match validation
    case Present(_) => v == Null || (v.Text? && IsBlank(store, v.text))
    case LengthWithin(_, min, max) => v.Text? && LengthOutside(min, max, |v.text|)
    case Among(_, allowed) => v.Text? && v.text !in allowed
    case NumberWithin(_, min, max) =>
      (match v
       case Null => false
       case Int(n) => RoundedOutside(numbers, min, max, numbers.rounded(n))
       case Text(text) => TextOutside(numbers, min, max, text)
       case _ => true)
  }

  /** Where integers are floats exactly, a number is rejected exactly if it is below the minimum or above the
      maximum, written as an integer or as text; and text that is no number, and any other value but null,
      always is. */
  lemma NumbersOutsideAreRejected(store: Store, numbers: Numbers, field: string, min: Option<int>, max: Option<int>,
                                  v: Value)
    requires forall n :: numbers.rounded(n) == n as real
    ensures var rejected := Rejects(store, numbers, NumberWithin(field, min, max), v);
            && (v.Int? ==> (rejected <==> (min.Some? && v.n < min.value) || (max.Some? && v.n > max.value)))
            && (v.Text? && numbers.parse(v.text).Some? ==>
                  var n := numbers.parse(v.text).value;
                  rejected <==> (min.Some? && n < min.value as real) || (max.Some? && n > max.value as real))
            && (v.Text? && numbers.parse(v.text).None? ==> rejected)
            && (v == Null ==> !rejected)
            && (v != Null && !v.Int? && !v.Text? ==> rejected)
  {}

  // ---------- in a statement

  /** A stored attribute that is text; a computed value never is. */
  predicate IsText(store: Store, value: Expr) {
    TypeOf(store, value) == Some(STRING) || TypeOf(store, value) == Some(CI_STRING)
  }

  function Texts(allowed: seq<string>): seq<Value> {
    seq(|allowed|, i requires 0 <= i < |allowed| => Text(allowed[i]))
  }

  function Bounds(min: Option<int>, max: Option<int>, value: Expr): seq<Expr> {
    (if min.Some? then [Compared(Lt, value, Known(Int(min.value)))] else [])
      + (if max.Some? then [Compared(Gt, value, Known(Int(max.value)))] else [])
  }

  /** The conditions under which a statement that leaves the field with `value` fails. */
  function FailsWhen(store: Store, validation: Validation, value: Expr): seq<Expr> {
    match validation
    case Present(_) =>
      if IsText(store, value)
      then [Or([IsNil(value), Compared(Eq, Changed(Trim, value), Known(Text("")))])]
      else [IsNil(value)]
    case LengthWithin(_, min, max) => if IsText(store, value) then Bounds(min, max, StringLength(value)) else []
    case Among(_, allowed) => [Not(In(value, Texts(allowed)))]
    case NumberWithin(_, min, max) => Bounds(min, max, value)
  }

  predicate AnyHolds(store: Store, conditions: seq<Expr>, row: Record) {
    exists k :: 0 <= k < |conditions| && Eval(store, conditions[k], row) == Bool(true)
  }

  // ---------- where the statement fails as the record is rejected

  /** A value of that order is outside by the order of values: which has text above every number, and
      truth below. */
  ghost predicate OrderedOutside(asFloat: int -> int, min: Option<int>, max: Option<int>, v: Value) {
    || (min.Some? && Compare(asFloat, v, Int(min.value)) == Less)
    || (max.Some? && Compare(asFloat, v, Int(max.value)) == Greater)
  }

  /** The field's value `v`, held as `value`, is one the conditions judge as the validation does. */
  ghost predicate JudgedAlike(store: Store, numbers: Numbers, asFloat: int -> int, validation: Validation,
                              value: Expr, v: Value) {
    match validation
    case Present(_) => IsText(store, value) || !v.Text? || !IsBlank(store, v.text)
    case LengthWithin(_, min, max) => IsText(store, value) || !v.Text? || !LengthOutside(min, max, |v.text|)
    case Among(_, allowed) =>
      v == Null || (v.Text? && (v.text in allowed <==> OneOf(store, TypeOf(store, value), v, Texts(allowed))))
    case NumberWithin(_, min, max) =>
      (match v
       case Null => true
       case Int(n) => Outside(min, max, n) <==> RoundedOutside(numbers, min, max, numbers.rounded(n))
       case Text(text) => max.Some? <==> TextOutside(numbers, min, max, text)
       case _ => OrderedOutside(asFloat, min, max, v))
  }

  lemma OneHolds(store: Store, condition: Expr, row: Record)
    ensures AnyHolds(store, [condition], row) <==> Eval(store, condition, row) == Bool(true)
  {
    hide Eval;
    assert [condition][0] == condition;
  }

  lemma EitherHolds(store: Store, a: seq<Expr>, b: seq<Expr>, row: Record)
    ensures AnyHolds(store, a + b, row) <==> AnyHolds(store, a, row) || AnyHolds(store, b, row)
  {
    hide Eval;
    if k :| 0 <= k < |a + b| && Eval(store, (a + b)[k], row) == Bool(true) {
      assert if k < |a| then (a + b)[k] == a[k] else (a + b)[k] == b[k - |a|];
    }
    if k :| 0 <= k < |a| && Eval(store, a[k], row) == Bool(true) {
      assert (a + b)[k] == a[k];
    }
    if k :| 0 <= k < |b| && Eval(store, b[k], row) == Bool(true) {
      assert (a + b)[|a| + k] == b[k];
    }
  }

  lemma {:induction false} BoundHolds(store: Store, asFloat: int -> int, relation: Relation, value: Expr, bound: int,
                                      row: Record)
    requires ComparesValues(store, asFloat)
    ensures var v := Eval(store, value, row);
            Eval(store, Compared(relation, value, Known(Int(bound))), row) == Bool(true)
            <==> v != Null && Stands(relation, Compare(asFloat, v, Int(bound)))
  {
    hide Compare, ComparisonType;
    assert Eval(store, Known(Int(bound)), row) == Int(bound);
  }

  /** A value fails its bounds where it is not null and outside them by the order of values. */
  lemma {:induction false} BoundsHold(store: Store, asFloat: int -> int, min: Option<int>, max: Option<int>,
                                      value: Expr, row: Record)
    requires ComparesValues(store, asFloat)
    ensures var v := Eval(store, value, row);
            AnyHolds(store, Bounds(min, max, value), row) <==> v != Null && OrderedOutside(asFloat, min, max, v)
  {
    hide Eval, Compare, AnyHolds, ComparesValues;
    var below := if min.Some? then [Compared(Lt, value, Known(Int(min.value)))] else [];
    var above := if max.Some? then [Compared(Gt, value, Known(Int(max.value)))] else [];
    EitherHolds(store, below, above, row);
    NoneHolds(store, row);
    if min.Some? {
      OneHolds(store, below[0], row);
      BoundHolds(store, asFloat, Lt, value, min.value, row);
    }
    if max.Some? {
      OneHolds(store, above[0], row);
      BoundHolds(store, asFloat, Gt, value, max.value, row);
    }
  }

  lemma NoneHolds(store: Store, row: Record)
    ensures !AnyHolds(store, [], row)
  {}

  lemma OrderOfBounds(asFloat: int -> int, min: Option<int>, max: Option<int>, v: Value)
    ensures v.Int? ==> (OrderedOutside(asFloat, min, max, v) <==> Outside(min, max, v.n))
    ensures v.Text? ==> (OrderedOutside(asFloat, min, max, v) <==> max.Some?)
  {}

  lemma {:induction false} LengthHolds(
    store: Store, asFloat: int -> int, min: Option<nat>, max: Option<nat>, value: Expr, row: Record)
    requires ComparesValues(store, asFloat)
    ensures var v := Eval(store, value, row);
            AnyHolds(store, FailsWhen(store, LengthWithin("", min, max), value), row)
            <==> IsText(store, value) && v.Text? && LengthOutside(min, max, |v.text|)
  {
    hide AnyHolds, Bounds, ComparesValues, OrderedOutside, TypeOf;
    var v, length := Eval(store, value, row), StringLength(value);
    NoneHolds(store, row);
    assert Eval(store, length, row) == if v.Text? then Int(|v.text|) else Null;
    BoundsHold(store, asFloat, min, max, length, row);
    OrderOfBounds(asFloat, min, max, Eval(store, length, row));
  }

  lemma {:induction false} AmongHolds(store: Store, asFloat: int -> int, allowed: seq<string>, value: Expr, row: Record)
    requires ComparesValues(store, asFloat)
    ensures var v := Eval(store, value, row);
            && (AnyHolds(store, [Not(In(value, Texts(allowed)))], row)
                <==> v != Null && !OneOf(store, TypeOf(store, value), v, Texts(allowed)))
            && (v.Text? || !OneOf(store, TypeOf(store, value), v, Texts(allowed)))
  {
    hide AnyHolds, TypeOf, Compare;
    var v, member := Eval(store, value, row), In(value, Texts(allowed));
    OneHolds(store, Not(member), row);
    NotMeans(store, member, row);
    assert Eval(store, member, row)
        == if v == Null then Null else Bool(OneOf(store, TypeOf(store, value), v, Texts(allowed)));
    hide Eval;
    if !v.Text? {
      forall x | x in Texts(allowed) ensures store.compareTyped(TypeOf(store, value), v, x) != Equal {
        CompareEqual(asFloat, v, x);
      }
    }
  }

  lemma {:induction false} PresentHolds(store: Store, asFloat: int -> int, value: Expr, row: Record)
    requires ComparesValues(store, asFloat)
    ensures var v := Eval(store, value, row);
            AnyHolds(store, FailsWhen(store, Present(""), value), row)
            <==> v == Null || (IsText(store, value) && v.Text? && IsBlank(store, v.text))
  {
    hide AnyHolds, TypeOf;
    var v := Eval(store, value, row);
    var missing, blank := IsNil(value), Compared(Eq, Changed(Trim, value), Known(Text("")));
    OneHolds(store, missing, row);
    OneHolds(store, Or([missing, blank]), row);
    BlankHolds(store, asFloat, value, row);
    assert Eval(store, missing, row) == Bool(v == Null);
    EvalTwo(store, missing, blank, row);
    OrMeans(store, [missing, blank], row);
    hide Eval;
    assert Truths([Eval(store, missing, row), Eval(store, blank, row)])
        == [Truth(Eval(store, missing, row)), Truth(Eval(store, blank, row))];
  }

  lemma {:induction false} OrMeans(store: Store, items: seq<Expr>, row: Record)
    ensures Eval(store, Or(items), row) == FromTruth(Filters.AnyOf(Truths(EvalEach(store, items, row))))
  {}

  lemma {:induction false} BlankHolds(store: Store, asFloat: int -> int, value: Expr, row: Record)
    requires ComparesValues(store, asFloat)
    ensures var v, blank := Eval(store, value, row), Compared(Eq, Changed(Trim, value), Known(Text("")));
            Eval(store, blank, row) == if v.Text? then Bool(IsBlank(store, v.text)) else Null
  {
    var v, trimmed := Eval(store, value, row), Changed(Trim, value);
    assert Eval(store, trimmed, row) == if v.Text? then Text(store.change(Trim, v.text)) else Null;
    assert Eval(store, Known(Text("")), row) == Text("");
    assert ComparisonType(store, trimmed, Known(Text(""))) == None;
    hide Compare;
    CompareEqual(asFloat, Eval(store, trimmed, row), Text(""));
  }

  /** A statement fails by a built-in validation exactly of the values the validation rejects, where they
      are judged alike; and where they are not, it fails of one that passes or passes one that fails. */
  lemma {:induction false} ConditionsFailAsRecordsAreRejected(
    store: Store, numbers: Numbers, asFloat: int -> int, validation: Validation, value: Expr, row: Record)
    requires ComparesValues(store, asFloat)
    ensures var v := Eval(store, value, row);
            (AnyHolds(store, FailsWhen(store, validation, value), row) <==> Rejects(store, numbers, validation, v))
            <==> JudgedAlike(store, numbers, asFloat, validation, value, v)
  {
    hide Eval, Compare, AnyHolds, OneOf, TypeOf, Bounds, ComparesValues, OrderedOutside, LengthOutside, Outside,
         RoundedOutside;
    match validation
    case Present(_) => PresentHolds(store, asFloat, value, row);
    case LengthWithin(_, min, max) => LengthHolds(store, asFloat, min, max, value, row);
    case Among(_, allowed) => AmongHolds(store, asFloat, allowed, value, row);
    case NumberWithin(_, min, max) =>
      BoundsHold(store, asFloat, min, max, value, row);
      OrderOfBounds(asFloat, min, max, Eval(store, value, row));
  }

  /** A stored attribute that is text, minding case or not, is judged alike for being there and for its
      length, whatever it holds. */
  lemma TextAttributesAreJudgedAlike(store: Store, numbers: Numbers, asFloat: int -> int, validation: Validation,
                                     field: string, row: Record)
    requires ComparesValues(store, asFloat) && (validation.Present? || validation.LengthWithin?)
    requires field in store.attributes
    requires store.attributes[field] == "String" || store.attributes[field] == "CiString"
    ensures AnyHolds(store, FailsWhen(store, validation, Field(field)), row)
            <==> Rejects(store, numbers, validation, Get(row, field))
  {
    hide AnyHolds, FailsWhen, Rejects;
    FieldReads(store, field, row);
    ConditionsFailAsRecordsAreRejected(store, numbers, asFloat, validation, Field(field), row);
  }

  // ---------- and where it does not

  /** The length of a text that the statement computes is not looked at. */
  lemma {:induction false} ComputedTextOfAnyLengthPasses(
    store: Store, numbers: Numbers, asFloat: int -> int, field: string, max: nat, row: Record)
    requires ComparesValues(store, asFloat)
    requires Get(row, field).Text? && |store.change(Upper, Get(row, field).text)| > max
    ensures var value, validation := Changed(Upper, Field(field)), LengthWithin(field, None, Some(max));
            && Rejects(store, numbers, validation, Eval(store, value, row))
            && !AnyHolds(store, FailsWhen(store, validation, value), row)
  {
    FieldReads(store, field, row);
  }

  /** A decimal is stored as its text, which is above every integer: any maximum fails it. */
  lemma {:induction false} DecimalFailsAnyMaximum(
    store: Store, numbers: Numbers, asFloat: int -> int, field: string, max: int, row: Record)
    requires ComparesValues(store, asFloat)
    requires Get(row, field).Text? && !TextOutside(numbers, None, Some(max), Get(row, field).text)
    ensures var validation := NumberWithin(field, None, Some(max));
            && !Rejects(store, numbers, validation, Get(row, field))
            && AnyHolds(store, FailsWhen(store, validation, Field(field)), row)
  {
    hide Eval, AnyHolds, ComparesValues, TextOutside, Bounds;
    FieldReads(store, field, row);
    var validation := NumberWithin(field, None, Some(max));
    ConditionsFailAsRecordsAreRejected(store, numbers, asFloat, validation, Field(field), row);
  }
}
