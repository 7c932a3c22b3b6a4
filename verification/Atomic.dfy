/**
 Updates as one statement: the expressions they set, the conditions they check, and applying them
 to a record.
 */
module Atomic {
  import opened Wrappers
  import opened Values
  import opened Arithmetic
  import Filters

  type AttributeType = string

  datatype TextOperation = Lower | Upper | Trim

  datatype Relation = Eq | Lt | Gt

  datatype Expr =
    | Known(value: Value)
    | Field(name: string)
    | Computed(arithmetic: Operation, left: Expr, right: Expr)
    | Changed(operation: TextOperation, operand: Expr)
    | Concat(parts: seq<Expr>)
    | StringLength(operand: Expr)
    | Coalesce(items: seq<Expr>)
    | If(condition: Expr, then_: Expr, otherwise: Expr)
    | IsNil(operand: Expr)
    | Compared(relation: Relation, left: Expr, right: Expr)
    | DistinctFrom(left: Expr, right: Expr)
    | In(operand: Expr, values: seq<Value>)
    | And(items: seq<Expr>)
    | Or(items: seq<Expr>)
    | Not(operand: Expr)
    | FilterHolds(filter: Filters.Filter)

  /** The data layer an update runs in: the resource's attributes, and how values are compared by
      an attribute's type, changed, shown and filtered. */
  datatype Store = Store(
    attributes: map<string, AttributeType>,
    compareTyped: (Option<AttributeType>, Value, Value) -> Ordering,
    change: (TextOperation, string) -> string,
    display: Value -> string,
    filter: (Filters.Filter, Record) -> bool)

  /** As the source compares values: by a type only a text with another, and the rest by their order. */
  ghost predicate ComparesValues(store: Store, asFloat: int -> int) {
    forall comparedBy, x: Value, y: Value | comparedBy == None || !x.Text? || !y.Text? ::
      store.compareTyped(comparedBy, x, y) == Compare(asFloat, x, y)
  }

  // ---------- evaluation

  function Compute(arithmetic: Operation, x: Value, y: Value): Value {
    if !x.Int? || !y.Int? then Null
    else match Calculate(arithmetic, x.n, y.n)
         case None => Null
         case Some(n) => Int(n)
  }

  function Join(store: Store, parts: seq<Value>): string {
    if parts == [] then []
    else (if parts[0].Text? then parts[0].text else store.display(parts[0])) + Join(store, parts[1..])
  }

  function FirstKnown(items: seq<Value>): Value {
    if items == [] then Null else if items[0] != Null then items[0] else FirstKnown(items[1..])
  }

  function Truth(v: Value): Option<bool> {
    if v.Bool? then Some(v.b) else None
  }

  function Truths(values: seq<Value>): seq<Option<bool>> {
    seq(|values|, i requires 0 <= i < |values| => Truth(values[i]))
  }

  function FromTruth(truth: Option<bool>): Value {
    if truth.Some? then Bool(truth.value) else Null
  }

  function TypeOf(store: Store, e: Expr): Option<AttributeType> {
    if e.Field? && e.name in store.attributes then Some(store.attributes[e.name]) else None
  }

  /** The type two operands are compared by: that of the first of them that is an attribute. */
  function ComparisonType(store: Store, a: Expr, b: Expr): Option<AttributeType> {
    if TypeOf(store, a).Some? then TypeOf(store, a) else TypeOf(store, b)
  }

  function CompareKnown(store: Store, comparedBy: Option<AttributeType>, x: Value, y: Value): Option<Ordering> {
    if x == Null || y == Null then None else Some(store.compareTyped(comparedBy, x, y))
  }

  predicate Stands(relation: Relation, order: Ordering) {
    match relation
    case Eq => order == Equal
    case Lt => order == Less
    case Gt => order == Greater
  }

  function Relate(relation: Relation, order: Option<Ordering>): Value {
    FromTruth(if order.None? then None else Some(Stands(relation, order.value)))
  }

  predicate Distinct(store: Store, comparedBy: Option<AttributeType>, x: Value, y: Value) {
    if x == Null || y == Null then x != y else store.compareTyped(comparedBy, x, y) != Equal
  }

  predicate OneOf(store: Store, comparedBy: Option<AttributeType>, x: Value, values: seq<Value>) {
    exists v | v in values :: store.compareTyped(comparedBy, x, v) == Equal
  }

  function Eval(store: Store, e: Expr, row: Record): Value
    decreases e, 1
  {
    match e
    case Known(value) => value
    case Field(name) => Get(row, name)
    case Computed(arithmetic, a, b) => Compute(arithmetic, Eval(store, a, row), Eval(store, b, row))
    case Changed(operation, a) =>
      var v := Eval(store, a, row);
      if v.Text? then Text(store.change(operation, v.text)) else Null
    case Concat(parts) =>
      var values := EvalEach(store, parts, row);
      if Null in values then Null else Text(Join(store, values))
    case StringLength(a) =>
      var v := Eval(store, a, row);
      if v.Text? then Int(|v.text|) else Null
    case Coalesce(items) => FirstKnown(EvalEach(store, items, row))
    case If(condition, a, b) =>
      if Truth(Eval(store, condition, row)) == Some(true) then Eval(store, a, row) else Eval(store, b, row)
    case IsNil(a) => Bool(Eval(store, a, row) == Null)
    case Compared(relation, a, b) =>
      Relate(relation, CompareKnown(store, ComparisonType(store, a, b), Eval(store, a, row), Eval(store, b, row)))
    case DistinctFrom(a, b) =>
      Bool(Distinct(store, ComparisonType(store, a, b), Eval(store, a, row), Eval(store, b, row)))
    case In(a, values) =>
      var v := Eval(store, a, row);
      if v == Null then Null else Bool(OneOf(store, TypeOf(store, a), v, values))
    case And(items) => FromTruth(Filters.AllOf(Truths(EvalEach(store, items, row))))
    case Or(items) => FromTruth(Filters.AnyOf(Truths(EvalEach(store, items, row))))
    case Not(a) => FromTruth(Filters.Negate(Truth(Eval(store, a, row))))
    case FilterHolds(f) => Bool(store.filter(f, row))
  }

  function EvalEach(store: Store, items: seq<Expr>, row: Record): seq<Value>
    decreases items, 0
  {
    if items == [] then [] else [Eval(store, items[0], row)] + EvalEach(store, items[1..], row)
  }

  /** Holds unless what it wraps is true: false and unknown alike. */
  function NotTrue(allowed: Expr): Expr {
    Not(Coalesce([allowed, Known(Bool(false))]))
  }

  /** So it holds for false and unknown, fails for true, and is unknown for what is no truth. */
  lemma {:induction false} NotTrueHoldsUnlessTrue(store: Store, allowed: Expr, row: Record)
    ensures Eval(store, NotTrue(allowed), row)
            == var v := Eval(store, allowed, row);
               if v == Null then Bool(true) else if v.Bool? then Bool(!v.b) else Null
  {
    var items := [allowed, Known(Bool(false))];
    var v := Eval(store, allowed, row);
    EvalTwo(store, allowed, Known(Bool(false)), row);
    assert [v, Bool(false)][1..] == [Bool(false)];
    assert FirstKnown([v, Bool(false)]) == if v == Null then Bool(false) else v;
    NotMeans(store, Coalesce(items), row);
    CoalesceMeans(store, items, row);
  }

  lemma {:induction false} NotMeans(store: Store, e: Expr, row: Record)
    ensures Eval(store, Not(e), row) == FromTruth(Filters.Negate(Truth(Eval(store, e, row))))
  {}

  lemma {:induction false} CoalesceMeans(store: Store, items: seq<Expr>, row: Record)
    ensures Eval(store, Coalesce(items), row) == FirstKnown(EvalEach(store, items, row))
  {}

  lemma {:induction false} EvalTwo(store: Store, a: Expr, b: Expr, row: Record)
    ensures EvalEach(store, [a, b], row) == [Eval(store, a, row), Eval(store, b, row)]
  {
    hide Eval;
    assert [a, b][1..] == [b];
    assert EvalEach(store, [b], row) == [Eval(store, b, row)];
  }

  // ---------- the statement

  type Sets = seq<(string, Expr)>

  datatype Condition = Condition(failsWhen: Expr, error: Record -> string)

  /** What a field will hold: what it was last set to, or what it holds. */
  function ValueIn(sets: Sets, field: string): Expr {
    if sets == [] then Field(field)
    else if sets[|sets| - 1].0 == field then sets[|sets| - 1].1
    else ValueIn(sets[..|sets| - 1], field)
  }

  function Without(sets: Sets, field: string): Sets {
    if sets == [] then []
    else if sets[|sets| - 1].0 == field then Without(sets[..|sets| - 1], field)
    else Without(sets[..|sets| - 1], field) + [sets[|sets| - 1]]
  }

  function Names(sets: Sets): set<string> {
    set i | 0 <= i < |sets| :: sets[i].0
  }

  predicate Fails(store: Store, condition: Condition, row: Record) {
    Eval(store, condition.failsWhen, row) == Bool(true)
  }

  /** The error of the first condition that holds of `row`, which reports on the record as stored. */
  function FirstError(store: Store, conditions: seq<Condition>, row: Record, stored: Record): Option<string> {
    if conditions == [] then None
    else if Fails(store, conditions[0], row) then Some(conditions[0].error(stored))
    else FirstError(store, conditions[1..], row, stored)
  }

  /** Every expression read on `row` as it was, then written in order onto `base`. */
  function WrittenOnto(store: Store, sets: Sets, row: Record, base: Record): Record {
    if sets == [] then base
    else
      var last := sets[|sets| - 1];
      WrittenOnto(store, sets[..|sets| - 1], row, base)[last.0 := Eval(store, last.1, row)]
  }

  function Written(store: Store, sets: Sets, row: Record): Record {
    WrittenOnto(store, sets, row, row)
  }

  function Applied(store: Store, sets: Sets, conditions: seq<Condition>, row: Record): Result<Record, string> {
    match FirstError(store, conditions, row, row)
    case Some(error) => Err(error)
    case None => Ok(Written(store, sets, row))
  }

  /** However often the list repeats a field, the field ends at its planned value on the original
      row, and the fields not set are left as they were. */
  lemma {:induction false} WrittenIsThePlannedValue(store: Store, sets: Sets, row: Record, field: string)
    ensures Get(Written(store, sets, row), field) == Eval(store, ValueIn(sets, field), row)
    ensures field in Written(store, sets, row) <==> field in row || field in Names(sets)
  {
    hide Eval;
    if sets == [] {
      FieldReads(store, field, row);
    } else {
      var front := sets[..|sets| - 1];
      WrittenIsThePlannedValue(store, front, row, field);
      NamesOfMore(front, sets[|sets| - 1]);
      assert sets == front + [sets[|sets| - 1]];
    }
  }

  lemma FieldReads(store: Store, field: string, row: Record)
    ensures Eval(store, Field(field), row) == Get(row, field)
  {}

  lemma NamesOfMore(sets: Sets, last: (string, Expr))
    ensures Names(sets + [last]) == Names(sets) + {last.0}
  {
    forall name ensures name in Names(sets + [last]) <==> name in Names(sets) + {last.0} {
      if name in Names(sets) {
        var i :| 0 <= i < |sets| && sets[i].0 == name;
        assert (sets + [last])[i].0 == name;
      }
      assert (sets + [last])[|sets|] == last;
    }
  }

  /** Setting a field replaces what it was set to before, and no other field's value. */
  lemma {:induction false} SetReplaces(sets: Sets, field: string, expr: Expr, other: string)
    ensures ValueIn(Without(sets, field) + [(field, expr)], other)
            == if other == field then expr else ValueIn(sets, other)
  {
    ThenLast(Without(sets, field), (field, expr), other);
    if other != field {
      WithoutKeeps(sets, field, other);
    }
  }

  lemma ThenLast(sets: Sets, last: (string, Expr), field: string)
    ensures ValueIn(sets + [last], field) == if field == last.0 then last.1 else ValueIn(sets, field)
  {
    assert (sets + [last])[..|sets|] == sets;
  }

  lemma {:induction false} WithoutKeeps(sets: Sets, field: string, other: string)
    requires other != field
    ensures ValueIn(Without(sets, field), other) == ValueIn(sets, other)
  {
    if sets != [] {
      var front, last := sets[..|sets| - 1], sets[|sets| - 1];
      WithoutKeeps(front, field, other);
      ThenLast(Without(front, field), last, other);
    }
  }

  // ---------- the update object

  class AtomicUpdate {
    var sets: Sets
    var conditions: seq<Condition>

    constructor ()
      ensures sets == [] && conditions == []
    {
      sets, conditions := [], [];
    }

    /** What `field` will hold: found from the end of the list. */
    method ValueOf(field: string) returns (expr: Expr)
      ensures expr == ValueIn(sets, field)
    {
      var i := |sets|;
      assert sets[..i] == sets;
      while i > 0
        invariant 0 <= i <= |sets|
        invariant ValueIn(sets[..i], field) == ValueIn(sets, field)
      {
        i := i - 1;
        assert sets[..i + 1][..i] == sets[..i];
        if sets[i].0 == field {
          return sets[i].1;
        }
      }
      return Field(field);
    }

    method Set(field: string, expr: Expr)
      modifies this`sets
      ensures sets == Without(old(sets), field) + [(field, expr)]
    {
      var kept: Sets := [];
      for i := 0 to |sets|
        invariant kept == Without(sets[..i], field)
      {
        assert sets[..i + 1][..i] == sets[..i];
        if sets[i].0 != field {
          kept := kept + [sets[i]];
        }
      }
      assert sets[..|sets|] == sets;
      sets := kept + [(field, expr)];
    }

    /** Fails with the first condition that holds, before anything is set; otherwise every field
        ends at its planned value on the original row. */
    method Apply(store: Store, row: Record) returns (result: Result<Record, string>)
      ensures result == Applied(store, sets, conditions, row)
      ensures result.Err? <==> exists k :: 0 <= k < |conditions| && Fails(store, conditions[k], row)
      ensures result.Ok? ==> forall field ::
                && Get(result.value, field) == Eval(store, ValueIn(sets, field), row)
                && (field in result.value <==> field in row || field in Names(sets))
    {
      hide Eval, Fails;
      assert conditions[0..] == conditions;
      for i := 0 to |conditions|
        invariant FirstError(store, conditions[i..], row, row) == FirstError(store, conditions, row, row)
        invariant forall k | 0 <= k < i :: !Fails(store, conditions[k], row)
      {
        assert conditions[i..][1..] == conditions[i + 1..];
        if Eval(store, conditions[i].failsWhen, row) == Bool(true) {
          FailsMeans(store, conditions[i], row);
          return Err(conditions[i].error(row));
        }
        FailsMeans(store, conditions[i], row);
      }
      var values: seq<(string, Value)> := [];
      for i := 0 to |sets|
        invariant |values| == i
        invariant forall k | 0 <= k < i :: values[k] == (sets[k].0, Eval(store, sets[k].1, row))
      {
        values := values + [(sets[i].0, Eval(store, sets[i].1, row))];
      }
      var updated := row;
      for i := 0 to |values|
        invariant updated == Written(store, sets[..i], row)
      {
        assert sets[..i + 1][..i] == sets[..i];
        updated := updated[values[i].0 := values[i].1];
      }
      assert sets[..|sets|] == sets;
      forall field
        ensures Get(updated, field) == Eval(store, ValueIn(sets, field), row)
        ensures field in updated <==> field in row || field in Names(sets)
      {
        WrittenIsThePlannedValue(store, sets, row, field);
      }
      return Ok(updated);
    }
  }

  lemma FailsMeans(store: Store, condition: Condition, row: Record)
    ensures Fails(store, condition, row) <==> Eval(store, condition.failsWhen, row) == Bool(true)
  {}
}
