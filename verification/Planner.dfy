/**
 Planning an update as one statement: what its changes and validations ask for, its resource
 expressions translated, and its equality with running the same changes one after another.
 */
module Planner {
  import opened Wrappers
  import opened Values
  import opened Arithmetic
  import opened Atomic
  import opened Translation
  import Expressions
  import Filters

  // ---------- planning

  /** A field's planned value, as a change sees it: an argument that no attribute hides, or the
      value the update will leave it with. */
  function Seen(store: Store, arguments: Record, sets: Sets, field: string): Expr {
    if field in arguments && field !in store.attributes then Known(arguments[field]) else ValueIn(sets, field)
  }

  /** An expression over the record as it will be, planned as one over the record as it is. */
  function Planned(store: Store, arguments: Record, sets: Sets, e: Expr): Expr
    decreases e, 1
  {
    match e
    case Known(_) => e
    case Field(name) => Seen(store, arguments, sets, name)
    case Computed(arithmetic, a, b) =>
      Computed(arithmetic, Planned(store, arguments, sets, a), Planned(store, arguments, sets, b))
    case Changed(operation, a) => Changed(operation, Planned(store, arguments, sets, a))
    case Concat(parts) => Concat(PlannedEach(store, arguments, sets, parts))
    case StringLength(a) => StringLength(Planned(store, arguments, sets, a))
    case Coalesce(items) => Coalesce(PlannedEach(store, arguments, sets, items))
    case If(condition, a, b) =>
      If(Planned(store, arguments, sets, condition), Planned(store, arguments, sets, a),
         Planned(store, arguments, sets, b))
    case IsNil(a) => IsNil(Planned(store, arguments, sets, a))
    case Compared(relation, a, b) =>
      Compared(relation, Planned(store, arguments, sets, a), Planned(store, arguments, sets, b))
    case DistinctFrom(a, b) => DistinctFrom(Planned(store, arguments, sets, a), Planned(store, arguments, sets, b))
    case In(a, values) => In(Planned(store, arguments, sets, a), values)
    case And(items) => And(PlannedEach(store, arguments, sets, items))
    case Or(items) => Or(PlannedEach(store, arguments, sets, items))
    case Not(a) => Not(Planned(store, arguments, sets, a))
    case FilterHolds(_) => e
  }

  function PlannedEach(store: Store, arguments: Record, sets: Sets, items: seq<Expr>): seq<Expr>
    decreases items, 0
  {
    if items == [] then []
    else [Planned(store, arguments, sets, items[0])] + PlannedEach(store, arguments, sets, items[1..])
  }

  /** What an expression reads to, before planning: on the record the update has made so far. */
  function WillBe(store: Store, arguments: Record, sets: Sets, row: Record): Record {
    Overlaid(store, arguments, Written(store, sets, row))
  }

  /** Planning keeps an expression's meaning on `row`: it makes no difference at any comparison that
      its operands may now be compared by another type, and at any filter that it reads the stored
      record. Of an `If`, the branch taken is all that matters. */
  predicate Plannable(store: Store, arguments: Record, sets: Sets, e: Expr, row: Record)
    decreases e, 1
  {
    match e
    case Known(_) => true
    case Field(_) => true
    case Computed(_, a, b) =>
      Plannable(store, arguments, sets, a, row) && Plannable(store, arguments, sets, b, row)
    case Changed(_, a) => Plannable(store, arguments, sets, a, row)
    case Concat(parts) => EachPlannable(store, arguments, sets, parts, row)
    case StringLength(a) => Plannable(store, arguments, sets, a, row)
    case Coalesce(items) => EachPlannable(store, arguments, sets, items, row)
    case If(condition, a, b) =>
      && Plannable(store, arguments, sets, condition, row)
      && if Truth(Eval(store, Planned(store, arguments, sets, condition), row)) == Some(true)
         then Plannable(store, arguments, sets, a, row)
         else Plannable(store, arguments, sets, b, row)
    case IsNil(a) => Plannable(store, arguments, sets, a, row)
    case Compared(relation, a, b) =>
      && Plannable(store, arguments, sets, a, row)
      && Plannable(store, arguments, sets, b, row)
      && SameRelation(store, arguments, sets, relation, a, b, row)
    case DistinctFrom(a, b) =>
      && Plannable(store, arguments, sets, a, row)
      && Plannable(store, arguments, sets, b, row)
      && SameRelation(store, arguments, sets, Eq, a, b, row)
    case In(a, values) =>
      Plannable(store, arguments, sets, a, row) && SameMember(store, arguments, sets, a, values, row)
    case And(items) => EachPlannable(store, arguments, sets, items, row)
    case Or(items) => EachPlannable(store, arguments, sets, items, row)
    case Not(a) => Plannable(store, arguments, sets, a, row)
    case FilterHolds(f) => store.filter(f, row) <==> store.filter(f, WillBe(store, arguments, sets, row))
  }

  predicate EachPlannable(store: Store, arguments: Record, sets: Sets, items: seq<Expr>, row: Record)
    decreases items, 0
  {
    || items == []
    || (&& Plannable(store, arguments, sets, items[0], row)
        && EachPlannable(store, arguments, sets, items[1..], row))
  }

  /** The value a planned expression comes to. */
  function PlannedValue(store: Store, arguments: Record, sets: Sets, e: Expr, row: Record): Value {
    Eval(store, Planned(store, arguments, sets, e), row)
  }

  /** An operand is null, or the relation stands alike by the type the operands were to be compared by
      and by the type that they are compared by once planned. */
  predicate SameRelation(store: Store, arguments: Record, sets: Sets, relation: Relation, a: Expr, b: Expr,
                         row: Record) {
    var x, y := PlannedValue(store, arguments, sets, a, row), PlannedValue(store, arguments, sets, b, row);
    var before := ComparisonType(store, a, b);
    var after := ComparisonType(store, Planned(store, arguments, sets, a), Planned(store, arguments, sets, b));
    || x == Null
    || y == Null
    || (Stands(relation, store.compareTyped(after, x, y)) <==> Stands(relation, store.compareTyped(before, x, y)))
  }

  /** The operand is null, or is one of the values by both types or by neither. */
  predicate SameMember(store: Store, arguments: Record, sets: Sets, a: Expr, values: seq<Value>, row: Record) {
    var x := PlannedValue(store, arguments, sets, a, row);
    || x == Null
    || (OneOf(store, TypeOf(store, Planned(store, arguments, sets, a)), x, values)
        <==> OneOf(store, TypeOf(store, a), x, values))
  }

  /** A record as a change's expressions see it: with the arguments that no attribute hides. */
  function Overlaid(store: Store, arguments: Record, row: Record): Record {
    row + map field | field in arguments && field !in store.attributes :: arguments[field]
  }

  lemma SeenIsWhatWillBe(store: Store, arguments: Record, sets: Sets, field: string, row: Record)
    ensures Eval(store, Seen(store, arguments, sets, field), row)
            == Get(WillBe(store, arguments, sets, row), field)
  {
    WrittenIsThePlannedValue(store, sets, row, field);
  }

  /** A planned expression, on the stored record, is the expression itself on the record the update
      has made so far. */
  lemma {:induction false} PlanningKeepsMeaning(store: Store, arguments: Record, sets: Sets, e: Expr, row: Record)
    requires Plannable(store, arguments, sets, e, row)
    ensures PlannedValue(store, arguments, sets, e, row) == Eval(store, e, WillBe(store, arguments, sets, row))
    decreases e, 1
  {
    hide WillBe, Seen, Compute, Join, FirstKnown, Truths, Relate, SameRelation, SameMember, Distinct, OneOf,
         CompareKnown, ComparisonType, TypeOf, Filters.AllOf, Filters.AnyOf, Filters.Negate;
    match e
    case Known(_) =>
    case Field(name) => SeenIsWhatWillBe(store, arguments, sets, name, row);
    case Computed(_, a, b) =>
      PlanningKeepsMeaning(store, arguments, sets, a, row);
      PlanningKeepsMeaning(store, arguments, sets, b, row);
    case Changed(_, a) => PlanningKeepsMeaning(store, arguments, sets, a, row);
    case Concat(parts) => PlanningKeepsEach(store, arguments, sets, parts, row);
    case StringLength(a) => PlanningKeepsMeaning(store, arguments, sets, a, row);
    case Coalesce(items) => PlanningKeepsEach(store, arguments, sets, items, row);
    case If(condition, a, b) =>
      PlanningKeepsMeaning(store, arguments, sets, condition, row);
      if Truth(PlannedValue(store, arguments, sets, condition, row)) == Some(true) {
        PlanningKeepsMeaning(store, arguments, sets, a, row);
      } else {
        PlanningKeepsMeaning(store, arguments, sets, b, row);
      }
    case IsNil(a) => PlanningKeepsMeaning(store, arguments, sets, a, row);
    case Compared(relation, a, b) => ComparisonPlansAlike(store, arguments, sets, relation, a, b, row);
    case DistinctFrom(a, b) => DistinctPlansAlike(store, arguments, sets, a, b, row);
    case In(a, values) => MemberPlansAlike(store, arguments, sets, a, values, row);
    case And(items) => PlanningKeepsEach(store, arguments, sets, items, row);
    case Or(items) => PlanningKeepsEach(store, arguments, sets, items, row);
    case Not(a) => PlanningKeepsMeaning(store, arguments, sets, a, row);
    case FilterHolds(_) =>
  }

  lemma {:induction false} PlanningKeepsEach(store: Store, arguments: Record, sets: Sets, items: seq<Expr>, row: Record)
    requires EachPlannable(store, arguments, sets, items, row)
    ensures EvalEach(store, PlannedEach(store, arguments, sets, items), row)
            == EvalEach(store, items, WillBe(store, arguments, sets, row))
    decreases items, 0
  {
    hide WillBe, Eval, Planned, Plannable;
    if items != [] {
      PlanningKeepsMeaning(store, arguments, sets, items[0], row);
      PlanningKeepsEach(store, arguments, sets, items[1..], row);
      var planned := PlannedEach(store, arguments, sets, items);
      assert planned[1..] == PlannedEach(store, arguments, sets, items[1..]);
    }
  }

  lemma {:induction false} ComparedMeans(store: Store, relation: Relation, a: Expr, b: Expr, row: Record)
    ensures Eval(store, Compared(relation, a, b), row)
            == Relate(relation, CompareKnown(store, ComparisonType(store, a, b), Eval(store, a, row),
                                             Eval(store, b, row)))
  {}

  lemma ComparedPlanned(store: Store, arguments: Record, sets: Sets, relation: Relation, a: Expr, b: Expr, row: Record)
    ensures var x, y := Planned(store, arguments, sets, a), Planned(store, arguments, sets, b);
            && PlannedValue(store, arguments, sets, a, row) == Eval(store, x, row)
            && PlannedValue(store, arguments, sets, b, row) == Eval(store, y, row)
            && PlannedValue(store, arguments, sets, Compared(relation, a, b), row)
               == Eval(store, Compared(relation, x, y), row)
  {
    hide Eval;
  }

  lemma RelatedAlike(store: Store, arguments: Record, sets: Sets, relation: Relation, a: Expr, b: Expr, row: Record)
    ensures var x, y := PlannedValue(store, arguments, sets, a, row), PlannedValue(store, arguments, sets, b, row);
            var before := ComparisonType(store, a, b);
            var after := ComparisonType(store, Planned(store, arguments, sets, a), Planned(store, arguments, sets, b));
            Relate(relation, CompareKnown(store, after, x, y)) == Relate(relation, CompareKnown(store, before, x, y))
            <==> SameRelation(store, arguments, sets, relation, a, b, row)
  {
    hide Stands, PlannedValue, ComparisonType, Planned;
  }

  /** At a comparison, planning keeps the answer exactly where an operand is null or the relation
      stands alike by both types. */
  lemma {:induction false} ComparisonPlansAlike(
    store: Store, arguments: Record, sets: Sets, relation: Relation, a: Expr, b: Expr, row: Record)
    requires Plannable(store, arguments, sets, a, row) && Plannable(store, arguments, sets, b, row)
    ensures PlannedValue(store, arguments, sets, Compared(relation, a, b), row)
            == Eval(store, Compared(relation, a, b), WillBe(store, arguments, sets, row))
            <==> SameRelation(store, arguments, sets, relation, a, b, row)
    decreases Compared(relation, a, b), 0
  {
    hide *;
    var record := WillBe(store, arguments, sets, row);
    var x, y := Planned(store, arguments, sets, a), Planned(store, arguments, sets, b);
    PlanningKeepsMeaning(store, arguments, sets, a, row);
    PlanningKeepsMeaning(store, arguments, sets, b, row);
    ComparedPlanned(store, arguments, sets, relation, a, b, row);
    ComparedMeans(store, relation, x, y, row);
    ComparedMeans(store, relation, a, b, record);
    RelatedAlike(store, arguments, sets, relation, a, b, row);
  }

  /** So at a test for being distinct, where they are equal by both types or by neither. */
  lemma {:induction false} DistinctPlansAlike(
    store: Store, arguments: Record, sets: Sets, a: Expr, b: Expr, row: Record)
    requires Plannable(store, arguments, sets, a, row) && Plannable(store, arguments, sets, b, row)
    ensures PlannedValue(store, arguments, sets, DistinctFrom(a, b), row)
            == Eval(store, DistinctFrom(a, b), WillBe(store, arguments, sets, row))
            <==> SameRelation(store, arguments, sets, Eq, a, b, row)
    decreases DistinctFrom(a, b), 0
  {
    hide WillBe, ComparisonType, Plannable;
    PlanningKeepsMeaning(store, arguments, sets, a, row);
    PlanningKeepsMeaning(store, arguments, sets, b, row);
  }

  lemma {:induction false} MemberPlansAlike(
    store: Store, arguments: Record, sets: Sets, a: Expr, values: seq<Value>, row: Record)
    requires Plannable(store, arguments, sets, a, row)
    ensures PlannedValue(store, arguments, sets, In(a, values), row)
            == Eval(store, In(a, values), WillBe(store, arguments, sets, row))
            <==> SameMember(store, arguments, sets, a, values, row)
    decreases In(a, values), 0
  {
    hide WillBe, TypeOf, Plannable, OneOf;
    PlanningKeepsMeaning(store, arguments, sets, a, row);
  }

  /** As values are compared, a comparison with one that is no text is planned alike, whatever was set
      before: a count set to a number, say, and then checked against another. */
  lemma ComparisonWithoutTextIsPlannable(
    store: Store, asFloat: int -> int, arguments: Record, sets: Sets, relation: Relation, a: Expr, b: Expr,
    row: Record)
    requires ComparesValues(store, asFloat)
    requires || !PlannedValue(store, arguments, sets, a, row).Text?
             || !PlannedValue(store, arguments, sets, b, row).Text?
    ensures SameRelation(store, arguments, sets, relation, a, b, row)
  {
    hide PlannedValue, ComparisonType, Stands;
  }

  // ---------- one statement, or one change after another

  /** What an action's changes and validations ask for. A `Change` sees the record as the changes
      before it leave it: everything it sets and checks is over the record it found. An
      `AtomicChange` sets a field to a resource expression. */
  datatype Step =
    | Change(sets: Sets, checks: seq<Condition>)
    | AtomicChange(field: string, expr: Expressions.Expr)

  datatype Plan = Plan(sets: Sets, conditions: seq<Condition>)

  function Set(sets: Sets, entry: (string, Expr)): Sets {
    Without(sets, entry.0) + [entry]
  }

  function SetEach(sets: Sets, entries: Sets): Sets {
    if entries == [] then sets else Set(SetEach(sets, entries[..|entries| - 1]), entries[|entries| - 1])
  }

  function PlannedSets(store: Store, arguments: Record, sets: Sets, entries: Sets): Sets {
    if entries == [] then []
    else
      var last := entries[|entries| - 1];
      PlannedSets(store, arguments, sets, entries[..|entries| - 1])
        + [(last.0, Planned(store, arguments, sets, last.1))]
  }

  function PlannedChecks(store: Store, arguments: Record, sets: Sets, checks: seq<Condition>): seq<Condition> {
    if checks == [] then []
    else [checks[0].(failsWhen := Planned(store, arguments, sets, checks[0].failsWhen))]
         + PlannedChecks(store, arguments, sets, checks[1..])
  }

  /** A change is planned over what the update sets so far; an atomic change over the record as it is
      stored, whatever the update sets, if the statement can compute it. */
  function PlanStep(store: Store, arguments: Record, plan: Plan, step: Step): Option<Plan> {
    match step
    case Change(sets, checks) =>
      Some(Plan(SetEach(plan.sets, PlannedSets(store, arguments, plan.sets, sets)),
                plan.conditions + PlannedChecks(store, arguments, plan.sets, checks)))
    case AtomicChange(field, e) =>
      var translated := Translated(e, arguments);
      if translated.None? then None else Some(plan.(sets := Set(plan.sets, (field, translated.value))))
  }

  function PlanSteps(store: Store, arguments: Record, plan: Plan, steps: seq<Step>): Option<Plan>
    decreases |steps|
  {
    if steps == [] then Some(plan)
    else
      var next := PlanStep(store, arguments, plan, steps[0]);
      if next.None? then None else PlanSteps(store, arguments, next.value, steps[1..])
  }

  /** One step on the record the steps before it left; an atomic change evaluates its expression as
      resource expressions are evaluated on a record that has been read. */
  function RunStep(store: Store, arguments: Record, step: Step, record: Record, stored: Record)
    : Result<Record, string> {
    match step
    case Change(sets, checks) =>
      var found := Overlaid(store, arguments, record);
      var error := FirstError(store, checks, found, stored);
      if error.Some? then Err(error.value) else Ok(WrittenOnto(store, sets, found, record))
    case AtomicChange(field, e) =>
      var value := ReadFirst(store, arguments, e, record);
      if value.Err? then Err(value.error) else Ok(record[field := value.value])
  }

  /** The steps run one after another, each reading the record the ones before it left. */
  function RunSteps(store: Store, arguments: Record, steps: seq<Step>, record: Record, stored: Record)
    : Result<Record, string>
    decreases |steps|
  {
    if steps == [] then Ok(record)
    else match RunStep(store, arguments, steps[0], record, stored)
         case Err(error) => Err(error)
         case Ok(next) => RunSteps(store, arguments, steps[1..], next, stored)
  }

  /** There is a plan exactly when no step calls Rust. */
  lemma {:induction false} PlannedUnlessCustom(store: Store, arguments: Record, plan: Plan, steps: seq<Step>)
    ensures PlanSteps(store, arguments, plan, steps).None?
            <==> exists i | 0 <= i < |steps| :: steps[i].AtomicChange? && Expressions.IsCustom(steps[i].expr)
    decreases |steps|
  {
    hide PlannedSets, PlannedChecks, SetEach, Set, Translated, Expressions.IsCustom;
    if steps != [] {
      var rest := steps[1..];
      var next := PlanStep(store, arguments, plan, steps[0]);
      if steps[0].AtomicChange? {
        TranslatedUnlessCustom(steps[0].expr, arguments);
      }
      if next.Some? {
        PlannedUnlessCustom(store, arguments, next.value, rest);
        if i :| 0 <= i < |steps| && steps[i].AtomicChange? && Expressions.IsCustom(steps[i].expr) {
          assert rest[i - 1] == steps[i];
        }
        if i :| 0 <= i < |rest| && rest[i].AtomicChange? && Expressions.IsCustom(rest[i].expr) {
          assert steps[i + 1] == rest[i];
        }
      }
    }
  }

  // ---------- where they agree

  /** The fields an expression reads are the same in two records. */
  predicate SameReads(e: Expr, a: Record, b: Record)
    decreases e, 1
  {
    match e
    case Known(_) => true
    case Field(name) => Get(a, name) == Get(b, name)
    case Computed(_, x, y) => SameReads(x, a, b) && SameReads(y, a, b)
    case Changed(_, x) => SameReads(x, a, b)
    case Concat(parts) => EachSameReads(parts, a, b)
    case StringLength(x) => SameReads(x, a, b)
    case Coalesce(items) => EachSameReads(items, a, b)
    case If(condition, x, y) => SameReads(condition, a, b) && SameReads(x, a, b) && SameReads(y, a, b)
    case IsNil(x) => SameReads(x, a, b)
    case Compared(_, x, y) => SameReads(x, a, b) && SameReads(y, a, b)
    case DistinctFrom(x, y) => SameReads(x, a, b) && SameReads(y, a, b)
    case In(x, _) => SameReads(x, a, b)
    case And(items) => EachSameReads(items, a, b)
    case Or(items) => EachSameReads(items, a, b)
    case Not(x) => SameReads(x, a, b)
    case FilterHolds(_) => a == b
  }

  predicate EachSameReads(items: seq<Expr>, a: Record, b: Record)
    decreases items, 0
  {
    items == [] || (SameReads(items[0], a, b) && EachSameReads(items[1..], a, b))
  }

  lemma {:induction false} SameReadsEvalAlike(store: Store, e: Expr, a: Record, b: Record)
    requires SameReads(e, a, b)
    ensures Eval(store, e, a) == Eval(store, e, b)
    decreases e, 1
  {
    hide Compute, Join, FirstKnown, Truths, Distinct, OneOf, Relate, CompareKnown, ComparisonType,
         Filters.AllOf, Filters.AnyOf, Filters.Negate;
    match e
    case Known(_) =>
    case Field(_) =>
    case Computed(_, x, y) =>
      SameReadsEvalAlike(store, x, a, b);
      SameReadsEvalAlike(store, y, a, b);
    case Changed(_, x) => SameReadsEvalAlike(store, x, a, b);
    case Concat(parts) => EachSameReadsEvalAlike(store, parts, a, b);
    case StringLength(x) => SameReadsEvalAlike(store, x, a, b);
    case Coalesce(items) => EachSameReadsEvalAlike(store, items, a, b);
    case If(condition, x, y) =>
      SameReadsEvalAlike(store, condition, a, b);
      SameReadsEvalAlike(store, x, a, b);
      SameReadsEvalAlike(store, y, a, b);
    case IsNil(x) => SameReadsEvalAlike(store, x, a, b);
    case Compared(_, x, y) =>
      SameReadsEvalAlike(store, x, a, b);
      SameReadsEvalAlike(store, y, a, b);
    case DistinctFrom(x, y) =>
      SameReadsEvalAlike(store, x, a, b);
      SameReadsEvalAlike(store, y, a, b);
    case In(x, _) => SameReadsEvalAlike(store, x, a, b);
    case And(items) => EachSameReadsEvalAlike(store, items, a, b);
    case Or(items) => EachSameReadsEvalAlike(store, items, a, b);
    case Not(x) => SameReadsEvalAlike(store, x, a, b);
    case FilterHolds(_) =>
  }

  lemma {:induction false} EachSameReadsEvalAlike(store: Store, items: seq<Expr>, a: Record, b: Record)
    requires EachSameReads(items, a, b)
    ensures EvalEach(store, items, a) == EvalEach(store, items, b)
    decreases items, 0
  {
    hide Eval, SameReads;
    if items != [] {
      SameReadsEvalAlike(store, items[0], a, b);
      EachSameReadsEvalAlike(store, items[1..], a, b);
    }
  }

  predicate EntriesPlannable(store: Store, arguments: Record, sets: Sets, entries: Sets, row: Record) {
    forall i | 0 <= i < |entries| :: Plannable(store, arguments, sets, entries[i].1, row)
  }

  predicate ChecksPlannable(store: Store, arguments: Record, sets: Sets, checks: seq<Condition>, row: Record) {
    forall i | 0 <= i < |checks| :: Plannable(store, arguments, sets, checks[i].failsWhen, row)
  }

  /** Planning keeps a step's meaning: a change's by keeping that of its expressions; an atomic
      change's where translating keeps its value, and every field it reads still has its stored value. */
  predicate StepPlannable(store: Store, arguments: Record, plan: Plan, step: Step, row: Record) {
    match step
    case Change(sets, checks) =>
      && EntriesPlannable(store, arguments, plan.sets, sets, row)
      && ChecksPlannable(store, arguments, plan.sets, checks, row)
    case AtomicChange(_, e) =>
      var translated := Translated(e, arguments);
      && translated.Some?
      && Keeps(store, arguments, e, Written(store, plan.sets, row))
      && SameReads(translated.value, row, Written(store, plan.sets, row))
  }

  predicate StepsPlannable(store: Store, arguments: Record, plan: Plan, steps: seq<Step>, row: Record)
    decreases |steps|
  {
    || steps == []
    || (&& StepPlannable(store, arguments, plan, steps[0], row)
        && StepsPlannable(store, arguments, PlanStep(store, arguments, plan, steps[0]).value, steps[1..], row))
  }

  // ---------- writing

  lemma {:induction false} WrittenWithout(store: Store, sets: Sets, field: string, value: Value, row: Record)
    ensures Written(store, Without(sets, field), row)[field := value] == Written(store, sets, row)[field := value]
  {
    hide Eval;
    if sets != [] {
      var front, last := sets[..|sets| - 1], sets[|sets| - 1];
      WrittenWithout(store, front, field, value, row);
      if last.0 != field {
        WrittenThen(store, Without(front, field), last, row, row);
        AssignBoth(Written(store, Without(front, field), row), Written(store, front, row),
                   last.0, Eval(store, last.1, row), field, value);
      }
    }
  }

  lemma AssignBoth(a: Record, b: Record, other: string, v: Value, field: string, value: Value)
    requires a[field := value] == b[field := value] && other != field
    ensures a[other := v][field := value] == b[other := v][field := value]
  {
    assert a[other := v][field := value] == a[field := value][other := v];
    assert b[other := v][field := value] == b[field := value][other := v];
  }

  lemma WrittenThen(store: Store, sets: Sets, last: (string, Expr), row: Record, base: Record)
    ensures WrittenOnto(store, sets + [last], row, base)
            == WrittenOnto(store, sets, row, base)[last.0 := Eval(store, last.1, row)]
  {
    hide Eval;
    assert (sets + [last])[..|sets|] == sets;
  }

  lemma WrittenSet(store: Store, sets: Sets, entry: (string, Expr), row: Record)
    ensures Written(store, Set(sets, entry), row) == Written(store, sets, row)[entry.0 := Eval(store, entry.1, row)]
  {
    hide Eval, Without;
    WrittenThen(store, Without(sets, entry.0), entry, row, row);
    WrittenWithout(store, sets, entry.0, Eval(store, entry.1, row), row);
  }

  lemma {:induction false} WrittenSetEach(store: Store, sets: Sets, entries: Sets, row: Record)
    ensures Written(store, SetEach(sets, entries), row) == WrittenOnto(store, entries, row, Written(store, sets, row))
  {
    hide Eval, Set;
    if entries != [] {
      var front, last := entries[..|entries| - 1], entries[|entries| - 1];
      WrittenSetEach(store, sets, front, row);
      WrittenSet(store, SetEach(sets, front), last, row);
    }
  }

  lemma {:induction false} PlannedSetsMeaning(
    store: Store, arguments: Record, sets: Sets, entries: Sets, row: Record, base: Record)
    requires EntriesPlannable(store, arguments, sets, entries, row)
    ensures WrittenOnto(store, PlannedSets(store, arguments, sets, entries), row, base)
            == WrittenOnto(store, entries, WillBe(store, arguments, sets, row), base)
  {
    hide Eval, Planned, Plannable, WillBe;
    if entries != [] {
      var front, last := entries[..|entries| - 1], entries[|entries| - 1];
      assert EntriesPlannable(store, arguments, sets, front, row);
      PlannedSetsMeaning(store, arguments, sets, front, row, base);
      PlanningKeepsMeaning(store, arguments, sets, last.1, row);
      WrittenThen(store, PlannedSets(store, arguments, sets, front), (last.0, Planned(store, arguments, sets, last.1)),
                  row, base);
    }
  }

  // ---------- checking

  lemma {:induction false} FirstErrorOfMore(
    store: Store, conditions: seq<Condition>, more: seq<Condition>, row: Record, stored: Record)
    ensures FirstError(store, conditions + more, row, stored)
            == if FirstError(store, conditions, row, stored).Some? then FirstError(store, conditions, row, stored)
               else FirstError(store, more, row, stored)
    decreases |conditions|
  {
    hide Eval;
    if conditions == [] {
      assert conditions + more == more;
    } else {
      FirstErrorOfMore(store, conditions[1..], more, row, stored);
      assert (conditions + more)[1..] == conditions[1..] + more;
    }
  }

  lemma {:induction false} PlannedChecksMeaning(
    store: Store, arguments: Record, sets: Sets, checks: seq<Condition>, row: Record, stored: Record)
    requires ChecksPlannable(store, arguments, sets, checks, row)
    ensures FirstError(store, PlannedChecks(store, arguments, sets, checks), row, stored)
            == FirstError(store, checks, WillBe(store, arguments, sets, row), stored)
    decreases |checks|
  {
    hide Eval, Planned, Plannable, WillBe;
    if checks != [] {
      var planned := PlannedChecks(store, arguments, sets, checks);
      assert planned[1..] == PlannedChecks(store, arguments, sets, checks[1..]);
      assert forall i | 0 <= i < |checks[1..]| :: checks[1..][i] == checks[i + 1];
      PlannedChecksMeaning(store, arguments, sets, checks[1..], row, stored);
      PlanningKeepsMeaning(store, arguments, sets, checks[0].failsWhen, row);
    }
  }

  /** Later steps never undo a failure. */
  lemma {:induction false} FailureStays(store: Store, arguments: Record, plan: Plan, steps: seq<Step>, row: Record)
    requires FirstError(store, plan.conditions, row, row).Some?
    ensures var whole := PlanSteps(store, arguments, plan, steps);
            whole.Some? ==>
              FirstError(store, whole.value.conditions, row, row) == FirstError(store, plan.conditions, row, row)
    decreases |steps|
  {
    hide PlannedSets, PlannedChecks, SetEach, Set, FirstError, Translated;
    if steps != [] {
      if steps[0].Change? {
        FirstErrorOfMore(store, plan.conditions, PlannedChecks(store, arguments, plan.sets, steps[0].checks), row, row);
      }
      var next := PlanStep(store, arguments, plan, steps[0]);
      if next.Some? {
        FailureStays(store, arguments, next.value, steps[1..], row);
      }
    }
  }

  // ---------- the statement is the sequence

  lemma PlannedStep(store: Store, arguments: Record, plan: Plan, step: Step, row: Record)
    requires StepPlannable(store, arguments, plan, step, row) && FirstError(store, plan.conditions, row, row).None?
    ensures PlanStep(store, arguments, plan, step).Some?
    ensures var next, record := PlanStep(store, arguments, plan, step).value, Written(store, plan.sets, row);
            match RunStep(store, arguments, step, record, row)
            case Err(error) => FirstError(store, next.conditions, row, row) == Some(error)
            case Ok(after) =>
              FirstError(store, next.conditions, row, row).None? && Written(store, next.sets, row) == after
  {
    hide Eval, PlannedSets, PlannedChecks, SetEach, Set, FirstError, Written, WrittenOnto, Overlaid, SameReads,
         EntriesPlannable, ChecksPlannable, Translated, OperandsKeep, OperationKeeps, ReadFirst;
    var record := Written(store, plan.sets, row);
    match step
    case Change(sets, checks) =>
      WrittenSetEach(store, plan.sets, PlannedSets(store, arguments, plan.sets, sets), row);
      PlannedSetsMeaning(store, arguments, plan.sets, sets, row, record);
      PlannedChecksMeaning(store, arguments, plan.sets, checks, row, row);
      FirstErrorOfMore(store, plan.conditions, PlannedChecks(store, arguments, plan.sets, checks), row, row);
    case AtomicChange(field, e) =>
      var translated := Translated(e, arguments).value;
      TranslationKeepsTheValue(store, arguments, e, record);
      SameReadsEvalAlike(store, translated, row, record);
      WrittenSet(store, plan.sets, (field, translated), row);
  }

  /** The statement gives the record, or the error, that the steps give one after another. */
  lemma {:induction false} StatementIsSequence(store: Store, arguments: Record, plan: Plan, steps: seq<Step>,
                                               row: Record)
    requires StepsPlannable(store, arguments, plan, steps, row)
    requires FirstError(store, plan.conditions, row, row).None?
    ensures PlannedAs(store, arguments, plan, steps, row,
                      RunSteps(store, arguments, steps, Written(store, plan.sets, row), row))
    decreases |steps|
  {
    hide Written, FirstError, RunStep, PlanStep, StepPlannable;
    if steps != [] {
      PlannedStep(store, arguments, plan, steps[0], row);
      var next := PlanStep(store, arguments, plan, steps[0]).value;
      if FirstError(store, next.conditions, row, row).Some? {
        StepsArePlanned(store, arguments, next, steps[1..], row);
        FailureStays(store, arguments, next, steps[1..], row);
      } else {
        StatementIsSequence(store, arguments, next, steps[1..], row);
      }
    }
  }

  lemma {:induction false} StepsArePlanned(store: Store, arguments: Record, plan: Plan, steps: seq<Step>, row: Record)
    requires StepsPlannable(store, arguments, plan, steps, row)
    ensures PlanSteps(store, arguments, plan, steps).Some?
    decreases |steps|
  {
    hide Keeps, SameReads, EntriesPlannable, ChecksPlannable, Translated, SetEach, Set, PlannedSets, PlannedChecks;
    if steps != [] {
      StepsArePlanned(store, arguments, PlanStep(store, arguments, plan, steps[0]).value, steps[1..], row);
    }
  }

  /** There is a plan, and it gives `result` of the stored record. */
  predicate PlannedAs(store: Store, arguments: Record, plan: Plan, steps: seq<Step>, row: Record,
                      result: Result<Record, string>) {
    var whole := PlanSteps(store, arguments, plan, steps);
    whole.Some? && Applied(store, whole.value.sets, whole.value.conditions, row) == result
  }

  /** Planned from nothing, on any stored record. */
  lemma PlanIsSequentialExecution(store: Store, arguments: Record, steps: seq<Step>, row: Record)
    requires StepsPlannable(store, arguments, Plan([], []), steps, row)
    ensures PlannedAs(store, arguments, Plan([], []), steps, row, RunSteps(store, arguments, steps, row, row))
  {
    hide StepsPlannable, RunSteps, PlannedAs;
    StatementIsSequence(store, arguments, Plan([], []), steps, row);
  }

  // ---------- and where they part

  /** The counter idiom, a field that is an integer or nil and a number added to it: planned over the
      stored record it comes out as on the record so far exactly where the field still has its stored
      value. */
  lemma {:induction false} CounterAgreesWhereUnmoved(
    store: Store, arguments: Record, sets: Sets, field: string, n: int, row: Record)
    requires Get(row, field).Int? || Get(row, field) == Null
    ensures var counter := Expressions.Computed(Add, Expressions.Field(field), Expressions.LitInt(n));
            var record := Written(store, sets, row);
            ReadFirst(store, arguments, counter, record) == Ok(InStatement(store, arguments, counter, row))
            <==> Get(record, field) == Get(row, field)
  {
    hide Written;
    FieldReads(store, field, row);
    var counter := Expressions.Computed(Add, Expressions.Field(field), Expressions.LitInt(n));
    assert Translated(counter, arguments) == Some(Computed(Add, Field(field), Known(Int(n))));
    var p, record := PlatformOf(store), Written(store, sets, row);
    assert Expressions.Evaluate(p, counter.left, record, arguments) == Ok(Get(record, field));
    assert Expressions.Evaluate(p, counter.right, record, arguments) == Ok(Int(n));
    assert Eval(store, Known(Int(n)), row) == Int(n);
  }

  function Assign(field: string, e: Expr): Step {
    Change([(field, e)], [])
  }

  lemma {:induction false} AssignRuns(store: Store, field: string, e: Expr, record: Record, stored: Record)
    ensures RunStep(store, map[], Assign(field, e), record, stored) == Ok(record[field := Eval(store, e, record)])
  {
    hide Eval;
    assert Overlaid(store, map[], record) == record;
    WrittenThen(store, [], (field, e), record, record);
    assert [] + [(field, e)] == [(field, e)];
  }

  lemma OneEntryPlanned(store: Store, sets: Sets, field: string, e: Expr)
    ensures PlannedSets(store, map[], sets, [(field, e)]) == [(field, Planned(store, map[], sets, e))]
  {
    hide Planned;
    var entries := [(field, e)];
    assert entries[..0] == [];
    assert PlannedSets(store, map[], sets, entries[..0]) == [];
  }

  lemma OneEntrySet(sets: Sets, entry: (string, Expr))
    ensures SetEach(sets, [entry]) == Set(sets, entry)
  {
    hide Set;
    assert [entry][..0] == [];
    assert SetEach(sets, [entry][..0]) == sets;
  }

  lemma AssignPlans(store: Store, sets: Sets, field: string, e: Expr)
    ensures PlanStep(store, map[], Plan(sets, []), Assign(field, e))
            == Some(Plan(Set(sets, (field, Planned(store, map[], sets, e))), []))
  {
    hide Planned, Set, SetEach, PlannedSets, Translated;
    OneEntryPlanned(store, sets, field, e);
    OneEntrySet(sets, (field, Planned(store, map[], sets, e)));
    var none: seq<Condition> := [];
    assert none + none == none;
  }

  lemma TwoSteps(store: Store, first: Step, second: Step, row: Record, after: Record, last: Record)
    requires RunStep(store, map[], first, row, row) == Ok(after)
             && RunStep(store, map[], second, after, row) == Ok(last)
    ensures RunSteps(store, map[], [first, second], row, row) == Ok(last)
  {
    hide RunStep;
    assert [first, second][1..] == [second] && [second][1..] == [];
    assert RunSteps(store, map[], [second], after, row) == Ok(last);
  }

  lemma TwoPlanned(store: Store, first: Step, second: Step, row: Record, a: (string, Expr), b: (string, Expr))
    requires a.0 != b.0
    requires PlanStep(store, map[], Plan([], []), first) == Some(Plan([a], []))
    requires PlanStep(store, map[], Plan([a], []), second) == Some(Plan([a, b], []))
    ensures PlannedAs(store, map[], Plan([], []), [first, second], row,
                      Ok(row[a.0 := Eval(store, a.1, row)][b.0 := Eval(store, b.1, row)]))
  {
    hide PlanStep, Eval;
    assert [first, second][1..] == [second] && [second][1..] == [];
    assert PlanSteps(store, map[], Plan([a], []), [second]) == Some(Plan([a, b], []));
    assert [a, b] == [a] + [b] && [a] == [] + [a];
    WrittenThen(store, [a], b, row, row);
    WrittenThen(store, [], a, row, row);
  }

  lemma SetTwo(a: (string, Expr), b: (string, Expr))
    ensures Set([], a) == [a]
    ensures a.0 != b.0 ==> Set([a], b) == [a, b]
  {
    var one := [a];
    assert one[..0] == [];
    if a.0 != b.0 {
      assert Without(one, b.0) == one;
      assert one + [b] == [a, b];
    }
  }

  /** A comparison whose type planning takes away: a name that ignores case, set and then compared, is
      equal in the sequence and different in the statement. */
  lemma {:induction false} TypedComparisonSeparatesThem(store: Store, row: Record)
    requires store.attributes == map["name" := "ci"]
    requires store.compareTyped(Some("ci"), Text("ada"), Text("ADA")) == Equal
    requires store.compareTyped(None, Text("ada"), Text("ADA")) == Greater
    ensures var steps := [Assign("name", Known(Text("ada"))),
                          Assign("same", Compared(Eq, Field("name"), Known(Text("ADA"))))];
            && RunSteps(store, map[], steps, row, row) == Ok(row["name" := Text("ada")]["same" := Bool(true)])
            && PlannedAs(store, map[], Plan([], []), steps, row,
                         Ok(row["name" := Text("ada")]["same" := Bool(false)]))
  {
    hide RunSteps, PlannedAs, RunStep, PlanStep;
    var name, same := Known(Text("ada")), Compared(Eq, Field("name"), Known(Text("ADA")));
    var planned := Compared(Eq, name, Known(Text("ADA")));
    var after := row["name" := Text("ada")];
    assert Eval(store, name, row) == Text("ada");
    assert Eval(store, Field("name"), after) == Text("ada");
    assert Eval(store, same, after) == Bool(true);
    assert Eval(store, planned, row) == Bool(false);
    assert ValueIn([("name", name)], "name") == name;
    assert Planned(store, map[], [("name", name)], same) == planned;
    hide Eval, Planned;
    AssignRuns(store, "name", name, row, row);
    AssignRuns(store, "same", same, after, row);
    TwoSteps(store, Assign("name", name), Assign("same", same), row, after, after["same" := Bool(true)]);
    NamePlanned(store, name);
    AssignPlans(store, [], "name", name);
    AssignPlans(store, [("name", name)], "same", same);
    SetTwo(("name", name), ("same", planned));
    TwoPlanned(store, Assign("name", name), Assign("same", same), row, ("name", name), ("same", planned));
  }

  lemma NamePlanned(store: Store, e: Expr)
    requires e.Known?
    ensures Planned(store, map[], [], e) == e
  {}

  /** An atomic change after a change to a field it reads: a count of 1 set to 5, and a total of one
      more than the count, is 6 in the sequence and 2 in the statement. */
  lemma {:induction false} AtomicChangeReadsTheStoredRecord(store: Store, row: Record)
    requires Get(row, "count") == Int(1)
    ensures var total := Expressions.Computed(Add, Expressions.Field("count"), Expressions.LitInt(1));
            var steps := [Assign("count", Known(Int(5))), AtomicChange("total", total)];
            && RunSteps(store, map[], steps, row, row) == Ok(row["count" := Int(5)]["total" := Int(6)])
            && PlannedAs(store, map[], Plan([], []), steps, row, Ok(row["count" := Int(5)]["total" := Int(2)]))
  {
    hide RunSteps, PlannedAs;
    var count, total := Known(Int(5)), Expressions.Computed(Add, Expressions.Field("count"), Expressions.LitInt(1));
    var planned := Computed(Add, Field("count"), Known(Int(1)));
    var first, second := Assign("count", count), AtomicChange("total", total);
    var after := row["count" := Int(5)];
    FieldReads(store, "count", row);
    assert Eval(store, count, row) == Int(5);
    assert Eval(store, planned, row) == Int(2);
    assert ReadFirst(store, map[], total, after) == Ok(Int(6));
    assert Translated(total, map[]) == Some(planned);
    NamePlanned(store, count);
    hide Eval, Planned, ReadFirst, Translated;
    AssignRuns(store, "count", count, row, row);
    TwoSteps(store, first, second, row, after, after["total" := Int(6)]);
    AssignPlans(store, [], "count", count);
    SetTwo(("count", count), ("total", planned));
    TwoPlanned(store, first, second, row, ("count", count), ("total", planned));
  }

  const NIL_X: Expressions.Expr := Expressions.Compared(Expressions.Eq, Expressions.Field("x"), Expressions.Nil)
  const PLANNED_NIL_X: Expr := Compared(Eq, Field("x"), Known(Null))

  lemma {:induction false} NilComparisonInBoth(store: Store, row: Record)
    requires Get(row, "x") == Null
    ensures Translated(NIL_X, map[]) == Some(PLANNED_NIL_X)
    ensures ReadFirst(store, map[], NIL_X, row) == Ok(Bool(true))
    ensures Eval(store, PLANNED_NIL_X, row) == Null
  {
    FieldReads(store, "x", row);
  }

  lemma OneStep(store: Store, step: Step, row: Record, after: Record)
    requires RunStep(store, map[], step, row, row) == Ok(after)
    ensures RunSteps(store, map[], [step], row, row) == Ok(after)
  {
    hide RunStep;
    assert [step][1..] == [];
  }

  lemma OnePlanned(store: Store, step: Step, row: Record, a: (string, Expr))
    requires PlanStep(store, map[], Plan([], []), step) == Some(Plan([a], []))
    ensures PlannedAs(store, map[], Plan([], []), [step], row, Ok(row[a.0 := Eval(store, a.1, row)]))
  {
    hide PlanStep, Eval;
    assert [step][1..] == [];
    assert PlanSteps(store, map[], Plan([], []), [step]) == PlanSteps(store, map[], Plan([a], []), []);
    assert [a] == [] + [a];
    WrittenThen(store, [], a, row, row);
  }

  /** An atomic change that compares with nil, all its fields as they are stored: whether a missing
      field equals nil is true read first and nil in the statement. */
  lemma {:induction false} NilComparisonSeparatesThem(store: Store, row: Record)
    requires Get(row, "x") == Null
    ensures var steps := [AtomicChange("flag", NIL_X)];
            && RunSteps(store, map[], steps, row, row) == Ok(row["flag" := Bool(true)])
            && PlannedAs(store, map[], Plan([], []), steps, row, Ok(row["flag" := Null]))
  {
    hide ReadFirst, Translated, Set, RunSteps, Applied, Eval;
    var steps := [AtomicChange("flag", NIL_X)];
    NilComparisonInBoth(store, row);
    assert steps[1..] == [];
    assert RunStep(store, map[], steps[0], row, row) == Ok(row["flag" := Bool(true)]);
    OneStep(store, steps[0], row, row["flag" := Bool(true)]);
    SetTwo(("flag", PLANNED_NIL_X), ("flag", PLANNED_NIL_X));
    OnePlanned(store, steps[0], row, ("flag", PLANNED_NIL_X));
  }

  // ---------- planning, as the update object is filled

  /** Plans the steps in order: a change's expressions all over what the update set before it, an
      atomic change translated. Gives up at the first it cannot translate. */
  method PlanAll(update: AtomicUpdate, store: Store, arguments: Record, steps: seq<Step>) returns (planned: bool)
    modifies update
    ensures var whole := PlanSteps(store, arguments, old(Plan(update.sets, update.conditions)), steps);
            && (planned <==> whole.Some?)
            && (planned ==> Plan(update.sets, update.conditions) == whole.value)
  {
    hide PlannedSets, PlannedChecks, Translated;
    assert steps[0..] == steps;
    for i := 0 to |steps|
      invariant PlanSteps(store, arguments, Plan(update.sets, update.conditions), steps[i..])
                == PlanSteps(store, arguments, old(Plan(update.sets, update.conditions)), steps)
    {
      assert steps[i..][0] == steps[i] && steps[i..][1..] == steps[i + 1..];
      match steps[i] {
        case Change(wanted, checks) =>
          var entries := PlannedSets(store, arguments, update.sets, wanted);
          var failing := PlannedChecks(store, arguments, update.sets, checks);
          SetAll(update, entries);
          update.conditions := update.conditions + failing;
        case AtomicChange(field, e) =>
          var translated := Translated(e, arguments);
          if translated.None? {
            return false;
          }
          update.Set(field, translated.value);
      }
    }
    return true;
  }

  method SetAll(update: AtomicUpdate, entries: Sets)
    modifies update`sets
    ensures update.sets == SetEach(old(update.sets), entries)
  {
    for i := 0 to |entries|
      invariant update.sets == SetEach(old(update.sets), entries[..i])
    {
      assert entries[..i + 1][..i] == entries[..i];
      update.Set(entries[i].0, entries[i].1);
    }
    assert entries[..|entries|] == entries;
  }
}
