/**
 Resource expressions translated to expressions of a statement, and where that keeps their value.
 */
module Translation {
  import opened Wrappers
  import opened Values
  import opened Arithmetic
  import opened Atomic
  import Expressions

  function AsAtomic(comparison: Expressions.Comparison, x: Expr, y: Expr): Expr {
    match comparison
    case Eq => Compared(Eq, x, y)
    case Ne => Not(Compared(Eq, x, y))
    case Gt => Compared(Gt, x, y)
    case Gte => Not(Compared(Lt, x, y))
    case Lt => Compared(Lt, x, y)
    case Lte => Not(Compared(Gt, x, y))
  }

  /** A resource expression over the stored record, its arguments known: `None` where it calls Rust. */
  function Translated(e: Expressions.Expr, arguments: Record): Option<Expr>
    decreases e, 1
  {
    match e
    case Field(name) => Some(Field(name))
    case Arg(name) => Some(Known(Get(arguments, name)))
    case LitInt(n) => Some(Known(Int(n)))
    case LitString(text) => Some(Known(Text(text)))
    case LitBool(b) => Some(Known(Bool(b)))
    case Nil => Some(Known(Null))
    case StringLength(name) => Some(StringLength(Field(name)))
    case Length(a) =>
      var x := Translated(a, arguments);
      if x.None? then None else Some(StringLength(x.value))
    case Lower(a) =>
      var x := Translated(a, arguments);
      if x.None? then None else Some(Changed(Lower, x.value))
    case Upper(a) =>
      var x := Translated(a, arguments);
      if x.None? then None else Some(Changed(Upper, x.value))
    case Concat(parts) =>
      var xs := TranslatedEach(parts, arguments);
      if xs.None? then None else Some(Concat(xs.value))
    case Coalesce(parts) =>
      var xs := TranslatedEach(parts, arguments);
      if xs.None? then None else Some(Coalesce(xs.value))
    case Computed(operation, a, b) =>
      var x, y := Translated(a, arguments), Translated(b, arguments);
      if x.None? || y.None? then None else Some(Computed(operation, x.value, y.value))
    case Compared(comparison, a, b) =>
      var x, y := Translated(a, arguments), Translated(b, arguments);
      if x.None? || y.None? then None else Some(AsAtomic(comparison, x.value, y.value))
    case IfElse(condition, a, b) =>
      var c, x, y := Translated(condition, arguments), Translated(a, arguments), Translated(b, arguments);
      if c.None? || x.None? || y.None? then None else Some(If(c.value, x.value, y.value))
    case Custom(_) => None
  }

  function TranslatedEach(parts: seq<Expressions.Expr>, arguments: Record): Option<seq<Expr>>
    decreases parts, 0
  {
    if parts == [] then Some([])
    else
      var first, rest := Translated(parts[0], arguments), TranslatedEach(parts[1..], arguments);
      if first.None? || rest.None? then None else Some([first.value] + rest.value)
  }

  /** Exactly the expressions that call Rust are not translated. */
  lemma {:induction false} TranslatedUnlessCustom(e: Expressions.Expr, arguments: Record)
    ensures Translated(e, arguments).None? <==> Expressions.IsCustom(e)
    decreases e, 1
  {
    match e
    case Length(a) => TranslatedUnlessCustom(a, arguments);
    case Lower(a) => TranslatedUnlessCustom(a, arguments);
    case Upper(a) => TranslatedUnlessCustom(a, arguments);
    case Concat(parts) => EachTranslatedUnlessCustom(parts, arguments);
    case Coalesce(parts) => EachTranslatedUnlessCustom(parts, arguments);
    case Computed(_, a, b) =>
      TranslatedUnlessCustom(a, arguments);
      TranslatedUnlessCustom(b, arguments);
    case Compared(_, a, b) =>
      TranslatedUnlessCustom(a, arguments);
      TranslatedUnlessCustom(b, arguments);
    case IfElse(condition, a, b) =>
      TranslatedUnlessCustom(condition, arguments);
      TranslatedUnlessCustom(a, arguments);
      TranslatedUnlessCustom(b, arguments);
    case _ =>
  }

  lemma {:induction false} EachTranslatedUnlessCustom(parts: seq<Expressions.Expr>, arguments: Record)
    ensures TranslatedEach(parts, arguments).None? <==> exists i | 0 <= i < |parts| :: Expressions.IsCustom(parts[i])
    decreases parts, 0
  {
    hide Expressions.IsCustom, Translated;
    if parts != [] {
      var rest := parts[1..];
      TranslatedUnlessCustom(parts[0], arguments);
      EachTranslatedUnlessCustom(rest, arguments);
      if i :| 0 <= i < |parts| && Expressions.IsCustom(parts[i]) {
        assert i == 0 || rest[i - 1] == parts[i];
      }
      if i :| 0 <= i < |rest| && Expressions.IsCustom(rest[i]) {
        assert parts[i + 1] == rest[i];
      }
    }
  }

  // ---------- where translating keeps the value

  function PlatformOf(store: Store): Expressions.Platform {
    Expressions.Platform(text => store.change(Lower, text), text => store.change(Upper, text), store.display)
  }

  /** The value read first, or the name a type mismatch is reported under. */
  function ReadFirst(store: Store, arguments: Record, e: Expressions.Expr, record: Record): Result<Value, string> {
    Expressions.Evaluate(PlatformOf(store), e, record, arguments)
  }

  /** The value in the statement. */
  function InStatement(store: Store, arguments: Record, e: Expressions.Expr, record: Record): Value
    requires Translated(e, arguments).Some?
  {
    Eval(store, Translated(e, arguments).value, record)
  }

  predicate NullOrText(v: Value) {
    v == Null || v.Text?
  }

  /** Read first, joining leaves out values of the kinds that the statement shows. */
  predicate ShownAlike(store: Store, v: Value) {
    v != Null && (v.Text? || v.Int? || v.Bool? || v.Uuid? || store.display(v) == "")
  }

  /** Added texts are joined read first and nothing in the statement. */
  predicate CalculatedAlike(x: Value, y: Value) {
    (x.Int? && y.Int?) || x == Null || y == Null
  }

  predicate StandsFor(comparison: Expressions.Comparison, order: Ordering) {
    match comparison
    case Eq => order == Equal
    case Ne => order != Equal
    case Gt => order == Greater
    case Gte => order != Less
    case Lt => order == Less
    case Lte => order != Greater
  }

  /** Comparing with nil is true or false read first, and neither in the statement, which compares other
      values by a type. */
  predicate ComparedAlike(store: Store, comparison: Expressions.Comparison, comparedBy: Option<AttributeType>,
                          x: Value, y: Value) {
    && x != Null
    && y != Null
    && (Expressions.Holds(comparison, x, y) <==> StandsFor(comparison, store.compareTyped(comparedBy, x, y)))
  }

  /** Translating keeps what the outermost operation makes of its operands' values. */
  predicate OperationKeeps(store: Store, arguments: Record, e: Expressions.Expr, record: Record)
    requires Translated(e, arguments).Some?
  {
    match e
    case StringLength(name) => NullOrText(Get(record, name))
    case Length(a) => NullOrText(InStatement(store, arguments, a, record))
    case Lower(a) => NullOrText(InStatement(store, arguments, a, record))
    case Upper(a) => NullOrText(InStatement(store, arguments, a, record))
    case Concat(parts) =>
      forall v | v in EvalEach(store, TranslatedEach(parts, arguments).value, record) :: ShownAlike(store, v)
    case Computed(_, a, b) =>
      CalculatedAlike(InStatement(store, arguments, a, record), InStatement(store, arguments, b, record))
    case Compared(comparison, a, b) =>
      ComparedAlike(store, comparison,
                    ComparisonType(store, Translated(a, arguments).value, Translated(b, arguments).value),
                    InStatement(store, arguments, a, record), InStatement(store, arguments, b, record))
    case _ => true
  }

  /** And so it does within its operands, of which parts never come to are left aside: those after the
      first that is not nil, and the branch not taken. */
  predicate OperandsKeep(store: Store, arguments: Record, e: Expressions.Expr, record: Record)
    requires Translated(e, arguments).Some?
    decreases e, 1
  {
    match e
    case Length(a) => Keeps(store, arguments, a, record)
    case Lower(a) => Keeps(store, arguments, a, record)
    case Upper(a) => Keeps(store, arguments, a, record)
    case Concat(parts) => EachKeeps(store, arguments, parts, record)
    case Coalesce(parts) => EachKeepsUntilKnown(store, arguments, parts, record)
    case Computed(_, a, b) => Keeps(store, arguments, a, record) && Keeps(store, arguments, b, record)
    case Compared(_, a, b) => Keeps(store, arguments, a, record) && Keeps(store, arguments, b, record)
    case IfElse(condition, a, b) =>
      && Keeps(store, arguments, condition, record)
      && if InStatement(store, arguments, condition, record) == Bool(true) then Keeps(store, arguments, a, record)
         else Keeps(store, arguments, b, record)
    case _ => true
  }

  predicate Keeps(store: Store, arguments: Record, e: Expressions.Expr, record: Record)
    requires Translated(e, arguments).Some?
    decreases e, 2
  {
    OperandsKeep(store, arguments, e, record) && OperationKeeps(store, arguments, e, record)
  }

  predicate EachKeeps(store: Store, arguments: Record, parts: seq<Expressions.Expr>, record: Record)
    requires TranslatedEach(parts, arguments).Some?
    decreases parts, 0
  {
    || parts == []
    || (Keeps(store, arguments, parts[0], record) && EachKeeps(store, arguments, parts[1..], record))
  }

  predicate EachKeepsUntilKnown(store: Store, arguments: Record, parts: seq<Expressions.Expr>, record: Record)
    requires TranslatedEach(parts, arguments).Some?
    decreases parts, 0
  {
    || parts == []
    || (&& Keeps(store, arguments, parts[0], record)
        && (InStatement(store, arguments, parts[0], record) == Null ==>
              EachKeepsUntilKnown(store, arguments, parts[1..], record)))
  }

  /** Of an expression whose operands keep their values, the value in the statement is the value read
      first exactly where the operation keeps it. */
  lemma {:induction false} TranslationKeepsTheValue(
    store: Store, arguments: Record, e: Expressions.Expr, record: Record)
    requires Translated(e, arguments).Some? && OperandsKeep(store, arguments, e, record)
    ensures ReadFirst(store, arguments, e, record) == Ok(InStatement(store, arguments, e, record))
            <==> OperationKeeps(store, arguments, e, record)
    decreases e, 1
  {
    hide Compute, Join, FirstKnown, Calculate, Expressions.Calculated, Expressions.Joined, Expressions.Holds,
         AsAtomic, ComparedAlike, ShownAlike, ComparisonType, Expressions.FirstKnown, CalculatedAlike, Get,
         PlatformOf, NullOrText, Expressions.LengthOf, Expressions.Recased;
    match e
    case StringLength(name) => TextOperationKeepsTheValue(store, arguments, e, record);
    case Length(_) => TextOperationKeepsTheValue(store, arguments, e, record);
    case Lower(_) => TextOperationKeepsTheValue(store, arguments, e, record);
    case Upper(_) => TextOperationKeepsTheValue(store, arguments, e, record);
    case Concat(parts) =>
      TranslationKeepsEach(store, arguments, parts, record);
      JoinedAlike(store, EvalEach(store, TranslatedEach(parts, arguments).value, record));
    case Coalesce(parts) => TranslationKeepsFirstKnown(store, arguments, parts, record);
    case Computed(operation, a, b) =>
      TranslationKeepsTheValue(store, arguments, a, record);
      TranslationKeepsTheValue(store, arguments, b, record);
      SameCalculation(operation, InStatement(store, arguments, a, record), InStatement(store, arguments, b, record));
    case Compared(comparison, a, b) =>
      TranslationKeepsTheValue(store, arguments, a, record);
      TranslationKeepsTheValue(store, arguments, b, record);
      SameComparison(store, comparison, Translated(a, arguments).value, Translated(b, arguments).value, record);
    case IfElse(condition, a, b) => TranslationKeepsTheBranch(store, arguments, condition, a, b, record);
    case _ =>
  }

  lemma {:induction false} TextOperationKeepsTheValue(
    store: Store, arguments: Record, e: Expressions.Expr, record: Record)
    requires e.StringLength? || e.Length? || e.Lower? || e.Upper?
    requires Translated(e, arguments).Some? && OperandsKeep(store, arguments, e, record)
    ensures ReadFirst(store, arguments, e, record) == Ok(InStatement(store, arguments, e, record))
            <==> OperationKeeps(store, arguments, e, record)
    decreases e, 0
  {
    match e
    case StringLength(name) => FieldReads(store, name, record);
    case Length(a) => TranslationKeepsTheValue(store, arguments, a, record);
    case Lower(a) => TranslationKeepsTheValue(store, arguments, a, record);
    case Upper(a) => TranslationKeepsTheValue(store, arguments, a, record);
  }

  lemma {:induction false} TranslationKeepsTheBranch(
    store: Store, arguments: Record, condition: Expressions.Expr, a: Expressions.Expr, b: Expressions.Expr,
    record: Record)
    requires var e := Expressions.IfElse(condition, a, b);
             Translated(e, arguments).Some? && OperandsKeep(store, arguments, e, record)
    ensures var e := Expressions.IfElse(condition, a, b);
            ReadFirst(store, arguments, e, record) == Ok(InStatement(store, arguments, e, record))
    decreases Expressions.IfElse(condition, a, b), 0
  {
    hide OperationKeeps, PlatformOf;
    TranslationKeepsTheValue(store, arguments, condition, record);
    if InStatement(store, arguments, condition, record) == Bool(true) {
      TranslationKeepsTheValue(store, arguments, a, record);
    } else {
      TranslationKeepsTheValue(store, arguments, b, record);
    }
  }

  lemma {:induction false} TranslationKeepsEach(
    store: Store, arguments: Record, parts: seq<Expressions.Expr>, record: Record)
    requires TranslatedEach(parts, arguments).Some? && EachKeeps(store, arguments, parts, record)
    ensures Expressions.EvaluateEach(PlatformOf(store), parts, record, arguments)
            == Ok(EvalEach(store, TranslatedEach(parts, arguments).value, record))
    decreases parts, 0
  {
    hide Eval, Translated, PlatformOf, Expressions.Evaluate, OperandsKeep, OperationKeeps;
    if parts != [] {
      TranslationKeepsTheValue(store, arguments, parts[0], record);
      TranslationKeepsEach(store, arguments, parts[1..], record);
      var translated := TranslatedEach(parts, arguments).value;
      assert translated[1..] == TranslatedEach(parts[1..], arguments).value;
    }
  }

  lemma {:induction false} TranslationKeepsFirstKnown(
    store: Store, arguments: Record, parts: seq<Expressions.Expr>, record: Record)
    requires TranslatedEach(parts, arguments).Some? && EachKeepsUntilKnown(store, arguments, parts, record)
    ensures Expressions.FirstKnown(PlatformOf(store), parts, record, arguments)
            == Ok(FirstKnown(EvalEach(store, TranslatedEach(parts, arguments).value, record)))
    decreases parts, 0
  {
    hide Eval, Translated, PlatformOf, Expressions.Evaluate, OperandsKeep, OperationKeeps;
    if parts != [] {
      TranslationKeepsTheValue(store, arguments, parts[0], record);
      var translated := TranslatedEach(parts, arguments).value;
      assert translated[1..] == TranslatedEach(parts[1..], arguments).value;
      if InStatement(store, arguments, parts[0], record) == Null {
        TranslationKeepsFirstKnown(store, arguments, parts[1..], record);
      }
    }
  }

  /** Joined text is the same read first and in the statement exactly where every value is shown alike. */
  lemma {:induction false} JoinedAlike(store: Store, values: seq<Value>)
    ensures |Expressions.Joined(PlatformOf(store), values)| <= |Join(store, values)|
    ensures (Null !in values && Expressions.Joined(PlatformOf(store), values) == Join(store, values))
            <==> forall v | v in values :: ShownAlike(store, v)
  {
    if values != [] {
      var p, first, rest := PlatformOf(store), values[0], values[1..];
      JoinedAlike(store, rest);
      var shown := Expressions.Shown(p, first);
      var displayed := if first.Text? then first.text else store.display(first);
      assert ShownAlike(store, first) <==> first != Null && shown == displayed;
      JoinsAlike(shown, displayed, Expressions.Joined(p, rest), Join(store, rest));
      assert forall v :: v in values <==> v == first || v in rest;
    }
  }

  lemma JoinsAlike(a: string, b: string, x: string, y: string)
    requires |a| <= |b| && |x| <= |y|
    ensures a + x == b + y <==> a == b && x == y
  {
    if a + x == b + y {
      assert |a + x| == |b + y|;
      assert a == (a + x)[..|a|] && b == (b + y)[..|b|];
      assert x == (a + x)[|a|..] && y == (b + y)[|b|..];
    }
  }

  lemma SameCalculation(operation: Operation, x: Value, y: Value)
    ensures Expressions.Calculated(operation, x, y) == Ok(Compute(operation, x, y)) <==> CalculatedAlike(x, y)
  {
    hide Calculate;
  }

  lemma {:induction false} SameComparison(
    store: Store, comparison: Expressions.Comparison, a: Expr, b: Expr, record: Record)
    ensures var x, y := Eval(store, a, record), Eval(store, b, record);
            Bool(Expressions.Holds(comparison, x, y)) == Eval(store, AsAtomic(comparison, a, b), record)
            <==> ComparedAlike(store, comparison, ComparisonType(store, a, b), x, y)
  {
    hide Expressions.Holds, ComparisonType;
  }

  /** There two integers are compared alike, and two texts without a type; so is any other value for
      equality; and for an order, exactly where the order of values does not set them apart the way
      that is asked. */
  lemma ValuesComparedAlike(
    store: Store, asFloat: int -> int, comparison: Expressions.Comparison, comparedBy: Option<AttributeType>,
    x: Value, y: Value)
    requires ComparesValues(store, asFloat) && x != Null && y != Null
    requires comparedBy.None? || !x.Text? || !y.Text?
    ensures ComparedAlike(store, comparison, comparedBy, x, y)
            <==> || comparison.Eq?
                 || comparison.Ne?
                 || (x.Int? && y.Int?)
                 || (x.Text? && y.Text?)
                 || !StandsFor(comparison, Compare(asFloat, x, y))
  {
    CompareEqual(asFloat, x, y);
  }
}
