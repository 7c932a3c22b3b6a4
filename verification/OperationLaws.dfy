/**
 What the operations of the two expression evaluators come to, each against the integers, the
 comparisons and the three-valued logic it stands for.
 */
module OperationLaws {
  import opened Wrappers
  import opened Values
  import opened Arithmetic
  import opened Atomic
  import Expressions
  import Filters

  // ---------- arithmetic, in a statement and read first

  /** Both evaluators give `v`. */
  predicate BothGive(operation: Operation, x: Value, y: Value, v: Value) {
    Compute(operation, x, y) == v && Expressions.Calculated(operation, x, y) == Ok(v)
  }

  /** Sums, differences and products of integers are theirs. */
  lemma IntegersAreCalculated(x: int, y: int)
    ensures BothGive(Add, Int(x), Int(y), Int(x + y))
    ensures BothGive(Sub, Int(x), Int(y), Int(x - y))
    ensures BothGive(Mul, Int(x), Int(y), Int(x * y))
  {}

  /** What was subtracted, added again, gives the minuend. */
  lemma SubtractionIsUndone(x: int, y: int)
    ensures exists difference :: BothGive(Sub, Int(x), Int(y), difference) && BothGive(Add, difference, Int(y), Int(x))
  {
    IntegersAreCalculated(x, y);
    IntegersAreCalculated(x - y, y);
  }

  /** Products distribute over sums; zero and one are the units. */
  lemma ProductsDistribute(x: int, y: int, z: int)
    ensures exists sum, a, b, product ::
              && BothGive(Add, Int(x), Int(y), sum)
              && BothGive(Mul, Int(x), Int(z), a)
              && BothGive(Mul, Int(y), Int(z), b)
              && BothGive(Mul, sum, Int(z), product)
              && BothGive(Add, a, b, product)
    ensures BothGive(Add, Int(x), Int(0), Int(x)) && BothGive(Mul, Int(x), Int(1), Int(x))
  {
    IntegersAreCalculated(x, y);
    IntegersAreCalculated(x, z);
    IntegersAreCalculated(y, z);
    IntegersAreCalculated(x + y, z);
    IntegersAreCalculated(x * z, y * z);
    assert (x + y) * z == x * z + y * z;
    assert BothGive(Add, Int(x * z), Int(y * z), Int((x + y) * z));
  }

  /** `r` is left of `x` by a division by `y`: smaller in magnitude than `y`, and of the sign of `x`. */
  predicate IsRemainder(x: int, y: int, r: int) {
    && (if y < 0 then y < r < -y else -y < r < y)
    && (r > 0 ==> x > 0)
    && (r < 0 ==> x < 0)
  }

  /** A quotient times the divisor leaves a remainder, and no other number does; by zero there is none. */
  lemma QuotientsLeaveARemainder(x: int, y: int)
    ensures y == 0 ==> BothGive(Div, Int(x), Int(y), Null)
    ensures y != 0 ==> exists q :: BothGive(Div, Int(x), Int(y), Int(q)) && IsRemainder(x, y, x - q * y)
    ensures forall q | y != 0 && IsRemainder(x, y, x - q * y) :: BothGive(Div, Int(x), Int(y), Int(q))
  {
    if y != 0 {
      var q := Truncated(x, y);
      TruncatedLeaves(x, y);
      assert BothGive(Div, Int(x), Int(y), Int(q)) by {
        hide Truncated;
      }
      hide Truncated, IsRemainder, BothGive;
      forall p | IsRemainder(x, y, x - p * y)
        ensures BothGive(Div, Int(x), Int(y), Int(p))
      {
        OneQuotient(x, y, p, q);
      }
    }
  }

  lemma TruncatedLeaves(x: int, y: int)
    requires y != 0
    ensures IsRemainder(x, y, x - Truncated(x, y) * y)
  {
    var k := Divided(Magnitude(x), Magnitude(y));
    assert Truncated(x, y) == Sign(x) * Sign(y) * k;
    hide Truncated, Sign;
    SignedProduct(x, y, k);
  }

  lemma Divided(m: nat, n: nat) returns (k: nat)
    requires n > 0
    ensures k == m / n && 0 <= m - k * n < n
  {
    k := m / n;
  }

  lemma SignedProduct(x: int, y: int, k: nat)
    ensures Sign(x) * Sign(y) * k * y == if x < 0 then -(k * Magnitude(y)) else k * Magnitude(y)
  {
    if y < 0 {
      assert k * y == -(k * -y);
    }
  }

  lemma OneQuotient(x: int, y: int, p: int, q: int)
    requires y != 0 && IsRemainder(x, y, x - p * y) && IsRemainder(x, y, x - q * y)
    ensures p == q
  {
    var n := if y < 0 then -y else y;
    Difference(p, q, y);
    if p > q {
      AtLeast(p - q, y);
    } else if q > p {
      AtLeast(q - p, y);
      Difference(q, p, y);
    }
  }

  lemma Difference(p: int, q: int, y: int)
    ensures (p - q) * y == p * y - q * y
  {}

  lemma AtLeast(d: int, y: int)
    requires d >= 1 && y != 0
    ensures if y < 0 then d * y <= y else d * y >= y
  {
    assert d * y == y + (d - 1) * y;
    if y < 0 {
      assert (d - 1) * -y >= 0;
      assert (d - 1) * y == -((d - 1) * -y);
    } else {
      assert (d - 1) * y >= 0;
    }
  }

  /** A statement calculates with integers alone. Read first, two texts are joined by adding them, nil
      makes nil, and anything else is a type mismatch. */
  lemma OtherValuesAreNotCalculated(operation: Operation, x: Value, y: Value)
    ensures Compute(operation, x, y) != Null ==> x.Int? && y.Int?
    ensures x.Text? && y.Text? && operation == Add ==>
              Expressions.Calculated(operation, x, y) == Ok(Text(x.text + y.text))
    ensures x == Null || y == Null ==> Expressions.Calculated(operation, x, y) == Ok(Null)
    ensures Expressions.Calculated(operation, x, y).Err?
            <==> x != Null && y != Null && !(x.Int? && y.Int?) && !(x.Text? && y.Text? && operation == Add)
  {
    match operation
    case Add =>
    case Sub =>
    case Mul =>
    case Div =>
  }

  /** So taking `n` off an integer field takes `n` off it. */
  lemma {:induction false} FieldIsDecremented(store: Store, field: string, n: int, row: Record)
    requires Get(row, field).Int?
    ensures var sets := [(field, Computed(Sub, Field(field), Known(Int(n))))];
            Get(Written(store, sets, row), field) == Int(Get(row, field).n - n)
  {
    var e := Computed(Sub, Field(field), Known(Int(n)));
    var sets := [(field, e)];
    FieldReads(store, field, row);
    assert Eval(store, e, row) == Compute(Sub, Get(row, field), Int(n));
    IntegersAreCalculated(Get(row, field).n, n);
    hide Eval;
    WrittenIsThePlannedValue(store, sets, row, field);
    assert ValueIn(sets, field) == e;
  }

  // ---------- comparisons and logic in a statement

  /** A comparison is unknown exactly where an operand is null. Elsewhere it goes by the type of its first
      operand that is an attribute, and of `Lt`, `Eq` and `Gt` exactly one holds. */
  lemma {:induction false} ComparisonsGoByTheFirstType(store: Store, a: Expr, b: Expr, row: Record)
    ensures var x, y := Eval(store, a, row), Eval(store, b, row);
            var comparedBy := if a.Field? && a.name in store.attributes then Some(store.attributes[a.name])
                              else if b.Field? && b.name in store.attributes then Some(store.attributes[b.name])
                              else None;
            var order := store.compareTyped(comparedBy, x, y);
            var unknown := x == Null || y == Null;
            && Eval(store, Compared(Lt, a, b), row) == (if unknown then Null else Bool(order == Less))
            && Eval(store, Compared(Eq, a, b), row) == (if unknown then Null else Bool(order == Equal))
            && Eval(store, Compared(Gt, a, b), row) == (if unknown then Null else Bool(order == Greater))
  {}

  /** Two operands are distinct unless both are null or they are equal; it is never unknown. */
  lemma {:induction false} DistinctUnlessEqual(store: Store, a: Expr, b: Expr, row: Record)
    ensures Eval(store, DistinctFrom(a, b), row).Bool?
    ensures Eval(store, DistinctFrom(a, b), row) == Bool(false)
            <==> (Eval(store, a, row) == Null && Eval(store, b, row) == Null)
                 || Eval(store, Compared(Eq, a, b), row) == Bool(true)
  {}

  /** Membership in a list without null is equality with one of its values, and unknown of null. */
  lemma {:induction false} MembershipIsEqualityWithSome(store: Store, a: Expr, values: seq<Value>, row: Record)
    requires Null !in values
    ensures Eval(store, In(a, values), row) == Null <==> Eval(store, a, row) == Null
    ensures Eval(store, In(a, values), row) == Bool(true)
            <==> exists v | v in values :: Eval(store, Compared(Eq, a, Known(v)), row) == Bool(true)
    ensures Eval(store, In(a, values), row) == Bool(false)
            <==> Eval(store, a, row) != Null && forall v | v in values ::
                   Eval(store, Compared(Eq, a, Known(v)), row) == Bool(false)
  {
    var x := Eval(store, a, row);
    forall v | v in values
      ensures Eval(store, Compared(Eq, a, Known(v)), row)
              == if x == Null then Null else Bool(store.compareTyped(TypeOf(store, a), x, v) == Equal)
    {
      EqualToKnown(store, a, v, row);
    }
  }

  lemma {:induction false} EqualToKnown(store: Store, a: Expr, v: Value, row: Record)
    requires v != Null
    ensures Eval(store, Compared(Eq, a, Known(v)), row)
            == var x := Eval(store, a, row);
               if x == Null then Null else Bool(store.compareTyped(TypeOf(store, a), x, v) == Equal)
  {
    assert Eval(store, Known(v), row) == v;
  }

  lemma {:induction false} EvalEachAt(store: Store, items: seq<Expr>, row: Record, i: nat)
    requires i < |items|
    ensures |EvalEach(store, items, row)| == |items| && EvalEach(store, items, row)[i] == Eval(store, items[i], row)
    decreases items, 0
  {
    hide Eval;
    if i > 0 {
      EvalEachAt(store, items[1..], row, i - 1);
    } else if |items| > 1 {
      EvalEachAt(store, items[1..], row, 0);
    }
  }

  lemma {:induction false} TruthsAt(store: Store, items: seq<Expr>, row: Record)
    ensures var truths := Truths(EvalEach(store, items, row));
            |truths| == |items| && forall i | 0 <= i < |items| :: truths[i] == Truth(Eval(store, items[i], row))
  {
    hide Eval;
    if items == [] {
      assert EvalEach(store, items, row) == [];
    }
    forall i | 0 <= i < |items|
      ensures |EvalEach(store, items, row)| == |items| && EvalEach(store, items, row)[i] == Eval(store, items[i], row)
    {
      EvalEachAt(store, items, row, i);
    }
  }

  /** A conjunction is true where every item is, and false where any is; a disjunction is false where
      every item is, and true where any is. */
  lemma {:induction false} ConjunctionsAndDisjunctions(store: Store, items: seq<Expr>, row: Record)
    ensures Eval(store, And(items), row) == Bool(true)
            <==> forall i | 0 <= i < |items| :: Eval(store, items[i], row) == Bool(true)
    ensures Eval(store, And(items), row) == Bool(false)
            <==> exists i | 0 <= i < |items| :: Eval(store, items[i], row) == Bool(false)
    ensures Eval(store, Or(items), row) == Bool(true)
            <==> exists i | 0 <= i < |items| :: Eval(store, items[i], row) == Bool(true)
    ensures Eval(store, Or(items), row) == Bool(false)
            <==> forall i | 0 <= i < |items| :: Eval(store, items[i], row) == Bool(false)
  {
    var truths := Truths(EvalEach(store, items, row));
    assert Eval(store, And(items), row) == FromTruth(Filters.AllOf(truths));
    assert Eval(store, Or(items), row) == FromTruth(Filters.AnyOf(truths));
    hide Eval;
    TruthsAt(store, items, row);
    Filters.AllOfTrue(truths);
    Filters.AnyOfFalse(truths);
    forall i | 0 <= i < |items|
      ensures truths[i] == Some(true) <==> Eval(store, items[i], row) == Bool(true)
      ensures truths[i] == Some(false) <==> Eval(store, items[i], row) == Bool(false)
    {}
    assert Filters.AllOf(truths) == Some(false) <==> exists i | 0 <= i < |truths| :: truths[i] == Some(false);
    assert Filters.AnyOf(truths) == Some(true) <==> exists i | 0 <= i < |truths| :: truths[i] == Some(true);
    TruthIsBool(Eval(store, And(items), row), Filters.AllOf(truths));
    TruthIsBool(Eval(store, Or(items), row), Filters.AnyOf(truths));
  }

  lemma TruthIsBool(v: Value, t: Option<bool>)
    requires v == FromTruth(t)
    ensures v == Bool(true) <==> t == Some(true)
    ensures v == Bool(false) <==> t == Some(false)
  {}
}
