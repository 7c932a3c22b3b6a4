/**
 Filters and their three-valued evaluation, and the smart constructors that simplify them.
 */
module Filters {
  import opened Wrappers
  import opened Values
  import opened Resources
  import Like

  datatype Filter =
    | True
    | False
    | Eq(field: string, value: Value)
    | Ne(field: string, value: Value)
    | Gt(field: string, value: Value)
    | Gte(field: string, value: Value)
    | Lt(field: string, value: Value)
    | Lte(field: string, value: Value)
    | In(field: string, values: seq<Value>)
    | IsNil(field: string)
    | Contains(field: string, needle: string)
    | StartsWith(field: string, needle: string)
    | EndsWith(field: string, needle: string)
    | LikePattern(field: string, needle: string)
    | ILike(field: string, needle: string)
    | Has(field: string, value: Value)
    | And(parts: seq<Filter>)
    | Or(parts: seq<Filter>)
    | Not(inner: Filter)
    | RelatedTo(relationship: string, filter: Filter)
  {
    predicate Leaf() {
      !True? && !False? && !And? && !Or? && !Not? && !RelatedTo?
    }
  }

  /** SQL's three-valued result, with `None` for unknown. */
  type Truth = Option<bool>

  /** What the platform supplies: rounding integers to floats, and lower-casing text. */
  datatype Platform = Platform(asFloat: int -> int, lower: string -> string)

  /** Where a filter is evaluated: the resource its fields belong to, when it is known. */
  datatype Setting = Setting(platform: Platform, schema: Schema, resource: Option<Resource>) {
    /** The setting of the records a relationship leads to. */
    function Across(relationship: string): Setting {
      this.(resource := Related(schema, resource, relationship))
    }

    predicate IgnoresCase(field: string) {
      resource.Some? && field in resource.value.ciFields
    }
  }

  // ---------- three-valued connectives

  /** SQL `AND`: false wins, then unknown. */
  function AllOf(results: seq<Truth>): Truth {
    if Some(false) in results then Some(false) else if None in results then None else Some(true)
  }

  /** SQL `OR`: true wins, then unknown. */
  function AnyOf(results: seq<Truth>): Truth {
    if Some(true) in results then Some(true) else if None in results then None else Some(false)
  }

  function Negate(t: Truth): Truth {
    match t
    case None => None
    case Some(b) => Some(!b)
  }

  method ComputeAllOf(results: seq<Truth>) returns (r: Truth)
    ensures r == AllOf(results)
  {
    var unknown := false;
    for i := 0 to |results|
      invariant Some(false) !in results[..i]
      invariant unknown <==> None in results[..i]
    {
      assert results[..i + 1] == results[..i] + [results[i]];
      match results[i] {
        case Some(false) => return Some(false);
        case None => unknown := true;
        case Some(true) =>
      }
    }
    assert results[..|results|] == results;
    return if unknown then None else Some(true);
  }

  method ComputeAnyOf(results: seq<Truth>) returns (r: Truth)
    ensures r == AnyOf(results)
  {
    var unknown := false;
    for i := 0 to |results|
      invariant Some(true) !in results[..i]
      invariant unknown <==> None in results[..i]
    {
      assert results[..i + 1] == results[..i] + [results[i]];
      match results[i] {
        case Some(true) => return Some(true);
        case None => unknown := true;
        case Some(false) =>
      }
    }
    assert results[..|results|] == results;
    return if unknown then None else Some(false);
  }

  lemma TruthCases(t: Truth)
    ensures t == None || t == Some(true) || t == Some(false)
  {
    match t
    case None =>
    case Some(b) =>
      if b {} else {}
  }

  lemma AllOfBoth(a: seq<Truth>, b: seq<Truth>)
    ensures AllOf(a + b) == Some(true) <==> AllOf(a) == Some(true) && AllOf(b) == Some(true)
    ensures AllOf(a + b) == Some(false) <==> AllOf(a) == Some(false) || AllOf(b) == Some(false)
  {
    assert forall t :: t in a + b <==> t in a || t in b;
  }

  lemma AllOfTrue(results: seq<Truth>)
    ensures AllOf(results) == Some(true) <==> forall i | 0 <= i < |results| :: results[i] == Some(true)
  {
    if AllOf(results) == Some(true) {
      forall i | 0 <= i < |results| ensures results[i] == Some(true) {
        TruthCases(results[i]);
      }
    }
  }

  lemma AnyOfFalse(results: seq<Truth>)
    ensures AnyOf(results) == Some(false) <==> forall i | 0 <= i < |results| :: results[i] == Some(false)
  {
    if AnyOf(results) == Some(false) {
      forall i | 0 <= i < |results| ensures results[i] == Some(false) {
        TruthCases(results[i]);
      }
    }
  }

  // ---------- evaluation

  /** The field's value, unless it is missing or null. */
  function Present(record: Record, field: string): Option<Value> {
    if field in record && record[field] != Null then Some(record[field]) else None
  }

  /** SQL `IN`: unknown when nothing matched but the list holds a null. */
  function InList(got: Value, values: seq<Value>): Truth {
    if got in values && got != Null then Some(true) else if Null in values then None else Some(false)
  }

  ghost function TextTest(p: Platform, leaf: Filter, text: string, needle: string): bool {
    match leaf
    case Contains(_, _) => Like.Contains(text, needle)
    case StartsWith(_, _) => needle <= text
    case EndsWith(_, _) => Like.EndsWith(text, needle)
    case _ => Like.Matches(text, Like.Tokens(needle))
  }

  ghost function TextMatches(p: Platform, leaf: Filter, got: Value, needle: string, ignoreCase: bool): bool {
    got.Text? && if ignoreCase then TextTest(p, leaf, p.lower(got.text), p.lower(needle))
                 else TextTest(p, leaf, got.text, needle)
  }

  /** A comparison against null is unknown. */
  ghost function Comparison(p: Platform, got: Value, value: Value, direction: Ordering, equalOk: bool): Truth {
    if value == Null then None
    else match Compare(p.asFloat, got, value)
         case Equal => Some(equalOk)
         case order => Some(order == direction)
  }

  /** A leaf decides from its field's value alone: here with the field missing or null. */
  function LeafOnMissing(leaf: Filter): Truth
    requires leaf.Leaf()
  {
    match leaf
    case Eq(_, Null) => Some(true)
    case Ne(_, Null) => Some(false)
    case In(_, values) => if values == [] then Some(false) else None
    case IsNil(_) => Some(true)
    case _ => None
  }

  /** And here with the value `got`. */
  ghost function LeafOn(p: Platform, leaf: Filter, got: Value, ci: bool): Truth
    requires leaf.Leaf()
  {
    match leaf
    case Eq(_, value) => Some(got == value)
    case Ne(_, value) => Some(got != value)
    case Gt(_, value) => Comparison(p, got, value, Greater, false)
    case Gte(_, value) => Comparison(p, got, value, Greater, true)
    case Lt(_, value) => Comparison(p, got, value, Less, false)
    case Lte(_, value) => Comparison(p, got, value, Less, true)
    case In(_, values) => InList(got, values)
    case IsNil(_) => Some(false)
    case Has(_, value) => Some(got.Array? && value in got.items)
    case ILike(_, needle) => Some(TextMatches(p, leaf, got, needle, true))
    case Contains(_, needle) => Some(TextMatches(p, leaf, got, needle, ci))
    case StartsWith(_, needle) => Some(TextMatches(p, leaf, got, needle, ci))
    case EndsWith(_, needle) => Some(TextMatches(p, leaf, got, needle, ci))
    case LikePattern(_, needle) => Some(TextMatches(p, leaf, got, needle, ci))
  }

  ghost function EvalLeaf(w: Setting, leaf: Filter, record: Record): Truth
    requires leaf.Leaf()
  {
    match Present(record, leaf.field)
    case None => LeafOnMissing(leaf)
    case Some(got) => LeafOn(w.platform, leaf, got, w.IgnoresCase(leaf.field))
  }

  ghost function Eval(w: Setting, f: Filter, record: Record): Truth
    decreases f, 1
  {
    match f
    case True => Some(true)
    case False => Some(false)
    case And(parts) => AllOf(EvalEach(w, parts, record))
    case Or(parts) => AnyOf(EvalEach(w, parts, record))
    case Not(inner) => Negate(Eval(w, inner, record))
    case RelatedTo(relationship, filter) => Some(EvalRelated(w, relationship, filter, record))
    case _ => EvalLeaf(w, f, record)
  }

  ghost function EvalEach(w: Setting, parts: seq<Filter>, record: Record): (results: seq<Truth>)
    ensures |results| == |parts|
    decreases parts, 0
  {
    if parts == [] then []
    else [Eval(w, parts[0], record)] + EvalEach(w, parts[1..], record)
  }

  /** A loaded related record, or any of several, matches; a relationship not loaded passes. */
  ghost predicate EvalRelated(w: Setting, relationship: string, filter: Filter, record: Record)
    decreases filter, 2
  {
    var destination := w.Across(relationship);
    if relationship !in record then true
    else match record[relationship]
         case Map(m) => Eval(destination, filter, m) == Some(true)
         case Array(items) =>
           exists i :: 0 <= i < |items| && items[i].Map? && Eval(destination, filter, items[i].fields) == Some(true)
         case _ => true
  }

  // ---------- the constructors that simplify

  /** What one part adds to a conjunction: `True` nothing, a nested conjunction its parts. */
  function AndPart(part: Filter): seq<Filter> {
    match part
    case True => []
    case And(nested) => nested
    case other => [other]
  }

  function AndParts(parts: seq<Filter>): seq<Filter> {
    if parts == [] then [] else AndPart(parts[0]) + AndParts(parts[1..])
  }

  function OrPart(part: Filter): seq<Filter> {
    match part
    case False => []
    case Or(nested) => nested
    case other => [other]
  }

  function OrParts(parts: seq<Filter>): seq<Filter> {
    if parts == [] then [] else OrPart(parts[0]) + OrParts(parts[1..])
  }

  function AndOf(parts: seq<Filter>): Filter {
    if False in parts then False else Conjunction(AndParts(parts))
  }

  function Conjunction(parts: seq<Filter>): Filter {
    if |parts| == 0 then True else if |parts| == 1 then parts[0] else And(parts)
  }

  function OrOf(parts: seq<Filter>): Filter {
    if True in parts then True else Disjunction(OrParts(parts))
  }

  function Disjunction(parts: seq<Filter>): Filter {
    if |parts| == 0 then False else if |parts| == 1 then parts[0] else Or(parts)
  }

  function NotOf(f: Filter): Filter {
    match f
    case True => False
    case False => True
    case other => Not(other)
  }

  lemma {:induction false} AndPartsConcat(a: seq<Filter>, b: seq<Filter>)
    ensures AndParts(a + b) == AndParts(a) + AndParts(b)
  {
    if a == [] {
      assert a + b == b;
    } else {
      assert (a + b)[1..] == a[1..] + b;
      AndPartsConcat(a[1..], b);
    }
  }

  lemma {:induction false} OrPartsConcat(a: seq<Filter>, b: seq<Filter>)
    ensures OrParts(a + b) == OrParts(a) + OrParts(b)
  {
    if a == [] {
      assert a + b == b;
    } else {
      assert (a + b)[1..] == a[1..] + b;
      OrPartsConcat(a[1..], b);
    }
  }

  method BuildAnd(parts: seq<Filter>) returns (f: Filter)
    ensures f == AndOf(parts)
  {
    var out := [];
    for i := 0 to |parts|
      invariant False !in parts[..i]
      invariant out == AndParts(parts[..i])
    {
      assert parts[..i + 1] == parts[..i] + [parts[i]];
      AndPartsConcat(parts[..i], [parts[i]]);
      match parts[i] {
        case True =>
        case False => return False;
        case And(nested) => out := out + nested;
        case other => out := out + [other];
      }
    }
    assert parts[..|parts|] == parts;
    return if |out| == 0 then True else if |out| == 1 then out[0] else And(out);
  }

  method BuildOr(parts: seq<Filter>) returns (f: Filter)
    ensures f == OrOf(parts)
  {
    var out := [];
    for i := 0 to |parts|
      invariant True !in parts[..i]
      invariant out == OrParts(parts[..i])
    {
      assert parts[..i + 1] == parts[..i] + [parts[i]];
      OrPartsConcat(parts[..i], [parts[i]]);
      match parts[i] {
        case False =>
        case True => return True;
        case Or(nested) => out := out + nested;
        case other => out := out + [other];
      }
    }
    assert parts[..|parts|] == parts;
    return if |out| == 0 then False else if |out| == 1 then out[0] else Or(out);
  }

  // ---------- simplifying preserves meaning, unknown included

  lemma {:induction false} EvalEachAt(w: Setting, parts: seq<Filter>, record: Record, i: nat)
    requires i < |parts|
    ensures EvalEach(w, parts, record)[i] == Eval(w, parts[i], record)
  {
    if i > 0 {
      EvalEachAt(w, parts[1..], record, i - 1);
    }
  }

  lemma EvalPair(w: Setting, a: Filter, b: Filter, record: Record)
    ensures EvalEach(w, [a, b], record) == [Eval(w, a, record), Eval(w, b, record)]
  {
    assert [a, b][1..] == [b];
    assert EvalEach(w, [b], record) == [Eval(w, b, record)];
  }

  lemma {:induction false} EvalEachConcat(w: Setting, a: seq<Filter>, b: seq<Filter>, record: Record)
    ensures EvalEach(w, a + b, record)
            == EvalEach(w, a, record) + EvalEach(w, b, record)
  {
    if a == [] {
      assert a + b == b;
    } else {
      assert (a + b)[1..] == a[1..] + b;
      EvalEachConcat(w, a[1..], b, record);
    }
  }

  lemma AllOfConcat(a: seq<Truth>, b: seq<Truth>)
    ensures AllOf(a + b) == AllOf([AllOf(a)] + b)
  {
    assert forall t :: t in a + b <==> t in a || t in b;
    assert forall t :: t in [AllOf(a)] + b <==> t == AllOf(a) || t in b;
  }

  lemma AnyOfConcat(a: seq<Truth>, b: seq<Truth>)
    ensures AnyOf(a + b) == AnyOf([AnyOf(a)] + b)
  {
    assert forall t :: t in a + b <==> t in a || t in b;
    assert forall t :: t in [AnyOf(a)] + b <==> t == AnyOf(a) || t in b;
  }

  lemma AllOfTail(t: Truth, a: seq<Truth>, b: seq<Truth>)
    requires AllOf(a) == AllOf(b)
    ensures AllOf([t] + a) == AllOf([t] + b)
  {
    assert forall c :: Some(c) in [t] + a <==> Some(c) == t || Some(c) in a;
    assert None in [t] + a <==> None == t || None in a;
    assert forall c :: Some(c) in [t] + b <==> Some(c) == t || Some(c) in b;
    assert None in [t] + b <==> None == t || None in b;
  }

  lemma AnyOfTail(t: Truth, a: seq<Truth>, b: seq<Truth>)
    requires AnyOf(a) == AnyOf(b)
    ensures AnyOf([t] + a) == AnyOf([t] + b)
  {
    assert forall c :: Some(c) in [t] + a <==> Some(c) == t || Some(c) in a;
    assert None in [t] + a <==> None == t || None in a;
    assert forall c :: Some(c) in [t] + b <==> Some(c) == t || Some(c) in b;
    assert None in [t] + b <==> None == t || None in b;
  }

  lemma AndPartMeaning(w: Setting, part: Filter, record: Record)
    ensures AllOf(EvalEach(w, AndPart(part), record)) == Eval(w, part, record)
  {
    assert EvalEach(w, [part], record) == [Eval(w, part, record)];
  }

  lemma {:induction false} AndPartsMeaning(w: Setting, parts: seq<Filter>, record: Record)
    ensures AllOf(EvalEach(w, AndParts(parts), record)) == AllOf(EvalEach(w, parts, record))
  {
    if parts != [] {
      var tail, head := AndParts(parts[1..]), AndPart(parts[0]);
      AndPartsMeaning(w, parts[1..], record);
      EvalEachConcat(w, head, tail, record);
      var heads := EvalEach(w, head, record);
      AndPartMeaning(w, parts[0], record);
      AllOfConcat(heads, EvalEach(w, tail, record));
      AllOfTail(AllOf(heads), EvalEach(w, tail, record), EvalEach(w, parts[1..], record));
    }
  }

  lemma OrPartMeaning(w: Setting, part: Filter, record: Record)
    ensures AnyOf(EvalEach(w, OrPart(part), record)) == Eval(w, part, record)
  {
    assert EvalEach(w, [part], record) == [Eval(w, part, record)];
  }

  lemma {:induction false} OrPartsMeaning(w: Setting, parts: seq<Filter>, record: Record)
    ensures AnyOf(EvalEach(w, OrParts(parts), record)) == AnyOf(EvalEach(w, parts, record))
  {
    if parts != [] {
      var tail, head := OrParts(parts[1..]), OrPart(parts[0]);
      OrPartsMeaning(w, parts[1..], record);
      EvalEachConcat(w, head, tail, record);
      var heads := EvalEach(w, head, record);
      OrPartMeaning(w, parts[0], record);
      AnyOfConcat(heads, EvalEach(w, tail, record));
      AnyOfTail(AnyOf(heads), EvalEach(w, tail, record), EvalEach(w, parts[1..], record));
    }
  }

  /** `and` means `AND`, `or` means `OR` and `!` means `NOT` of the parts as given, with the same
      unknowns. */
  lemma ConstructorsKeepMeaning(w: Setting, parts: seq<Filter>, f: Filter, record: Record)
    ensures Eval(w, AndOf(parts), record) == AllOf(EvalEach(w, parts, record))
    ensures Eval(w, OrOf(parts), record) == AnyOf(EvalEach(w, parts, record))
    ensures Eval(w, NotOf(f), record) == Negate(Eval(w, f, record))
  {
    AndMeaning(w, parts, record);
    OrMeaning(w, parts, record);
    NotMeaning(w, f, record);
  }

  lemma NotMeaning(w: Setting, f: Filter, record: Record)
    ensures Eval(w, NotOf(f), record) == Negate(Eval(w, f, record))
  {
    if f != True && f != False {
      assert NotOf(f) == Not(f);
    }
  }

  lemma ConjunctionMeaning(w: Setting, parts: seq<Filter>, record: Record)
    ensures Eval(w, Conjunction(parts), record) == AllOf(EvalEach(w, parts, record))
  {
    if |parts| == 1 {
      assert EvalEach(w, parts, record) == [Eval(w, parts[0], record)];
    }
  }

  lemma AndMeaning(w: Setting, parts: seq<Filter>, record: Record)
    ensures Eval(w, AndOf(parts), record) == AllOf(EvalEach(w, parts, record))
  {
    if False in parts {
      var i :| 0 <= i < |parts| && parts[i] == False;
      EvalEachAt(w, parts, record, i);
      assert EvalEach(w, parts, record)[i] == Some(false);
    } else {
      AndPartsMeaning(w, parts, record);
      ConjunctionMeaning(w, AndParts(parts), record);
    }
  }

  lemma DisjunctionMeaning(w: Setting, parts: seq<Filter>, record: Record)
    ensures Eval(w, Disjunction(parts), record) == AnyOf(EvalEach(w, parts, record))
  {
    if |parts| == 1 {
      assert EvalEach(w, parts, record) == [Eval(w, parts[0], record)];
    }
  }

  lemma OrMeaning(w: Setting, parts: seq<Filter>, record: Record)
    ensures Eval(w, OrOf(parts), record) == AnyOf(EvalEach(w, parts, record))
  {
    if True in parts {
      var i :| 0 <= i < |parts| && parts[i] == True;
      EvalEachAt(w, parts, record, i);
      assert EvalEach(w, parts, record)[i] == Some(true);
    } else {
      OrPartsMeaning(w, parts, record);
      DisjunctionMeaning(w, OrParts(parts), record);
    }
  }

  /** A pattern whose test is a text test makes the same filter. */
  lemma SameTextTest(w: Setting, pattern: string, leaf: Filter, record: Record)
    requires leaf.Contains? || leaf.StartsWith? || leaf.EndsWith?
    requires !w.IgnoresCase(leaf.field)
    requires Present(record, leaf.field).Some? && record[leaf.field].Text? ==>
               (Like.Matches(record[leaf.field].text, Like.Tokens(pattern))
                <==> TextTest(w.platform, leaf, record[leaf.field].text, leaf.needle))
    ensures Eval(w, LikePattern(leaf.field, pattern), record) == Eval(w, leaf, record)
  {}

  /** Where case matters, the `LIKE` patterns a plain needle makes are the text filters. */
  lemma LikeFiltersAreTextFilters(w: Setting, field: string, needle: string, record: Record)
    requires Like.Plain(needle) && !w.IgnoresCase(field)
    ensures Eval(w, LikePattern(field, needle + "%"), record) == Eval(w, StartsWith(field, needle), record)
    ensures Eval(w, LikePattern(field, "%" + needle), record) == Eval(w, EndsWith(field, needle), record)
    ensures Eval(w, LikePattern(field, "%" + needle + "%"), record) == Eval(w, Contains(field, needle), record)
  {
    hide Eval, Like.Matches, Like.Tokens;
    var text := if Present(record, field).Some? && record[field].Text? then record[field].text else "";
    Like.PrefixPattern(text, needle);
    SameTextTest(w, needle + "%", StartsWith(field, needle), record);
    Like.SuffixPattern(text, needle);
    SameTextTest(w, "%" + needle, EndsWith(field, needle), record);
    Like.ContainsPattern(text, needle);
    SameTextTest(w, "%" + needle + "%", Contains(field, needle), record);
  }

  // ---------- what leaves ask

  /** Of an integer field, comparisons with an integer are those of the integers. */
  lemma {:induction false} ComparisonsOfIntegers(w: Setting, field: string, n: int, record: Record)
    requires Get(record, field).Int?
    ensures var x := Get(record, field).n;
            && Eval(w, Gt(field, Int(n)), record) == Some(x > n)
            && Eval(w, Gte(field, Int(n)), record) == Some(x >= n)
            && Eval(w, Lt(field, Int(n)), record) == Some(x < n)
            && Eval(w, Lte(field, Int(n)), record) == Some(x <= n)
            && Eval(w, Eq(field, Int(n)), record) == Some(x == n)
            && Eval(w, Ne(field, Int(n)), record) == Some(x != n)
  {
    assert Present(record, field) == Some(record[field]);
  }

  /** Of any field and value, `Lte` is the negation of `Gt`, `Gte` of `Lt` and, unless the value is null,
      `Ne` of `Eq`; and of a present field and a value, exactly one of `Lt`, `Gt` and `Eq` is true. */
  lemma {:induction false} ComparisonsAreOpposites(w: Setting, field: string, value: Value, record: Record)
    ensures Eval(w, Lte(field, value), record) == Negate(Eval(w, Gt(field, value), record))
    ensures Eval(w, Gte(field, value), record) == Negate(Eval(w, Lt(field, value), record))
    ensures Eval(w, Ne(field, value), record) == Negate(Eval(w, Eq(field, value), record))
    ensures Eval(w, Lt(field, value), record) == None <==> value == Null || Get(record, field) == Null
    ensures Eval(w, Eq(field, value), record) == None <==> value != Null && Get(record, field) == Null
    ensures value != Null && Get(record, field) != Null ==>
              var less, greater, equal := Eval(w, Lt(field, value), record) == Some(true),
                                          Eval(w, Gt(field, value), record) == Some(true),
                                          Eval(w, Eq(field, value), record) == Some(true);
              && (less || greater || equal)
              && !(less && greater) && !(less && equal) && !(greater && equal)
  {
    hide Compare;
    if value != Null && Get(record, field) != Null {
      CompareEqual(w.platform.asFloat, record[field], value);
    }
  }

  /** The text filters, `ILike` read as the pattern it ignores the case of. */
  predicate AsksOfText(leaf: Filter) {
    leaf.Contains? || leaf.StartsWith? || leaf.EndsWith? || leaf.LikePattern? || leaf.ILike?
  }

  /** Case is ignored by `ILike`, and by every text filter on a field that ignores it: such a filter asks of the
      lowered text what a filter that minds case asks by the lowered needle. */
  lemma {:induction false} CaseIsIgnored(w: Setting, leaf: Filter, text: string, record: Record)
    requires AsksOfText(leaf) && Get(record, leaf.field) == Text(text)
    requires leaf.ILike? || w.IgnoresCase(leaf.field)
    ensures var lowered := record[leaf.field := Text(w.platform.lower(text))];
            var needle := w.platform.lower(leaf.needle);
            var minding := match leaf
                           case Contains(field, _) => Contains(field, needle)
                           case StartsWith(field, _) => StartsWith(field, needle)
                           case EndsWith(field, _) => EndsWith(field, needle)
                           case _ => LikePattern(leaf.field, needle);
            Eval(w, leaf, record) == Eval(w.(resource := None), minding, lowered)
  {
    var lowered := record[leaf.field := Text(w.platform.lower(text))];
    assert Present(record, leaf.field) == Some(Text(text));
    assert Present(lowered, leaf.field) == Some(Text(w.platform.lower(text)));
  }

  /** Where case is minded, they are the tests of the text itself; no other value passes any. */
  lemma {:induction false} TextIsSearched(w: Setting, leaf: Filter, record: Record)
    requires AsksOfText(leaf) && Get(record, leaf.field) != Null
    ensures Get(record, leaf.field).Text? && !w.IgnoresCase(leaf.field) ==>
              var text, holds := Get(record, leaf.field).text, Eval(w, leaf, record) == Some(true);
              && (leaf.Contains? ==> (holds <==> exists a, b :: Splits(text, a, leaf.needle, b)))
              && (leaf.StartsWith? ==> (holds <==> exists b :: Splits(text, [], leaf.needle, b)))
              && (leaf.EndsWith? ==> (holds <==> exists a :: Splits(text, a, leaf.needle, [])))
    ensures !Get(record, leaf.field).Text? ==> Eval(w, leaf, record) == Some(false)
  {
    hide Splits;
    if Get(record, leaf.field).Text? {
      ContainsSplits(Get(record, leaf.field).text, leaf.needle);
      PrefixSplits(Get(record, leaf.field).text, leaf.needle);
      SuffixSplits(Get(record, leaf.field).text, leaf.needle);
    }
  }

  predicate Splits(text: string, before: string, needle: string, after: string) {
    text == before + needle + after
  }

  lemma ContainsSplits(text: string, needle: string)
    ensures Like.Contains(text, needle) <==> exists a, b :: Splits(text, a, needle, b)
  {
    if Like.Contains(text, needle) {
      var i :| 0 <= i <= |text| - |needle| && text[i..][..|needle|] == needle;
      assert Splits(text, text[..i], needle, text[i..][|needle|..]);
    }
    if a, b :| Splits(text, a, needle, b) {
      assert text[|a|..][..|needle|] == needle;
    }
  }

  lemma PrefixSplits(text: string, needle: string)
    ensures needle <= text <==> exists b :: Splits(text, [], needle, b)
  {
    if needle <= text {
      assert Splits(text, [], needle, text[|needle|..]);
    }
  }

  lemma SuffixSplits(text: string, needle: string)
    ensures Like.EndsWith(text, needle) <==> exists a :: Splits(text, a, needle, [])
  {
    if Like.EndsWith(text, needle) {
      assert Splits(text, text[..|text| - |needle|], needle, []);
    }
    if a :| Splits(text, a, needle, []) {
      assert text[|text| - |needle|..] == needle;
    }
  }

  /** The leaf that compares with one value of a list, unknown of a null one. */
  function EqualOrUnknown(field: string, value: Value): Filter {
    if value == Null then Gt(field, Null) else Eq(field, value)
  }

  function EqualToEach(field: string, values: seq<Value>): seq<Filter> {
    seq(|values|, i requires 0 <= i < |values| => EqualOrUnknown(field, values[i]))
  }

  /** `In` is true where the field is one of the values; and it is `Or` of its equalities, each unknown of
      null. */
  lemma {:induction false} InIsSomeEquality(w: Setting, field: string, values: seq<Value>, record: Record)
    ensures Eval(w, In(field, values), record) == Some(true)
            <==> Get(record, field) != Null && Get(record, field) in values
    ensures Eval(w, In(field, values), record) == Some(false)
            <==> values == [] || (Get(record, field) != Null && Null !in values && Get(record, field) !in values)
    ensures Eval(w, In(field, values), record) == Eval(w, Or(EqualToEach(field, values)), record)
  {
    var parts := EqualToEach(field, values);
    var results := EvalEach(w, parts, record);
    forall i | 0 <= i < |values|
      ensures results[i] == if values[i] == Null || Get(record, field) == Null then None
                            else Some(Get(record, field) == values[i])
    {
      EvalEachAt(w, parts, record, i);
    }
    if values == [] {
      assert results == [];
    } else {
      assert results[0] in results;
    }
    if Get(record, field) != Null && Get(record, field) in values {
      var i :| 0 <= i < |values| && values[i] == Get(record, field);
      assert results[i] == Some(true) && Some(true) in results;
    }
    if Null in values {
      var i :| 0 <= i < |values| && values[i] == Null;
      assert results[i] == None && None in results;
    }
  }

  /** Plain equalities, one of which holds of null where null is listed, say the same exactly where it is
      not listed or the field is another of the values. */
  lemma {:induction false} InIsPlainEqualityWithoutNull(w: Setting, field: string, values: seq<Value>, record: Record)
    ensures var plain := seq(|values|, i requires 0 <= i < |values| => Eq(field, values[i]));
            Eval(w, In(field, values), record) == Eval(w, Or(plain), record)
            <==> Null !in values || (Get(record, field) != Null && Get(record, field) in values)
  {
    var plain := seq(|values|, i requires 0 <= i < |values| => Eq(field, values[i]));
    var results := EvalEach(w, plain, record);
    InIsSomeEquality(w, field, values, record);
    forall i | 0 <= i < |values|
      ensures results[i] == if Get(record, field) == Null then (if values[i] == Null then Some(true) else None)
                            else Some(Get(record, field) == values[i])
    {
      EvalEachAt(w, plain, record, i);
    }
    if values != [] {
      assert results[0] in results;
    }
    if Get(record, field) != Null && Get(record, field) in values {
      var i :| 0 <= i < |values| && values[i] == Get(record, field);
      assert results[i] == Some(true) && Some(true) in results;
    }
    if Null in values {
      var i :| 0 <= i < |values| && values[i] == Null;
      assert results[i] in results;
    }
  }

  /** `Has` is true of an array that holds the value, false of any other value, unknown of null. */
  lemma {:induction false} HasFindsAnItem(w: Setting, field: string, value: Value, record: Record)
    ensures Eval(w, Has(field, value), record) == None <==> Get(record, field) == Null
    ensures Eval(w, Has(field, value), record) == Some(true)
            <==> Get(record, field).Array?
                 && exists i | 0 <= i < |Get(record, field).items| :: Get(record, field).items[i] == value
  {}
}
