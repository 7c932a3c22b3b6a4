/**
 Field policies: redacting a record, and rewriting a client's filter so that a field hidden
 from the client reads as null.
 */
module Guards {
  import opened Wrappers
  import opened Values
  import opened Resources
  import opened Filters
  import opened Policies
  import opened PolicyRefinement

  // ---------- redaction

  /** A field is hidden when some policy on it does not allow the actor. */
  ghost predicate IsHidden(holds: Decision, policies: seq<FieldPolicy>, field: string) {
    exists i :: 0 <= i < |policies| && policies[i].field == field && !Allows(holds, policies[i].checks)
  }

  method HiddenFields(holds: Decision, policies: seq<FieldPolicy>) returns (hidden: seq<string>)
    ensures forall field :: field in hidden <==> IsHidden(holds, policies, field)
  {
    hidden := [];
    for i := 0 to |policies|
      invariant forall field :: field in hidden <==> IsHidden(holds, policies[..i], field)
    {
      var allowed := DecideEffects(holds, policies[i].checks);
      ghost var before := hidden;
      if !allowed {
        hidden := hidden + [policies[i].field];
      }
      forall field ensures IsHidden(holds, policies[..i + 1], field)
                           <==> IsHidden(holds, policies[..i], field) || (policies[i].field == field && !allowed) {
        HiddenByOneMore(holds, policies, i, field);
      }
    }
    assert policies[..|policies|] == policies;
  }

  lemma HiddenByOneMore(holds: Decision, policies: seq<FieldPolicy>, i: nat, field: string)
    requires i < |policies|
    ensures IsHidden(holds, policies[..i + 1], field)
            <==> IsHidden(holds, policies[..i], field)
                 || (policies[i].field == field && !Allows(holds, policies[i].checks))
  {
    var shorter, longer := policies[..i], policies[..i + 1];
    assert longer[i] == policies[i];
    if IsHidden(holds, shorter, field) {
      var j :| 0 <= j < |shorter| && shorter[j].field == field && !Allows(holds, shorter[j].checks);
      assert longer[j] == shorter[j];
    }
    if IsHidden(holds, longer, field) {
      var j :| 0 <= j < |longer| && longer[j].field == field && !Allows(holds, longer[j].checks);
      assert j == i || shorter[j] == longer[j];
    }
  }

  /** The record with its hidden fields null, every policy having checked it as it was read. */
  ghost predicate IsRedacted(holds: Decision, policies: seq<FieldPolicy>, record: Record, redacted: Record) {
    forall field ::
      if IsHidden(holds, policies, field) then field in redacted && redacted[field] == Null
      else (field in redacted <==> field in record) && (field in record ==> redacted[field] == record[field])
  }

  method RedactFields(holds: Decision, policies: seq<FieldPolicy>, record: Record) returns (redacted: Record)
    ensures IsRedacted(holds, policies, record, redacted)
  {
    var hidden := HiddenFields(holds, policies);
    redacted := record;
    for i := 0 to |hidden|
      invariant forall field ::
        if field in hidden[..i] then field in redacted && redacted[field] == Null
        else (field in redacted <==> field in record) && (field in record ==> redacted[field] == record[field])
    {
      assert hidden[..i + 1] == hidden[..i] + [hidden[i]];
      redacted := redacted[hidden[i] := Null];
    }
    assert hidden[..|hidden|] == hidden;
  }

  // ---------- the rewrite

  function FieldFilters(policies: seq<FieldPolicy>, field: string, actor: Option<Actor>): seq<Filter> {
    if policies == [] then []
    else (if policies[0].field == field then [EffectsToFilter(policies[0].checks, actor)] else [])
         + FieldFilters(policies[1..], field, actor)
  }

  /** Where the actor may read `field`: `None` where nothing hides it. The primary key is never
      guarded. */
  function FieldCondition(resource: Resource, field: string, actor: Option<Actor>): Option<Filter> {
    if resource.primaryKey == Some(field) then None
    else match AndOf(FieldFilters(resource.fieldPolicies, field, actor))
         case True => None
         case condition => Some(condition)
  }

  function GuardLeaf(condition: Option<Filter>, leaf: Filter, positive: bool): Filter {
    match condition
    case None => leaf
    case Some(c) =>
      if leaf.IsNil? then OrOf([NotOf(c), leaf])
      else if positive then AndOf([c, leaf])
      else OrOf([NotOf(c), leaf])
  }

  /** The filter as the actor may run it. `positive` is whether it stands under an even number
      of negations. */
  function GuardFilter(schema: Schema, resource: Resource, actor: Option<Actor>, f: Filter, positive: bool): Filter
    decreases f, 1
  {
    match f
    case True => f
    case False => f
    case And(parts) => AndOf(GuardEach(schema, resource, actor, parts, positive))
    case Or(parts) => OrOf(GuardEach(schema, resource, actor, parts, positive))
    case Not(inner) => NotOf(GuardFilter(schema, resource, actor, inner, !positive))
    case RelatedTo(relationship, filter) =>
      (match Related(schema, Some(resource), relationship)
       case None => f
       case Some(destination) =>
         var inner := GuardFilter(schema, destination, actor, filter, positive);
         match ReadFilter(destination, destination.defaultRead, actor)
         case Ok(None) => RelatedTo(relationship, inner)
         case Ok(Some(policy)) => RelatedTo(relationship, AndOf([inner, policy]))
         case Err(_) => RelatedTo(relationship, False))
    case _ => GuardLeaf(FieldCondition(resource, f.field, actor), f, positive)
  }

  function GuardEach(schema: Schema, resource: Resource, actor: Option<Actor>, parts: seq<Filter>, positive: bool)
    : (guarded: seq<Filter>)
    ensures |guarded| == |parts|
    decreases parts, 0
  {
    if parts == [] then []
    else [GuardFilter(schema, resource, actor, parts[0], positive)]
         + GuardEach(schema, resource, actor, parts[1..], positive)
  }

  // ---------- what a field condition says of a record

  ghost function ConditionTruth(w: Setting, resource: Resource, field: string, actor: Option<Actor>, record: Record)
    : Truth {
    match FieldCondition(resource, field, actor)
    case None => Some(true)
    case Some(c) => Eval(w, c, record)
  }

  lemma {:induction false} FieldFiltersDecide(w: Setting, policies: seq<FieldPolicy>, field: string,
                                              actor: Option<Actor>, record: Record)
    ensures var truth := AllOf(EvalEach(w, FieldFilters(policies, field, actor), record));
            && (truth == Some(true) ==> !IsHidden(DecidingOn(w, actor, record), policies, field))
            && (truth == Some(false) ==> IsHidden(DecidingOn(w, actor, record), policies, field))
  {
    if policies != [] {
      var holds := DecidingOn(w, actor, record);
      var rest := policies[1..];
      FieldFiltersDecide(w, rest, field, actor, record);
      EffectsFilterRefinesDecision(w, policies[0].checks, actor, record);
      var tail := FieldFilters(rest, field, actor);
      if policies[0].field == field {
        var first := EffectsToFilter(policies[0].checks, actor);
        EvalEachConcat(w, [first], tail, record);
        assert EvalEach(w, [first], record) == [Eval(w, first, record)];
        AllOfBoth([Eval(w, first, record)], EvalEach(w, tail, record));
        TruthCases(Eval(w, first, record));
      } else {
        assert FieldFilters(policies, field, actor) == tail;
      }
      HiddenByFirst(holds, policies, field);
    }
  }

  lemma HiddenByFirst(holds: Decision, policies: seq<FieldPolicy>, field: string)
    requires policies != []
    ensures IsHidden(holds, policies, field)
            <==> (policies[0].field == field && !Allows(holds, policies[0].checks))
                 || IsHidden(holds, policies[1..], field)
  {
    var rest := policies[1..];
    if IsHidden(holds, policies, field) {
      var i :| 0 <= i < |policies| && policies[i].field == field && !Allows(holds, policies[i].checks);
      assert i == 0 || policies[i] == rest[i - 1];
    }
    if IsHidden(holds, rest, field) {
      var i :| 0 <= i < |rest| && rest[i].field == field && !Allows(holds, rest[i].checks);
      assert policies[i + 1] == rest[i];
    }
  }

  ghost predicate Hidden(w: Setting, resource: Resource, actor: Option<Actor>, record: Record, field: string) {
    IsHidden(DecidingOn(w, actor, record), resource.fieldPolicies, field)
  }

  /** The client does not see the field; its primary key it always sees. */
  ghost predicate Unseen(w: Setting, resource: Resource, actor: Option<Actor>, record: Record, field: string) {
    resource.primaryKey != Some(field) && Hidden(w, resource, actor, record, field)
  }

  lemma ConditionDecides(w: Setting, resource: Resource, field: string, actor: Option<Actor>, record: Record)
    ensures ConditionTruth(w, resource, field, actor, record) == Some(true)
            ==> !Unseen(w, resource, actor, record, field)
    ensures ConditionTruth(w, resource, field, actor, record) == Some(false)
            ==> Unseen(w, resource, actor, record, field)
  {
    var filters := FieldFilters(resource.fieldPolicies, field, actor);
    FieldFiltersDecide(w, resource.fieldPolicies, field, actor, record);
    AndMeaning(w, filters, record);
  }

  /** No field policy hides the primary key, which the rewrite never guards. */
  ghost predicate KeyShown(w: Setting, resource: Resource, actor: Option<Actor>, record: Record) {
    resource.primaryKey.Some? ==> !Hidden(w, resource, actor, record, resource.primaryKey.value)
  }

  lemma UnseenIsHidden(w: Setting, resource: Resource, actor: Option<Actor>, record: Record, field: string)
    requires KeyShown(w, resource, actor, record)
    ensures Unseen(w, resource, actor, record, field) <==> Hidden(w, resource, actor, record, field)
  {}

  // ---------- a filter as the client sees the record

  /** The client may read the record at all. */
  ghost predicate Readable(w: Setting, resource: Resource, actor: Option<Actor>, record: Record) {
    ReadTruth(w, ReadFilter(resource, resource.defaultRead, actor), record) == Some(true)
  }

  ghost predicate IsRelated(record: Record, relationship: string, related: Record) {
    && relationship in record
    && match record[relationship]
       case Map(m) => m == related
       case Array(items) => Map(related) in items
       case _ => false
  }

  /** Nothing is loaded that a filter across the relationship could test. */
  predicate NotLoaded(record: Record, relationship: string) {
    relationship !in record || (!record[relationship].Map? && !record[relationship].Array?)
  }

  /** A leaf, with the field null where the client does not see it. */
  ghost function LeafAsSeen(w: Setting, resource: Resource, actor: Option<Actor>, leaf: Filter, record: Record): Truth
    requires leaf.Leaf()
  {
    if Unseen(w, resource, actor, record, leaf.field) then LeafOnMissing(leaf) else EvalLeaf(w, leaf, record)
  }

  /** The filter as it comes out for one who sees only what the client sees: fields hidden from it
      null, related records it may not read gone, and those it may read seen in the same way. */
  ghost function EvalAsSeen(w: Setting, resource: Resource, actor: Option<Actor>, f: Filter, record: Record): Truth
    decreases f, 1
  {
    match f
    case True => Some(true)
    case False => Some(false)
    case And(parts) => AllOf(EachAsSeen(w, resource, actor, parts, record))
    case Or(parts) => AnyOf(EachAsSeen(w, resource, actor, parts, record))
    case Not(inner) => Negate(EvalAsSeen(w, resource, actor, inner, record))
    case RelatedTo(relationship, filter) =>
      (match Related(w.schema, Some(resource), relationship)
       case None => Eval(w, f, record)
       case Some(destination) =>
         Some(|| NotLoaded(record, relationship)
              || exists related ::
                   && IsRelated(record, relationship, related)
                   && Readable(w.Across(relationship), destination, actor, related)
                   && EvalAsSeen(w.Across(relationship), destination, actor, filter, related) == Some(true)))
    case _ => LeafAsSeen(w, resource, actor, f, record)
  }

  ghost function EachAsSeen(w: Setting, resource: Resource, actor: Option<Actor>, parts: seq<Filter>, record: Record)
    : (results: seq<Truth>)
    ensures |results| == |parts|
    decreases parts, 0
  {
    if parts == [] then []
    else [EvalAsSeen(w, resource, actor, parts[0], record)] + EachAsSeen(w, resource, actor, parts[1..], record)
  }

  ghost predicate NoRelated(f: Filter)
  {
    match f
    case RelatedTo(_, _) => false
    case And(parts) => forall i | 0 <= i < |parts| :: NoRelated(parts[i])
    case Or(parts) => forall i | 0 <= i < |parts| :: NoRelated(parts[i])
    case Not(inner) => NoRelated(inner)
    case _ => true
  }

  ghost predicate RedactsTo(w: Setting, resource: Resource, actor: Option<Actor>, record: Record, redacted: Record) {
    IsRedacted(DecidingOn(w, actor, record), resource.fieldPolicies, record, redacted)
  }

  lemma {:induction false} LeafOnRedacted(w: Setting, resource: Resource, actor: Option<Actor>, leaf: Filter,
                                          record: Record, redacted: Record)
    requires leaf.Leaf() && KeyShown(w, resource, actor, record) && RedactsTo(w, resource, actor, record, redacted)
    ensures EvalLeaf(w, leaf, redacted) == LeafAsSeen(w, resource, actor, leaf, record)
  {
    UnseenIsHidden(w, resource, actor, record, leaf.field);
    assert if Hidden(w, resource, actor, record, leaf.field) then Present(redacted, leaf.field) == None
           else Present(redacted, leaf.field) == Present(record, leaf.field);
  }

  /** On one record alone, seeing it is reading it redacted. */
  lemma {:induction false} SeeingIsReadingRedacted(
    w: Setting, resource: Resource, actor: Option<Actor>, f: Filter, record: Record, redacted: Record)
    requires NoRelated(f) && KeyShown(w, resource, actor, record) && RedactsTo(w, resource, actor, record, redacted)
    ensures EvalAsSeen(w, resource, actor, f, record) == Eval(w, f, redacted)
    decreases f, 1
  {
    hide RedactsTo, KeyShown, LeafAsSeen, EvalLeaf;
    match f
    case True =>
    case False =>
    case And(parts) => SeeingEachIsReadingRedacted(w, resource, actor, parts, record, redacted);
    case Or(parts) => SeeingEachIsReadingRedacted(w, resource, actor, parts, record, redacted);
    case Not(inner) => SeeingIsReadingRedacted(w, resource, actor, inner, record, redacted);
    case _ => LeafOnRedacted(w, resource, actor, f, record, redacted);
  }

  lemma {:induction false} SeeingEachIsReadingRedacted(
    w: Setting, resource: Resource, actor: Option<Actor>, parts: seq<Filter>, record: Record, redacted: Record)
    requires (forall i | 0 <= i < |parts| :: NoRelated(parts[i]))
    requires KeyShown(w, resource, actor, record) && RedactsTo(w, resource, actor, record, redacted)
    ensures EachAsSeen(w, resource, actor, parts, record) == EvalEach(w, parts, redacted)
    decreases parts, 0
  {
    hide RedactsTo, KeyShown, EvalAsSeen, Eval;
    if parts != [] {
      SeeingIsReadingRedacted(w, resource, actor, parts[0], record, redacted);
      SeeingEachIsReadingRedacted(w, resource, actor, parts[1..], record, redacted);
    }
  }

  // ---------- what a rewrite claims

  /** What may be claimed of a filter rewritten for one side: if `sound`, that it comes out `value`
      only where the filter does as seen; otherwise, that it does so wherever the filter does. */
  datatype Claim = Claim(positive: bool, value: bool, sound: bool) {
    ghost predicate Holds(rewritten: Truth, seen: Truth) {
      if sound then rewritten == Some(value) ==> seen == Some(value)
      else seen == Some(value) ==> rewritten == Some(value)
    }

    /** What it comes to of the filter within a negation. */
    function Negated(): Claim {
      Claim(!positive, !value, sound)
    }

    /** What it comes to of the filter across a relationship, which is true or false of the record
        by which related records that filter is true of. */
    function Across(): Claim {
      Claim(positive, true, sound == value)
    }
  }

  /** A leaf the rewrite treats as null where its field is hidden: one that is unknown of null,
      or is `IsNil`; and of the others, one that null decides against the side it stands on. */
  predicate GuardableLeaf(leaf: Filter, positive: bool)
    requires leaf.Leaf()
  {
    leaf.IsNil? || LeafOnMissing(leaf) != Some(positive)
  }

  /** The claim holds of a leaf whose field is hidden by a decided condition: the rewritten leaf is
      then decided against its side, unless it is `IsNil`. */
  predicate HoldsWhereHidden(claim: Claim, leaf: Filter)
    requires leaf.Leaf()
  {
    || leaf.IsNil?
    || (claim.value == claim.positive && (claim.sound || GuardableLeaf(leaf, claim.positive)))
    || (claim.value != claim.positive && (claim.sound ==> LeafOnMissing(leaf) == Some(claim.value)))
  }

  /** The claim holds of a leaf whose field's condition is unknown. The rewritten leaf then comes out
      only against its side, and as it does of the record, or true where a field asked whether it is
      nil is. */
  ghost predicate HoldsWhereUnknown(w: Setting, resource: Resource, actor: Option<Actor>, claim: Claim, leaf: Filter,
                                    record: Record)
    requires leaf.Leaf()
  {
    var unseen := Unseen(w, resource, actor, record, leaf.field);
    var nil := Present(record, leaf.field).None?;
    var onNull := LeafOnMissing(leaf) == Some(claim.value);
    var onRecord := EvalLeaf(w, leaf, record) == Some(claim.value);
    if leaf.IsNil? then claim.sound || nil || unseen == !claim.value
    else if claim.value == claim.positive then claim.sound || !(if unseen then onNull else onRecord)
    else !unseen || (if claim.sound then onRecord ==> onNull else onNull ==> onRecord)
  }

  /** Where the claim holds of a leaf, and it holds nowhere else (`LeafKeepsClaim`): by what the
      field's condition says of the record. */
  ghost predicate LeafSettles(w: Setting, resource: Resource, actor: Option<Actor>, claim: Claim, leaf: Filter,
                              record: Record)
    requires leaf.Leaf()
  {
    var condition := ConditionTruth(w, resource, leaf.field, actor, record);
    if condition == Some(true) then true
    else if condition == Some(false) then HoldsWhereHidden(claim, leaf)
    else HoldsWhereUnknown(w, resource, actor, claim, leaf, record)
  }

  /** Where the claim holds of a filter: where what it comes to of each leaf does, on the record the
      leaf is asked of. */
  ghost predicate Settles(w: Setting, resource: Resource, actor: Option<Actor>, claim: Claim, f: Filter, record: Record)
    decreases f
  {
    match f
    case True => true
    case False => true
    case And(parts) => forall i | 0 <= i < |parts| :: Settles(w, resource, actor, claim, parts[i], record)
    case Or(parts) => forall i | 0 <= i < |parts| :: Settles(w, resource, actor, claim, parts[i], record)
    case Not(inner) => Settles(w, resource, actor, claim.Negated(), inner, record)
    case RelatedTo(relationship, filter) =>
      (match Related(w.schema, Some(resource), relationship)
       case None => true
       case Some(destination) =>
         var across := w.Across(relationship);
         forall related | IsRelated(record, relationship, related) && Readable(across, destination, actor, related) ::
           Settles(across, destination, actor, claim.Across(), filter, related))
    case _ => LeafSettles(w, resource, actor, claim, f, record)
  }

  lemma {:induction false} GuardLeafMeaning(w: Setting, condition: Option<Filter>, leaf: Filter, positive: bool,
                                            record: Record)
    requires leaf.Leaf()
    ensures var c := if condition.None? then Some(true) else Eval(w, condition.value, record);
            var l := EvalLeaf(w, leaf, record);
            Eval(w, GuardLeaf(condition, leaf, positive), record)
            == if condition.None? then l
               else if leaf.IsNil? || !positive then AnyOf([Negate(c), l])
               else AllOf([c, l])
  {
    if condition.Some? {
      var c := condition.value;
      NotMeaning(w, c, record);
      OrMeaning(w, [NotOf(c), leaf], record);
      AndMeaning(w, [c, leaf], record);
      EvalPair(w, NotOf(c), leaf, record);
      EvalPair(w, c, leaf, record);
    }
  }

  /** Whether a rewritten leaf comes out `value` only where the field's condition is true. One that
      does not comes out `value` wherever the condition is false. */
  predicate NeedsCondition(leaf: Filter, positive: bool, value: bool) {
    value == (positive && !leaf.IsNil?)
  }

  /** A rewritten leaf comes out `value`, where the field's condition is `condition` and the leaf
      itself `onRecord`. */
  predicate ComesOut(leaf: Filter, positive: bool, value: bool, condition: Truth, onRecord: Truth) {
    if NeedsCondition(leaf, positive, value) then condition == Some(true) && onRecord == Some(value)
    else condition == Some(false) || onRecord == Some(value)
  }

  lemma GuardedLeafIsGuardLeaf(schema: Schema, resource: Resource, actor: Option<Actor>, leaf: Filter, positive: bool)
    requires leaf.Leaf()
    ensures GuardFilter(schema, resource, actor, leaf, positive)
            == GuardLeaf(FieldCondition(resource, leaf.field, actor), leaf, positive)
  {
    hide FieldCondition, GuardLeaf;
  }

  lemma {:induction false} LeafComesOut(w: Setting, resource: Resource, actor: Option<Actor>, leaf: Filter,
                                        positive: bool, value: bool, record: Record)
    requires leaf.Leaf()
    ensures Eval(w, GuardLeaf(FieldCondition(resource, leaf.field, actor), leaf, positive), record) == Some(value)
            <==> ComesOut(leaf, positive, value, ConditionTruth(w, resource, leaf.field, actor, record),
                          EvalLeaf(w, leaf, record))
  {
    hide FieldCondition, GuardLeaf, Eval, EvalLeaf;
    GuardLeafMeaning(w, FieldCondition(resource, leaf.field, actor), leaf, positive, record);
    TruthCases(ConditionTruth(w, resource, leaf.field, actor, record));
    TruthCases(EvalLeaf(w, leaf, record));
  }

  /** Of a leaf, for both values, both ways and both sides: the claim holds exactly where the leaf
      settles. */
  lemma {:induction false} LeafKeepsClaim(w: Setting, resource: Resource, actor: Option<Actor>, claim: Claim,
                                          leaf: Filter, record: Record)
    requires leaf.Leaf()
    ensures claim.Holds(Eval(w, GuardLeaf(FieldCondition(resource, leaf.field, actor), leaf, claim.positive), record),
                        LeafAsSeen(w, resource, actor, leaf, record))
            <==> LeafSettles(w, resource, actor, claim, leaf, record)
  {
    hide Unseen, FieldCondition, GuardLeaf, Eval, EvalLeaf, ConditionTruth, LeafOnMissing;
    LeafComesOut(w, resource, actor, leaf, claim.positive, claim.value, record);
    ConditionDecides(w, resource, leaf.field, actor, record);
    TruthCases(ConditionTruth(w, resource, leaf.field, actor, record));
    NilOrNot(w, leaf, record);
  }

  lemma {:induction false} NilOrNot(w: Setting, leaf: Filter, record: Record)
    requires leaf.Leaf()
    ensures leaf.IsNil? ==> EvalLeaf(w, leaf, record) == Some(Present(record, leaf.field).None?)
    ensures leaf.IsNil? ==> LeafOnMissing(leaf) == Some(true)
  {}

  // ---------- claims pass through connectives and relationships

  ghost predicate EachHolds(claim: Claim, rewritten: seq<Truth>, seen: seq<Truth>) {
    |rewritten| == |seen| && forall i | 0 <= i < |rewritten| :: claim.Holds(rewritten[i], seen[i])
  }

  lemma AllOfKeepsClaim(claim: Claim, rewritten: seq<Truth>, seen: seq<Truth>)
    requires EachHolds(claim, rewritten, seen)
    ensures claim.Holds(AllOf(rewritten), AllOf(seen))
  {
    AllOfTrue(rewritten);
    AllOfTrue(seen);
    assert AllOf(rewritten) == Some(false) <==> exists i | 0 <= i < |rewritten| :: rewritten[i] == Some(false);
    assert AllOf(seen) == Some(false) <==> exists i | 0 <= i < |seen| :: seen[i] == Some(false);
  }

  lemma AnyOfKeepsClaim(claim: Claim, rewritten: seq<Truth>, seen: seq<Truth>)
    requires EachHolds(claim, rewritten, seen)
    ensures claim.Holds(AnyOf(rewritten), AnyOf(seen))
  {
    AnyOfFalse(rewritten);
    AnyOfFalse(seen);
    assert AnyOf(rewritten) == Some(true) <==> exists i | 0 <= i < |rewritten| :: rewritten[i] == Some(true);
    assert AnyOf(seen) == Some(true) <==> exists i | 0 <= i < |seen| :: seen[i] == Some(true);
  }

  lemma NotKeepsClaim(claim: Claim, rewritten: Truth, seen: Truth)
    requires claim.Negated().Holds(rewritten, seen)
    ensures claim.Holds(Negate(rewritten), Negate(seen))
  {
    TruthCases(rewritten);
    TruthCases(seen);
  }

  lemma {:induction false} RelatedMeaning(w: Setting, relationship: string, filter: Filter, record: Record)
    ensures Eval(w, RelatedTo(relationship, filter), record)
            == Some(|| NotLoaded(record, relationship)
                    || exists related :: IsRelated(record, relationship, related)
                                         && Eval(w.Across(relationship), filter, related) == Some(true))
  {
    assert Eval(w, RelatedTo(relationship, filter), record) == Some(EvalRelated(w, relationship, filter, record));
    hide Eval, IsRelated;
    var across := w.Across(relationship);
    if EvalRelated(w, relationship, filter, record) && !NotLoaded(record, relationship) {
      match record[relationship]
      case Map(m) => MapIsRelated(record, relationship, m);
      case Array(items) =>
        var i :| 0 <= i < |items| && items[i].Map? && Eval(across, filter, items[i].fields) == Some(true);
        ItemIsRelated(record, relationship, i);
    }
    if related :| IsRelated(record, relationship, related) && Eval(across, filter, related) == Some(true) {
      var i := RelatedIsItem(record, relationship, related);
    }
  }

  lemma MapIsRelated(record: Record, relationship: string, m: Record)
    requires relationship in record && record[relationship] == Map(m)
    ensures IsRelated(record, relationship, m)
  {}

  lemma ItemIsRelated(record: Record, relationship: string, i: nat)
    requires relationship in record && record[relationship].Array?
    requires i < |record[relationship].items| && record[relationship].items[i].Map?
    ensures IsRelated(record, relationship, record[relationship].items[i].fields)
  {
    assert Map(record[relationship].items[i].fields) == record[relationship].items[i];
  }

  lemma RelatedIsItem(record: Record, relationship: string, related: Record) returns (i: nat)
    requires IsRelated(record, relationship, related)
    ensures record[relationship].Map? ==> record[relationship].fields == related
    ensures record[relationship].Array? ==>
              i < |record[relationship].items| && record[relationship].items[i] == Map(related)
  {
    i := 0;
    if record[relationship].Array? {
      i :| 0 <= i < |record[relationship].items| && record[relationship].items[i] == Map(related);
    }
  }

  /** What a rewritten filter tests related records by. */
  function AmongReadable(inner: Filter, read: Result<Option<Filter>, Error>): Filter {
    match read
    case Ok(None) => inner
    case Ok(Some(policy)) => AndOf([inner, policy])
    case Err(_) => False
  }

  /** It is true of those the client may read and the rewritten inner filter is true of. */
  lemma {:induction false} AmongReadableMeaning(w: Setting, inner: Filter, read: Result<Option<Filter>, Error>,
                                                related: Record)
    ensures Eval(w, AmongReadable(inner, read), related) == Some(true)
            <==> ReadTruth(w, read, related) == Some(true) && Eval(w, inner, related) == Some(true)
  {
    match read
    case Ok(None) =>
    case Ok(Some(policy)) =>
      AndMeaning(w, [inner, policy], related);
      EvalPair(w, inner, policy, related);
      TruthCases(Eval(w, inner, related));
      TruthCases(Eval(w, policy, related));
    case Err(_) =>
  }

  /** The rewrite is asked of a record of the setting's own resource, if it crosses relationships. */
  ghost predicate AtHome(w: Setting, schema: Schema, resource: Resource, f: Filter) {
    NoRelated(f) || (schema == w.schema && w.resource == Some(resource))
  }

  /** The client may read a related record the rewritten inner filter is true of. */
  ghost predicate Reaches(w: Setting, actor: Option<Actor>, destination: Resource, relationship: string,
                          filter: Filter, positive: bool, record: Record) {
    exists related ::
      && IsRelated(record, relationship, related)
      && Readable(w, destination, actor, related)
      && Eval(w, GuardFilter(w.schema, destination, actor, filter, positive), related) == Some(true)
  }

  lemma {:induction false} CrossingComesOut(
    w: Setting, resource: Resource, actor: Option<Actor>, destination: Resource, relationship: string,
    filter: Filter, positive: bool, record: Record)
    requires Related(w.schema, Some(resource), relationship) == Some(destination)
    ensures Eval(w, GuardFilter(w.schema, resource, actor, RelatedTo(relationship, filter), positive), record)
            == Some(|| NotLoaded(record, relationship)
                    || Reaches(w.Across(relationship), actor, destination, relationship, filter, positive, record))
  {
    hide Eval, ReadTruth, ReadFilter, IsRelated, NotLoaded;
    var across := w.Across(relationship);
    var read := ReadFilter(destination, destination.defaultRead, actor);
    var inner := GuardFilter(w.schema, destination, actor, filter, positive);
    assert GuardFilter(w.schema, resource, actor, RelatedTo(relationship, filter), positive)
        == RelatedTo(relationship, AmongReadable(inner, read));
    hide GuardFilter;
    RelatedMeaning(w, relationship, AmongReadable(inner, read), record);
    forall related
      ensures Eval(across, AmongReadable(inner, read), related) == Some(true)
              <==> Readable(across, destination, actor, related) && Eval(across, inner, related) == Some(true)
    {
      AmongReadableMeaning(across, inner, read, related);
    }
  }

  lemma {:induction false} RelatedKeepsClaim(w: Setting, resource: Resource, actor: Option<Actor>, claim: Claim,
                          relationship: string, destination: Resource, filter: Filter, record: Record)
    requires Related(w.schema, Some(resource), relationship) == Some(destination) && w.resource == Some(resource)
    requires forall related | IsRelated(record, relationship, related)
                              && Readable(w.Across(relationship), destination, actor, related) ::
               claim.Across().Holds(
                 Eval(w.Across(relationship), GuardFilter(w.schema, destination, actor, filter, claim.positive),
                      related),
                 EvalAsSeen(w.Across(relationship), destination, actor, filter, related))
    ensures claim.Holds(Eval(w, GuardFilter(w.schema, resource, actor, RelatedTo(relationship, filter),
                                            claim.positive), record),
                        EvalAsSeen(w, resource, actor, RelatedTo(relationship, filter), record))
  {
    hide Eval, GuardFilter, Readable, IsRelated, NotLoaded;
    CrossingComesOut(w, resource, actor, destination, relationship, filter, claim.positive, record);
  }

  /** Rewriting keeps its claims: on every record, at any depth of negations and relationships, and
      for both values, both ways and both sides at once. */
  lemma {:induction false} RewriteKeepsClaim(
    w: Setting, schema: Schema, resource: Resource, actor: Option<Actor>, claim: Claim, f: Filter, record: Record)
    requires AtHome(w, schema, resource, f) && Settles(w, resource, actor, claim, f, record)
    ensures claim.Holds(Eval(w, GuardFilter(schema, resource, actor, f, claim.positive), record),
                        EvalAsSeen(w, resource, actor, f, record))
    decreases f, 1
  {
    hide LeafSettles, LeafAsSeen, FieldCondition, GuardLeaf, EvalLeaf, Readable, IsRelated;
    match f
    case True =>
    case False =>
    case And(parts) =>
      RewriteKeepsEachClaim(w, schema, resource, actor, claim, parts, record);
      AndMeaning(w, GuardEach(schema, resource, actor, parts, claim.positive), record);
      AllOfKeepsClaim(claim, EvalEach(w, GuardEach(schema, resource, actor, parts, claim.positive), record),
                      EachAsSeen(w, resource, actor, parts, record));
    case Or(parts) =>
      RewriteKeepsEachClaim(w, schema, resource, actor, claim, parts, record);
      OrMeaning(w, GuardEach(schema, resource, actor, parts, claim.positive), record);
      AnyOfKeepsClaim(claim, EvalEach(w, GuardEach(schema, resource, actor, parts, claim.positive), record),
                      EachAsSeen(w, resource, actor, parts, record));
    case Not(inner) =>
      RewriteKeepsClaim(w, schema, resource, actor, claim.Negated(), inner, record);
      NotMeaning(w, GuardFilter(schema, resource, actor, inner, !claim.positive), record);
      NotKeepsClaim(claim, Eval(w, GuardFilter(schema, resource, actor, inner, !claim.positive), record),
                    EvalAsSeen(w, resource, actor, inner, record));
    case RelatedTo(relationship, filter) =>
      var related := Related(w.schema, Some(resource), relationship);
      if related.Some? {
        RewriteKeepsRelatedClaims(w, resource, actor, claim, relationship, related.value, filter, record);
        RelatedKeepsClaim(w, resource, actor, claim, relationship, related.value, filter, record);
      }
    case _ =>
      LeafKeepsClaim(w, resource, actor, claim, f, record);
  }

  lemma {:induction false} RewriteKeepsRelatedClaims(
    w: Setting, resource: Resource, actor: Option<Actor>, claim: Claim,
    relationship: string, destination: Resource, filter: Filter, record: Record)
    requires Related(w.schema, Some(resource), relationship) == Some(destination) && w.resource == Some(resource)
    requires Settles(w, resource, actor, claim, RelatedTo(relationship, filter), record)
    ensures forall related | IsRelated(record, relationship, related)
                             && Readable(w.Across(relationship), destination, actor, related) ::
              claim.Across().Holds(
                Eval(w.Across(relationship), GuardFilter(w.schema, destination, actor, filter, claim.positive),
                     related),
                EvalAsSeen(w.Across(relationship), destination, actor, filter, related))
    decreases filter, 2
  {
    hide Eval, GuardFilter, EvalAsSeen, Readable, IsRelated;
    var across := w.Across(relationship);
    forall related | IsRelated(record, relationship, related) && Readable(across, destination, actor, related)
      ensures claim.Across().Holds(Eval(across, GuardFilter(w.schema, destination, actor, filter, claim.positive),
                                        related),
                                   EvalAsSeen(across, destination, actor, filter, related))
    {
      RewriteKeepsClaim(across, w.schema, destination, actor, claim.Across(), filter, related);
    }
  }

  lemma {:induction false} RewriteKeepsEachClaim(
    w: Setting, schema: Schema, resource: Resource, actor: Option<Actor>, claim: Claim, parts: seq<Filter>,
    record: Record)
    requires forall i | 0 <= i < |parts| ::
               AtHome(w, schema, resource, parts[i]) && Settles(w, resource, actor, claim, parts[i], record)
    ensures EachHolds(claim, EvalEach(w, GuardEach(schema, resource, actor, parts, claim.positive), record),
                      EachAsSeen(w, resource, actor, parts, record))
    decreases parts, 0
  {
    hide Eval, GuardFilter, EvalAsSeen, AtHome, Settles;
    if parts != [] {
      RewriteKeepsClaim(w, schema, resource, actor, claim, parts[0], record);
      RewriteKeepsEachClaim(w, schema, resource, actor, claim, parts[1..], record);
    }
  }

  // ---------- where claims hold

  /** Relationships are crossed under an even number of negations alone. */
  ghost predicate CrossesEvenly(f: Filter, positive: bool) {
    match f
    case And(parts) => forall i | 0 <= i < |parts| :: CrossesEvenly(parts[i], positive)
    case Or(parts) => forall i | 0 <= i < |parts| :: CrossesEvenly(parts[i], positive)
    case Not(inner) => CrossesEvenly(inner, !positive)
    case RelatedTo(_, filter) => positive && CrossesEvenly(filter, positive)
    case _ => true
  }

  lemma {:induction false} EvenCrossingsSettle(
    w: Setting, resource: Resource, actor: Option<Actor>, f: Filter, positive: bool, record: Record)
    requires CrossesEvenly(f, positive)
    ensures Settles(w, resource, actor, Claim(positive, positive, true), f, record)
    decreases f
  {
    hide IsRelated, Readable;
    match f
    case And(parts) =>
      forall i | 0 <= i < |parts|
        ensures Settles(w, resource, actor, Claim(positive, positive, true), parts[i], record)
      {
        EvenCrossingsSettle(w, resource, actor, parts[i], positive, record);
      }
    case Or(parts) =>
      forall i | 0 <= i < |parts|
        ensures Settles(w, resource, actor, Claim(positive, positive, true), parts[i], record)
      {
        EvenCrossingsSettle(w, resource, actor, parts[i], positive, record);
      }
    case Not(inner) => EvenCrossingsSettle(w, resource, actor, inner, !positive, record);
    case RelatedTo(relationship, filter) =>
      var related := Related(w.schema, Some(resource), relationship);
      if related.Some? {
        var across := w.Across(relationship);
        forall m
          ensures Settles(across, related.value, actor, Claim(positive, positive, true), filter, m)
        {
          EvenCrossingsSettle(across, related.value, actor, filter, positive, m);
        }
      }
    case _ =>
  }

  /** Null decides the leaf, one way or the other, and not every value does. */
  predicate NullDecides(leaf: Filter)
    requires leaf.Leaf()
  {
    LeafOnMissing(leaf) != None && !leaf.In?
  }

  /** The conditions of the fields that a filter's leaves ask of are decided, where null decides the
      leaf: on the record, and on the related records the client may read. */
  ghost predicate Decided(w: Setting, resource: Resource, actor: Option<Actor>, f: Filter, record: Record)
    decreases f
  {
    match f
    case True => true
    case False => true
    case And(parts) => forall i | 0 <= i < |parts| :: Decided(w, resource, actor, parts[i], record)
    case Or(parts) => forall i | 0 <= i < |parts| :: Decided(w, resource, actor, parts[i], record)
    case Not(inner) => Decided(w, resource, actor, inner, record)
    case RelatedTo(relationship, filter) =>
      (match Related(w.schema, Some(resource), relationship)
       case None => true
       case Some(destination) =>
         var across := w.Across(relationship);
         forall related | IsRelated(record, relationship, related) && Readable(across, destination, actor, related) ::
           Decided(across, destination, actor, filter, related))
    case _ => NullDecides(f) ==> ConditionTruth(w, resource, f.field, actor, record) != None
  }

  /** Where they are, the rewrite finds nothing by what is hidden, whatever is negated. */
  lemma {:induction false} DecidedConditionsSettle(
    w: Setting, resource: Resource, actor: Option<Actor>, claim: Claim, f: Filter, record: Record)
    requires Decided(w, resource, actor, f, record) && claim.sound == (claim.value == claim.positive)
    ensures Settles(w, resource, actor, claim, f, record)
    decreases f
  {
    hide IsRelated, Readable, ConditionTruth;
    match f
    case True =>
    case False =>
    case And(parts) =>
      forall i | 0 <= i < |parts|
        ensures Settles(w, resource, actor, claim, parts[i], record)
      {
        DecidedConditionsSettle(w, resource, actor, claim, parts[i], record);
      }
    case Or(parts) =>
      forall i | 0 <= i < |parts|
        ensures Settles(w, resource, actor, claim, parts[i], record)
      {
        DecidedConditionsSettle(w, resource, actor, claim, parts[i], record);
      }
    case Not(inner) => DecidedConditionsSettle(w, resource, actor, claim.Negated(), inner, record);
    case RelatedTo(relationship, filter) =>
      var destination := Related(w.schema, Some(resource), relationship);
      if destination.Some? {
        var across := w.Across(relationship);
        forall m | IsRelated(record, relationship, m) && Readable(across, destination.value, actor, m)
          ensures Settles(across, destination.value, actor, claim.Across(), filter, m)
        {
          DecidedConditionsSettle(across, destination.value, actor, claim.Across(), filter, m);
        }
      }
    case _ => TruthCases(ConditionTruth(w, resource, f.field, actor, record));
  }

  /** The conditions of leaves null decides are decided on the related records that a relationship
      crossed under an odd number of negations leads to; nothing is asked of other leaves or records. */
  ghost predicate OddCrossingsDecided(
    w: Setting, resource: Resource, actor: Option<Actor>, f: Filter, positive: bool, record: Record)
    decreases f
  {
    match f
    case And(parts) =>
      forall i | 0 <= i < |parts| :: OddCrossingsDecided(w, resource, actor, parts[i], positive, record)
    case Or(parts) =>
      forall i | 0 <= i < |parts| :: OddCrossingsDecided(w, resource, actor, parts[i], positive, record)
    case Not(inner) => OddCrossingsDecided(w, resource, actor, inner, !positive, record)
    case RelatedTo(relationship, filter) =>
      (match Related(w.schema, Some(resource), relationship)
       case None => true
       case Some(destination) =>
         var across := w.Across(relationship);
         forall related | IsRelated(record, relationship, related) && Readable(across, destination, actor, related) ::
           if positive then OddCrossingsDecided(across, destination, actor, filter, true, related)
           else Decided(across, destination, actor, filter, related))
    case _ => true
  }

  lemma {:induction false} OddCrossingsSettle(
    w: Setting, resource: Resource, actor: Option<Actor>, f: Filter, positive: bool, record: Record)
    requires OddCrossingsDecided(w, resource, actor, f, positive, record)
    ensures Settles(w, resource, actor, Claim(positive, positive, true), f, record)
    decreases f
  {
    hide IsRelated, Readable, Decided;
    match f
    case And(parts) =>
      forall i | 0 <= i < |parts|
        ensures Settles(w, resource, actor, Claim(positive, positive, true), parts[i], record)
      {
        OddCrossingsSettle(w, resource, actor, parts[i], positive, record);
      }
    case Or(parts) =>
      forall i | 0 <= i < |parts|
        ensures Settles(w, resource, actor, Claim(positive, positive, true), parts[i], record)
      {
        OddCrossingsSettle(w, resource, actor, parts[i], positive, record);
      }
    case Not(inner) => OddCrossingsSettle(w, resource, actor, inner, !positive, record);
    case RelatedTo(relationship, filter) =>
      var destination := Related(w.schema, Some(resource), relationship);
      if destination.Some? {
        var across := w.Across(relationship);
        forall m | IsRelated(record, relationship, m) && Readable(across, destination.value, actor, m)
          ensures Settles(across, destination.value, actor, Claim(positive, positive, true).Across(), filter, m)
        {
          if positive {
            OddCrossingsSettle(across, destination.value, actor, filter, true, m);
          } else {
            DecidedConditionsSettle(across, destination.value, actor, Claim(false, true, false), filter, m);
          }
        }
      }
    case _ =>
  }

  // ---------- what a client's filter finds

  /** A client's filter, rewritten, finds only records that match it as the client sees them: whatever
      the fields' conditions, where relationships are crossed evenly; and across any others, where
      the conditions on the related records are decided of the fields that leaves null decides ask
      of. Whether a hidden value makes a difference to what is found is `GuardTellsNothingHiddenApart`'s
      to say. */
  lemma {:induction false} GuardFindsOnlyWhatIsSeen(w: Setting, resource: Resource, actor: Option<Actor>, f: Filter,
                                                    record: Record)
    requires w.resource == Some(resource)
    requires Eval(w, GuardFilter(w.schema, resource, actor, f, true), record) == Some(true)
    ensures Settles(w, resource, actor, Claim(true, true, true), f, record) ==>
              EvalAsSeen(w, resource, actor, f, record) == Some(true)
    ensures CrossesEvenly(f, true) || OddCrossingsDecided(w, resource, actor, f, true, record) ==>
              EvalAsSeen(w, resource, actor, f, record) == Some(true)
  {
    hide Eval, GuardFilter, EvalAsSeen, Settles, OddCrossingsDecided, CrossesEvenly;
    var claim := Claim(true, true, true);
    if CrossesEvenly(f, true) {
      EvenCrossingsSettle(w, resource, actor, f, true, record);
    }
    if OddCrossingsDecided(w, resource, actor, f, true, record) {
      OddCrossingsSettle(w, resource, actor, f, true, record);
    }
    if Settles(w, resource, actor, claim, f, record) {
      RewriteKeepsClaim(w, w.schema, resource, actor, claim, f, record);
    }
  }

  /** And it finds all of those, where both claims hold of it. */
  lemma {:induction false} GuardFindsExactlyWhatIsSeen(w: Setting, resource: Resource, actor: Option<Actor>, f: Filter,
                                                       record: Record)
    requires w.resource == Some(resource)
    requires Settles(w, resource, actor, Claim(true, true, true), f, record)
    requires Settles(w, resource, actor, Claim(true, true, false), f, record)
    ensures Eval(w, GuardFilter(w.schema, resource, actor, f, true), record) == Some(true)
            <==> EvalAsSeen(w, resource, actor, f, record) == Some(true)
  {
    hide Eval, GuardFilter, EvalAsSeen, Settles;
    RewriteKeepsClaim(w, w.schema, resource, actor, Claim(true, true, true), f, record);
    RewriteKeepsClaim(w, w.schema, resource, actor, Claim(true, true, false), f, record);
  }

  // ---------- on one record alone, rewriting means redacting

  ghost predicate Guardable(f: Filter, positive: bool)
  {
    match f
    case True => true
    case False => true
    case RelatedTo(_, _) => true
    case And(parts) => forall i | 0 <= i < |parts| :: Guardable(parts[i], positive)
    case Or(parts) => forall i | 0 <= i < |parts| :: Guardable(parts[i], positive)
    case Not(inner) => Guardable(inner, !positive)
    case _ => GuardableLeaf(f, positive)
  }

  ghost predicate ConditionsDecided(w: Setting, resource: Resource, actor: Option<Actor>, record: Record) {
    forall field :: ConditionTruth(w, resource, field, actor, record) != None
  }

  /** On a leaf: what the rewritten leaf decides, the redacted record decides too. They agree where
      the field's condition is true; where it is false, exactly for a guardable leaf; and where it is
      unknown, exactly when the redacted record does not come out for the leaf's side, or the leaf
      asks of a field that is nil whether it is. */
  lemma {:induction false} GuardedLeaf(w: Setting, resource: Resource, actor: Option<Actor>, leaf: Filter,
                                       positive: bool, record: Record,
                    redacted: Record)
    requires leaf.Leaf() && KeyShown(w, resource, actor, record) && RedactsTo(w, resource, actor, record, redacted)
    ensures var rewritten := GuardLeaf(FieldCondition(resource, leaf.field, actor), leaf, positive);
            var guarded := Eval(w, rewritten, record) == Some(positive);
            var asNull := EvalLeaf(w, leaf, redacted) == Some(positive);
            var condition := ConditionTruth(w, resource, leaf.field, actor, record);
            var findsNil := leaf.IsNil? && positive && Present(record, leaf.field).None?;
            && (guarded ==> asNull)
            && (condition == Some(true) ==> (guarded <==> asNull))
            && (condition == Some(false) ==> ((guarded <==> asNull) <==> GuardableLeaf(leaf, positive)))
            && (condition == None ==> (guarded <==> findsNil) && ((guarded <==> asNull) <==> (!asNull || findsNil)))
  {
    hide Eval, EvalLeaf, FieldCondition, GuardLeaf, RedactsTo, KeyShown;
    GuardLeafMeaning(w, FieldCondition(resource, leaf.field, actor), leaf, positive, record);
    ConditionDecides(w, resource, leaf.field, actor, record);
    LeafOnRedacted(w, resource, actor, leaf, record, redacted);
    NilOrNot(w, leaf, record);
    TruthCases(ConditionTruth(w, resource, leaf.field, actor, record));
    TruthCases(EvalLeaf(w, leaf, record));
  }

  lemma {:induction false} GuardableSettles(
    w: Setting, resource: Resource, actor: Option<Actor>, f: Filter, positive: bool, record: Record)
    requires NoRelated(f) && Guardable(f, positive) && ConditionsDecided(w, resource, actor, record)
    ensures Settles(w, resource, actor, Claim(positive, positive, false), f, record)
    decreases f
  {
    hide ConditionTruth;
    match f
    case True =>
    case False =>
    case And(parts) =>
      forall i | 0 <= i < |parts|
        ensures Settles(w, resource, actor, Claim(positive, positive, false), parts[i], record)
      {
        GuardableSettles(w, resource, actor, parts[i], positive, record);
      }
    case Or(parts) =>
      forall i | 0 <= i < |parts|
        ensures Settles(w, resource, actor, Claim(positive, positive, false), parts[i], record)
      {
        GuardableSettles(w, resource, actor, parts[i], positive, record);
      }
    case Not(inner) => GuardableSettles(w, resource, actor, inner, !positive, record);
    case RelatedTo(_, _) =>
    case _ => TruthCases(ConditionTruth(w, resource, f.field, actor, record));
  }

  lemma {:induction false} NoRelatedCrossesEvenly(f: Filter, positive: bool)
    requires NoRelated(f)
    ensures CrossesEvenly(f, positive)
    decreases f
  {
    match f
    case And(parts) =>
      forall i | 0 <= i < |parts| ensures CrossesEvenly(parts[i], positive) {
        NoRelatedCrossesEvenly(parts[i], positive);
      }
    case Or(parts) =>
      forall i | 0 <= i < |parts| ensures CrossesEvenly(parts[i], positive) {
        NoRelatedCrossesEvenly(parts[i], positive);
      }
    case Not(inner) => NoRelatedCrossesEvenly(inner, !positive);
    case _ =>
  }

  /** For both sides at once: a rewritten filter that comes out the way its side asks does so on
      the redacted record; and wherever the conditions are decided and the filter guardable, the
      other way around too. */
  lemma {:induction false} GuardMeansRedact(w: Setting, schema: Schema, resource: Resource, actor: Option<Actor>,
                                            f: Filter, positive: bool,
                         record: Record, redacted: Record)
    requires NoRelated(f) && KeyShown(w, resource, actor, record) && RedactsTo(w, resource, actor, record, redacted)
    ensures var guarded := Eval(w, GuardFilter(schema, resource, actor, f, positive), record) == Some(positive);
            var asNull := Eval(w, f, redacted) == Some(positive);
            && (guarded ==> asNull)
            && (ConditionsDecided(w, resource, actor, record) && Guardable(f, positive) ==> (asNull ==> guarded))
  {
    hide Eval, GuardFilter, EvalAsSeen, Settles, KeyShown, RedactsTo, ConditionsDecided, Guardable, NoRelated;
    SeeingIsReadingRedacted(w, resource, actor, f, record, redacted);
    NoRelatedCrossesEvenly(f, positive);
    EvenCrossingsSettle(w, resource, actor, f, positive, record);
    RewriteKeepsClaim(w, schema, resource, actor, Claim(positive, positive, true), f, record);
    if ConditionsDecided(w, resource, actor, record) && Guardable(f, positive) {
      GuardableSettles(w, resource, actor, f, positive, record);
      RewriteKeepsClaim(w, schema, resource, actor, Claim(positive, positive, false), f, record);
    }
  }

  /** Whatever a client's filter matches once rewritten, it matches with the hidden fields null. */
  lemma GuardFindsOnlyWhatIsVisible(w: Setting, schema: Schema, resource: Resource, actor: Option<Actor>, f: Filter,
                                    record: Record, redacted: Record)
    requires NoRelated(f) && KeyShown(w, resource, actor, record) && RedactsTo(w, resource, actor, record, redacted)
    requires Eval(w, GuardFilter(schema, resource, actor, f, true), record) == Some(true)
    ensures Eval(w, f, redacted) == Some(true)
  {
    GuardMeansRedact(w, schema, resource, actor, f, true, record, redacted);
  }

  /** Rewriting a client's filter means redacting the record, wherever the fields' conditions are
      decided. */
  lemma GuardFindsWhatRedactionShows(w: Setting, schema: Schema, resource: Resource, actor: Option<Actor>, f: Filter,
                                     record: Record, redacted: Record)
    requires NoRelated(f) && KeyShown(w, resource, actor, record) && RedactsTo(w, resource, actor, record, redacted)
    requires Guardable(f, true) && ConditionsDecided(w, resource, actor, record)
    ensures Eval(w, GuardFilter(schema, resource, actor, f, true), record) == Some(true)
            <==> Eval(w, f, redacted) == Some(true)
  {
    GuardMeansRedact(w, schema, resource, actor, f, true, record, redacted);
  }

  // ---------- what a rewritten filter tells apart

  /** What the client sees of a field. */
  ghost function FieldAsSeen(w: Setting, resource: Resource, actor: Option<Actor>, record: Record, field: string)
    : Option<Value> {
    if Unseen(w, resource, actor, record, field) then None else Present(record, field)
  }

  /** The field looks the same to the client on both records, and its condition is the same. */
  ghost predicate FieldAlike(w: Setting, resource: Resource, actor: Option<Actor>, field: string, record: Record,
                             other: Record) {
    && FieldAsSeen(w, resource, actor, record, field) == FieldAsSeen(w, resource, actor, other, field)
    && ConditionTruth(w, resource, field, actor, record) == ConditionTruth(w, resource, field, actor, other)
  }

  /** The condition of the leaf's field is unknown, and not needed for the leaf to come out `value`. */
  ghost predicate Exposed(w: Setting, resource: Resource, actor: Option<Actor>, leaf: Filter, positive: bool,
                          value: bool, record: Record)
    requires leaf.Leaf()
  {
    !NeedsCondition(leaf, positive, value) && ConditionTruth(w, resource, leaf.field, actor, record) == None
  }

  /** Two records on which a leaf's field is alike are told apart by the rewritten leaf exactly where
      the leaf is exposed, and comes out the value on one of them alone. */
  lemma {:induction false} LeafTellsApart(w: Setting, resource: Resource, actor: Option<Actor>, leaf: Filter,
                                          positive: bool, value: bool, record: Record, other: Record)
    requires leaf.Leaf() && FieldAlike(w, resource, actor, leaf.field, record, other)
    ensures var rewritten := GuardLeaf(FieldCondition(resource, leaf.field, actor), leaf, positive);
            (Eval(w, rewritten, record) == Some(value) <==> Eval(w, rewritten, other) == Some(value))
            <==> (Exposed(w, resource, actor, leaf, positive, value, record) ==>
                    (EvalLeaf(w, leaf, record) == Some(value) <==> EvalLeaf(w, leaf, other) == Some(value)))
  {
    hide Unseen, FieldCondition, GuardLeaf, Eval, ConditionTruth, LeafOnMissing, LeafOn;
    LeafComesOut(w, resource, actor, leaf, positive, value, record);
    LeafComesOut(w, resource, actor, leaf, positive, value, other);
    ConditionDecides(w, resource, leaf.field, actor, record);
    ConditionDecides(w, resource, leaf.field, actor, other);
    TruthCases(ConditionTruth(w, resource, leaf.field, actor, record));
  }

  /** For its side, only a positive `IsNil` is exposed: it tells apart a field that is nil from one
      that is not. */
  lemma {:induction false} ExposedForItsSide(w: Setting, resource: Resource, actor: Option<Actor>, leaf: Filter,
                                             positive: bool, record: Record)
    requires leaf.Leaf()
    ensures Exposed(w, resource, actor, leaf, positive, positive, record)
            <==> leaf.IsNil? && positive && ConditionTruth(w, resource, leaf.field, actor, record) == None
    ensures leaf.IsNil? ==> (EvalLeaf(w, leaf, record) == Some(true) <==> Present(record, leaf.field) == None)
  {
    hide ConditionTruth;
    NilOrNot(w, leaf, record);
  }

  /** Every readable record `record` is related to has one like it among those `other` is. */
  ghost predicate Covers(w: Setting, actor: Option<Actor>, destination: Resource, relationship: string,
                         filter: Filter, positive: bool, record: Record, other: Record)
    decreases filter, 1
  {
    forall related | IsRelated(record, relationship, related) && Readable(w, destination, actor, related) ::
      exists like :: && IsRelated(other, relationship, like)
                       && Readable(w, destination, actor, like)
                       && Alike(w, destination, actor, filter, positive, true, related, like)
  }

  /** At every leaf of the filter the records are alike and not told apart, on related records that
      match up across a relationship. */
  ghost predicate Alike(w: Setting, resource: Resource, actor: Option<Actor>, f: Filter, positive: bool, value: bool,
                        record: Record, other: Record)
    decreases f, 0
  {
    match f
    case True => true
    case False => true
    case And(parts) =>
      forall i | 0 <= i < |parts| :: Alike(w, resource, actor, parts[i], positive, value, record, other)
    case Or(parts) =>
      forall i | 0 <= i < |parts| :: Alike(w, resource, actor, parts[i], positive, value, record, other)
    case Not(inner) => Alike(w, resource, actor, inner, !positive, !value, record, other)
    case RelatedTo(relationship, filter) =>
      (match Related(w.schema, Some(resource), relationship)
       case None => Eval(w, f, record) == Eval(w, f, other)
       case Some(destination) =>
         var across := w.Across(relationship);
         && (NotLoaded(record, relationship) <==> NotLoaded(other, relationship))
         && Covers(across, actor, destination, relationship, filter, positive, record, other)
         && Covers(across, actor, destination, relationship, filter, positive, other, record))
    case _ =>
      && FieldAlike(w, resource, actor, f.field, record, other)
      && (Exposed(w, resource, actor, f, positive, value, record) ==>
            (EvalLeaf(w, f, record) == Some(value) <==> EvalLeaf(w, f, other) == Some(value)))
  }

  ghost predicate EachAlike(value: bool, results: seq<Truth>, others: seq<Truth>) {
    |results| == |others| && forall i | 0 <= i < |results| :: results[i] == Some(value) <==> others[i] == Some(value)
  }

  lemma {:induction false} AndAlike(w: Setting, parts: seq<Filter>, value: bool, record: Record, other: Record)
    requires EachAlike(value, EvalEach(w, parts, record), EvalEach(w, parts, other))
    ensures Eval(w, AndOf(parts), record) == Some(value) <==> Eval(w, AndOf(parts), other) == Some(value)
  {
    hide Eval, AndOf;
    var results, others := EvalEach(w, parts, record), EvalEach(w, parts, other);
    AndMeaning(w, parts, record);
    AndMeaning(w, parts, other);
    AllOfTrue(results);
    AllOfTrue(others);
    assert AllOf(results) == Some(false) <==> exists i | 0 <= i < |results| :: results[i] == Some(false);
    assert AllOf(others) == Some(false) <==> exists i | 0 <= i < |others| :: others[i] == Some(false);
  }

  lemma {:induction false} OrAlike(w: Setting, parts: seq<Filter>, value: bool, record: Record, other: Record)
    requires EachAlike(value, EvalEach(w, parts, record), EvalEach(w, parts, other))
    ensures Eval(w, OrOf(parts), record) == Some(value) <==> Eval(w, OrOf(parts), other) == Some(value)
  {
    hide Eval, OrOf;
    var results, others := EvalEach(w, parts, record), EvalEach(w, parts, other);
    OrMeaning(w, parts, record);
    OrMeaning(w, parts, other);
    AnyOfFalse(results);
    AnyOfFalse(others);
    assert AnyOf(results) == Some(true) <==> exists i | 0 <= i < |results| :: results[i] == Some(true);
    assert AnyOf(others) == Some(true) <==> exists i | 0 <= i < |others| :: others[i] == Some(true);
  }

  lemma {:induction false} NotAlike(w: Setting, f: Filter, value: bool, record: Record, other: Record)
    requires Eval(w, f, record) == Some(!value) <==> Eval(w, f, other) == Some(!value)
    ensures Eval(w, NotOf(f), record) == Some(value) <==> Eval(w, NotOf(f), other) == Some(value)
  {
    hide Eval, NotOf;
    NotMeaning(w, f, record);
    NotMeaning(w, f, other);
    TruthCases(Eval(w, f, record));
    TruthCases(Eval(w, f, other));
  }

  lemma {:induction false} LeavesComeOutAlike(w: Setting, schema: Schema, resource: Resource, actor: Option<Actor>,
                                              leaf: Filter, positive: bool, value: bool, record: Record, other: Record)
    requires leaf.Leaf() && Alike(w, resource, actor, leaf, positive, value, record, other)
    ensures var guarded := GuardFilter(schema, resource, actor, leaf, positive);
            Eval(w, guarded, record) == Some(value) <==> Eval(w, guarded, other) == Some(value)
  {
    hide FieldAlike, Exposed, FieldCondition, GuardLeaf, EvalLeaf, Eval, GuardFilter;
    GuardedLeafIsGuardLeaf(schema, resource, actor, leaf, positive);
    LeafTellsApart(w, resource, actor, leaf, positive, value, record, other);
  }

  /** A rewritten filter comes out a value on both of two records that are alike or on neither, across
      relationships and negations. */
  lemma {:induction false} AlikeComeOutAlike(w: Setting, schema: Schema, resource: Resource, actor: Option<Actor>,
                                             f: Filter, positive: bool, value: bool, record: Record, other: Record)
    requires AtHome(w, schema, resource, f) && Alike(w, resource, actor, f, positive, value, record, other)
    ensures var guarded := GuardFilter(schema, resource, actor, f, positive);
            Eval(w, guarded, record) == Some(value) <==> Eval(w, guarded, other) == Some(value)
    decreases f, 1
  {
    hide FieldAlike, Exposed, FieldCondition, GuardLeaf, EvalLeaf, IsRelated, Covers, NotLoaded;
    hide AndOf, OrOf, NotOf, AllOf, AnyOf, Negate, EvalEach, EachAlike;
    match f
    case True =>
    case False =>
    case And(parts) =>
      EachComesOutAlike(w, schema, resource, actor, parts, positive, value, record, other);
      AndAlike(w, GuardEach(schema, resource, actor, parts, positive), value, record, other);
    case Or(parts) =>
      EachComesOutAlike(w, schema, resource, actor, parts, positive, value, record, other);
      OrAlike(w, GuardEach(schema, resource, actor, parts, positive), value, record, other);
    case Not(inner) =>
      AlikeComeOutAlike(w, schema, resource, actor, inner, !positive, !value, record, other);
      NotAlike(w, GuardFilter(schema, resource, actor, inner, !positive), value, record, other);
    case RelatedTo(relationship, filter) =>
      var related := Related(w.schema, Some(resource), relationship);
      if related.Some? {
        CrossingsComeOutAlike(w, resource, actor, related.value, relationship, filter, positive, value, record, other);
      }
    case _ =>
      LeavesComeOutAlike(w, schema, resource, actor, f, positive, value, record, other);
  }

  lemma {:induction false} CoversMatches(
    w: Setting, resource: Resource, actor: Option<Actor>, destination: Resource, relationship: string,
    filter: Filter, positive: bool, record: Record, other: Record)
    requires Related(w.schema, Some(resource), relationship) == Some(destination) && w.resource == Some(resource)
    requires Covers(w.Across(relationship), actor, destination, relationship, filter, positive, record, other)
    ensures Reaches(w.Across(relationship), actor, destination, relationship, filter, positive, record)
            ==> Reaches(w.Across(relationship), actor, destination, relationship, filter, positive, other)
    decreases filter, 2
  {
    var across := w.Across(relationship);
    assert AtHome(across, w.schema, destination, filter);
    hide Eval, GuardFilter, Readable, IsRelated, Alike, AtHome;
    var guarded := GuardFilter(w.schema, destination, actor, filter, positive);
    if Reaches(across, actor, destination, relationship, filter, positive, record) {
      var related :| && IsRelated(record, relationship, related)
                     && Readable(across, destination, actor, related)
                     && Eval(across, guarded, related) == Some(true);
      var like :| && IsRelated(other, relationship, like)
                    && Readable(across, destination, actor, like)
                    && Alike(across, destination, actor, filter, positive, true, related, like);
      AlikeComeOutAlike(across, w.schema, destination, actor, filter, positive, true, related, like);
    }
  }

  lemma {:induction false} CrossingsComeOutAlike(
    w: Setting, resource: Resource, actor: Option<Actor>, destination: Resource, relationship: string,
    filter: Filter, positive: bool, value: bool, record: Record, other: Record)
    requires Related(w.schema, Some(resource), relationship) == Some(destination) && w.resource == Some(resource)
    requires Alike(w, resource, actor, RelatedTo(relationship, filter), positive, value, record, other)
    ensures Eval(w, GuardFilter(w.schema, resource, actor, RelatedTo(relationship, filter), positive), record)
            == Eval(w, GuardFilter(w.schema, resource, actor, RelatedTo(relationship, filter), positive), other)
    decreases filter, 3
  {
    hide Eval, GuardFilter, Covers, Reaches, NotLoaded;
    CoversMatches(w, resource, actor, destination, relationship, filter, positive, record, other);
    CoversMatches(w, resource, actor, destination, relationship, filter, positive, other, record);
    CrossingComesOut(w, resource, actor, destination, relationship, filter, positive, record);
    CrossingComesOut(w, resource, actor, destination, relationship, filter, positive, other);
  }

  lemma GuardFirst(schema: Schema, resource: Resource, actor: Option<Actor>, parts: seq<Filter>, positive: bool)
    requires parts != []
    ensures GuardEach(schema, resource, actor, parts, positive)
            == [GuardFilter(schema, resource, actor, parts[0], positive)]
               + GuardEach(schema, resource, actor, parts[1..], positive)
  {
    hide GuardFilter;
  }

  lemma {:induction false} EachAlikeFirst(value: bool, w: Setting, first: Filter, rest: seq<Filter>, record: Record,
                                          other: Record)
    requires Eval(w, first, record) == Some(value) <==> Eval(w, first, other) == Some(value)
    requires EachAlike(value, EvalEach(w, rest, record), EvalEach(w, rest, other))
    ensures EachAlike(value, EvalEach(w, [first] + rest, record), EvalEach(w, [first] + rest, other))
  {
    hide Eval;
    assert ([first] + rest)[1..] == rest;
    assert EvalEach(w, [first] + rest, record) == [Eval(w, first, record)] + EvalEach(w, rest, record);
    assert EvalEach(w, [first] + rest, other) == [Eval(w, first, other)] + EvalEach(w, rest, other);
  }

  lemma {:induction false} EachComesOutAlike(
    w: Setting, schema: Schema, resource: Resource, actor: Option<Actor>, parts: seq<Filter>, positive: bool,
    value: bool, record: Record, other: Record)
    requires forall i | 0 <= i < |parts| ::
               && AtHome(w, schema, resource, parts[i])
               && Alike(w, resource, actor, parts[i], positive, value, record, other)
    ensures var guarded := GuardEach(schema, resource, actor, parts, positive);
            EachAlike(value, EvalEach(w, guarded, record), EvalEach(w, guarded, other))
    decreases parts, 0
  {
    if parts == [] {
      hide Eval, GuardFilter, AtHome, Alike;
    } else {
      hide *;
      var rest := parts[1..];
      AlikeComeOutAlike(w, schema, resource, actor, parts[0], positive, value, record, other);
      EachComesOutAlike(w, schema, resource, actor, rest, positive, value, record, other);
      GuardFirst(schema, resource, actor, parts, positive);
      EachAlikeFirst(value, w, GuardFilter(schema, resource, actor, parts[0], positive),
                     GuardEach(schema, resource, actor, rest, positive), record, other);
    }
  }

  /** The conditions of the fields a filter names come out alike on both records, and none of its
      positive `IsNil` leaves asks, by an unknown condition, of a field nil on one of them alone. */
  ghost predicate NothingExposed(w: Setting, resource: Resource, actor: Option<Actor>, f: Filter, positive: bool,
                                 record: Record, other: Record)
  {
    match f
    case True => true
    case False => true
    case RelatedTo(_, _) => true
    case And(parts) =>
      forall i | 0 <= i < |parts| :: NothingExposed(w, resource, actor, parts[i], positive, record, other)
    case Or(parts) =>
      forall i | 0 <= i < |parts| :: NothingExposed(w, resource, actor, parts[i], positive, record, other)
    case Not(inner) => NothingExposed(w, resource, actor, inner, !positive, record, other)
    case _ =>
      var condition := ConditionTruth(w, resource, f.field, actor, record);
      && condition == ConditionTruth(w, resource, f.field, actor, other)
      && (f.IsNil? && positive && condition == None ==>
            (Present(record, f.field) == None <==> Present(other, f.field) == None))
  }

  /** The client sees the same on both records. */
  ghost predicate LooksAlike(w: Setting, resource: Resource, actor: Option<Actor>, record: Record, other: Record) {
    forall field ::
      FieldAsSeen(w, resource, actor, record, field) == FieldAsSeen(w, resource, actor, other, field)
  }

  lemma {:induction false} NothingExposedIsAlike(
    w: Setting, resource: Resource, actor: Option<Actor>, f: Filter, positive: bool, record: Record, other: Record)
    requires NoRelated(f) && LooksAlike(w, resource, actor, record, other)
    requires NothingExposed(w, resource, actor, f, positive, record, other)
    ensures Alike(w, resource, actor, f, positive, positive, record, other)
    decreases f
  {
    hide ConditionTruth, FieldAsSeen, EvalLeaf, Exposed;
    match f
    case And(parts) =>
      forall i | 0 <= i < |parts| ensures Alike(w, resource, actor, parts[i], positive, positive, record, other) {
        NothingExposedIsAlike(w, resource, actor, parts[i], positive, record, other);
      }
    case Or(parts) =>
      forall i | 0 <= i < |parts| ensures Alike(w, resource, actor, parts[i], positive, positive, record, other) {
        NothingExposedIsAlike(w, resource, actor, parts[i], positive, record, other);
      }
    case Not(inner) => NothingExposedIsAlike(w, resource, actor, inner, !positive, record, other);
    case True =>
    case False =>
    case RelatedTo(_, _) =>
    case _ =>
      ExposedForItsSide(w, resource, actor, f, positive, record);
      ExposedForItsSide(w, resource, actor, f, positive, other);
  }

  lemma RedactedLookAlike(w: Setting, resource: Resource, actor: Option<Actor>, record: Record, other: Record,
                          redacted: Record)
    requires KeyShown(w, resource, actor, record) && KeyShown(w, resource, actor, other)
    requires RedactsTo(w, resource, actor, record, redacted) && RedactsTo(w, resource, actor, other, redacted)
    ensures LooksAlike(w, resource, actor, record, other)
  {
    forall field
      ensures FieldAsSeen(w, resource, actor, record, field) == FieldAsSeen(w, resource, actor, other, field)
    {
      SeenIsRedacted(w, resource, actor, record, redacted, field);
      SeenIsRedacted(w, resource, actor, other, redacted, field);
    }
  }

  lemma SeenIsRedacted(w: Setting, resource: Resource, actor: Option<Actor>, record: Record, redacted: Record,
                       field: string)
    requires KeyShown(w, resource, actor, record) && RedactsTo(w, resource, actor, record, redacted)
    ensures FieldAsSeen(w, resource, actor, record, field) == Present(redacted, field)
  {
    UnseenIsHidden(w, resource, actor, record, field);
    assert if Hidden(w, resource, actor, record, field) then Present(redacted, field) == None
           else Present(redacted, field) == Present(record, field);
  }

  /** Two records that look the same to the client are told apart by no rewritten filter that crosses
      no relationship: where the named fields' conditions come out alike on both and no positive `IsNil`
      asks by an unknown condition of a field nil on one alone. */
  lemma {:induction false} GuardTellsNothingHiddenApart(
    w: Setting, schema: Schema, resource: Resource, actor: Option<Actor>, f: Filter, record: Record, other: Record)
    requires NoRelated(f) && LooksAlike(w, resource, actor, record, other)
    requires NothingExposed(w, resource, actor, f, true, record, other)
    ensures Eval(w, GuardFilter(schema, resource, actor, f, true), record) == Some(true)
            <==> Eval(w, GuardFilter(schema, resource, actor, f, true), other) == Some(true)
  {
    hide Eval, GuardFilter, LooksAlike, NothingExposed, Alike, NoRelated;
    NothingExposedIsAlike(w, resource, actor, f, true, record, other);
    AlikeComeOutAlike(w, schema, resource, actor, f, true, true, record, other);
  }

  /** Nor by one with guardable leaves whose conditions are decided, alike or not. */
  lemma {:induction false} DecidedConditionsTellNothingApart(
    w: Setting, schema: Schema, resource: Resource, actor: Option<Actor>, f: Filter,
    record: Record, other: Record, redacted: Record)
    requires NoRelated(f) && Guardable(f, true)
    requires KeyShown(w, resource, actor, record) && KeyShown(w, resource, actor, other)
    requires RedactsTo(w, resource, actor, record, redacted) && RedactsTo(w, resource, actor, other, redacted)
    requires ConditionsDecided(w, resource, actor, record) && ConditionsDecided(w, resource, actor, other)
    ensures Eval(w, GuardFilter(schema, resource, actor, f, true), record) == Some(true)
            <==> Eval(w, GuardFilter(schema, resource, actor, f, true), other) == Some(true)
  {
    GuardMeansRedact(w, schema, resource, actor, f, true, record, redacted);
    GuardMeansRedact(w, schema, resource, actor, f, true, other, redacted);
  }

  /** A leaf null decides in its favour is not guarded as null: a client asking for records whose
      hidden salary equals null finds none, though to that client every salary reads as null. */
  lemma EqualsNullIsNotGuardedAsNull(w: Setting, schema: Schema)
    ensures var resource := Resource(None, {}, map[], [], [FieldPolicy("salary", [AuthorizeIf(ActorPresent)])],
                                     ActionDef(Read, "read"));
            var f, record, redacted := Eq("salary", Null), map["salary" := Int(7)], map["salary" := Null];
            && RedactsTo(w, resource, None, record, redacted)
            && Eval(w, f, redacted) == Some(true)
            && Eval(w, GuardFilter(schema, resource, None, f, true), record) == Some(false)
  {
    var policy := FieldPolicy("salary", [AuthorizeIf(ActorPresent)]);
    var resource := Resource(None, {}, map[], [], [policy], ActionDef(Read, "read"));
    HoldsIsTrue(w, ActorPresent, None, map["salary" := Int(7)]);
    var holds := DecidingOn(w, None, map["salary" := Int(7)]);
    assert !Authorizes(holds, policy.checks[0]) && Authorizing(policy.checks[0]);
    assert IsHidden(holds, [policy], "salary") by {
      assert [policy][0].field == "salary";
    }
    assert FieldFilters([policy], "salary", None) == [EffectsToFilter(policy.checks, None)];
    assert AuthorizeParts(policy.checks, None) == [False] && OrOf([False]) == False;
  }

  // ---------- and where it does not

  /** The primary key is not guarded, and is redacted where a policy hides it: a hidden key is there to
      be found by. */
  lemma {:induction false} HiddenKeyIsFoundBy(w: Setting, schema: Schema)
    ensures var resource := Resource(Some("id"), {}, map[], [], [FieldPolicy("id", [AuthorizeIf(ActorPresent)])],
                                     ActionDef(Read, "read"));
            var f, record, redacted := Eq("id", Int(7)), map["id" := Int(7)], map["id" := Null];
            && RedactsTo(w, resource, None, record, redacted)
            && Eval(w, f, redacted) != Some(true)
            && Eval(w, GuardFilter(schema, resource, None, f, true), record) == Some(true)
  {
    var policy, record := FieldPolicy("id", [AuthorizeIf(ActorPresent)]), map["id" := Int(7)];
    HoldsIsTrue(w, ActorPresent, None, record);
    var holds := DecidingOn(w, None, record);
    assert !Authorizes(holds, policy.checks[0]) && Authorizing(policy.checks[0]);
    assert IsHidden(holds, [policy], "id") by {
      assert [policy][0].field == "id";
    }
  }

  const ONLY_UNARCHIVED: FieldPolicy := FieldPolicy("salary", UNLESS_ARCHIVED)

  /** A field shown by a condition that is unknown is not found by: the salary of a record without a
      status is there to read, and not to be asked for. */
  lemma UndecidedConditionHidesAShownField(w: Setting, schema: Schema)
    ensures var resource := Resource(None, {}, map[], [], [ONLY_UNARCHIVED], ActionDef(Read, "read"));
            var f, record := Eq("salary", Int(7)), map["status" := Null, "salary" := Int(7)];
            && RedactsTo(w, resource, None, record, record)
            && Eval(w, f, record) == Some(true)
            && Eval(w, GuardFilter(schema, resource, None, f, true), record) == None
  {
    var record := map["status" := Null, "salary" := Int(7)];
    var resource := Resource(None, {}, map[], [], [ONLY_UNARCHIVED], ActionDef(Read, "read"));
    var compiled := EffectsToFilter(UNLESS_ARCHIVED, None);
    UndecidedNegation(w, record);
    assert IsRedacted(DecidingOn(w, None, record), [ONLY_UNARCHIVED], record, record);
    hide EffectsToFilter, Allows;
    OneFieldFilter(resource, "salary", UNLESS_ARCHIVED, None);
    AndMeaning(w, [compiled], record);
    assert EvalEach(w, [compiled], record) == [None];
    hide AndOf, FieldCondition, GuardLeaf;
    var condition := FieldCondition(resource, "salary", None);
    assert condition.Some? && Eval(w, condition.value, record) == None;
    GuardLeafMeaning(w, condition, Eq("salary", Int(7)), true, record);
  }

  lemma OneFieldFilter(resource: Resource, field: string, checks: seq<Effect>, actor: Option<Actor>)
    requires resource.primaryKey == None && resource.fieldPolicies == [FieldPolicy(field, checks)]
    ensures FieldFilters(resource.fieldPolicies, field, actor) == [EffectsToFilter(checks, actor)]
    ensures FieldCondition(resource, field, actor)
            == var condition := AndOf([EffectsToFilter(checks, actor)]);
               if condition == True then None else Some(condition)
  {
    assert resource.fieldPolicies[1..] == [];
  }

  const ONLY_WHEN_OPEN: FieldPolicy := FieldPolicy("secret", [ForbidUnless(EqCheck("status", ConstText("open")))])
  const KID: Resource := Resource(None, {}, map[], [], [ONLY_WHEN_OPEN], ActionDef(Read, "read"))
  const PARENT: Resource := Resource(None, {}, map["child" := "kid"], [], [], ActionDef(Read, "read"))

  function Kid(secret: Value): Record {
    map["status" := Null, "secret" := secret]
  }

  function ParentOf(kid: Record): Record {
    map["child" := Map(kid)]
  }

  /** A kid without a status hides its secret, by a condition that is unknown. */
  lemma {:induction false} KidHidesItsSecret(w: Setting, secret: Value)
    ensures Unseen(w, KID, None, Kid(secret), "secret")
    ensures FieldCondition(KID, "secret", None).Some?
    ensures Eval(w, FieldCondition(KID, "secret", None).value, Kid(secret)) == None
  {
    var record, checks := Kid(secret), ONLY_WHEN_OPEN.checks;
    var check := checks[0].check;
    assert CheckTruth(w, check, None, record) == None;
    HoldsIsTrue(w, check, None, record);
    assert Forbids(DecidingOn(w, None, record), checks[0]);
    assert IsHidden(DecidingOn(w, None, record), KID.fieldPolicies, "secret") by {
      assert KID.fieldPolicies[0] == ONLY_WHEN_OPEN;
    }
    EffectsFilterTruth(w, checks, None, record);
    assert ForbidTruths(w, checks, None, record) == [None];
    assert AuthorizeTruths(w, checks, None, record) == [];
    var compiled := EffectsToFilter(checks, None);
    assert Eval(w, compiled, record) == None;
    hide EffectsToFilter;
    OneFieldFilter(KID, "secret", checks, None);
    AndMeaning(w, [compiled], record);
    assert EvalEach(w, [compiled], record) == [None];
  }

  lemma OnlyChild(kid: Record, related: Record)
    ensures IsRelated(ParentOf(kid), "child", related) <==> related == kid
  {}

  lemma KidIsReadable(w: Setting, kid: Record)
    ensures Readable(w, KID, None, kid)
    ensures ReadFilter(KID, KID.defaultRead, None) == Ok(None)
  {}

  /** A hidden value decides whether a record is found: asking for a missing secret finds the kid
      that has none and not the one that has one, though both look the same to the client. */
  lemma {:induction false} NilLeafTellsHiddenValuesApart(w: Setting, schema: Schema)
    ensures var guarded := GuardFilter(schema, KID, None, IsNil("secret"), true);
            && RedactsTo(w, KID, None, Kid(Int(7)), Kid(Null))
            && RedactsTo(w, KID, None, Kid(Null), Kid(Null))
            && Eval(w, guarded, Kid(Null)) == Some(true)
            && Eval(w, guarded, Kid(Int(7))) == None
  {
    KidRedactsToNull(w, Int(7));
    KidRedactsToNull(w, Null);
    hide FieldCondition, GuardLeaf, GuardFilter, Eval, EvalLeaf, RedactsTo, LeafAsSeen;
    var leaf := IsNil("secret");
    GuardedLeafIsGuardLeaf(schema, KID, None, leaf, true);
    LeafOnKid(w, leaf, true, Int(7));
    LeafOnKid(w, leaf, true, Null);
    NilOrNot(w, leaf, Kid(Int(7)));
    NilOrNot(w, leaf, Kid(Null));
  }

  lemma {:induction false} KidRedactsToNull(w: Setting, secret: Value)
    ensures RedactsTo(w, KID, None, Kid(secret), Kid(Null))
  {
    var holds := DecidingOn(w, None, Kid(secret));
    hide Allows, FieldCondition, Eval;
    KidHidesItsSecret(w, secret);
    forall field
      ensures IsHidden(holds, KID.fieldPolicies, field) <==> field == "secret"
    {
      assert KID.fieldPolicies == [ONLY_WHEN_OPEN];
    }
  }

  /** Across a relationship under a negation, an undecided condition lets a hidden value find a
      record: asking for a parent none of whose kids has no secret finds the one whose kid has a secret
      the client does not see, and not the one whose kid has none. To the client both have none. */
  lemma NegatedCrossingFindsByAHiddenValue(platform: Platform)
    ensures var w := Setting(platform, map["kid" := KID], Some(PARENT));
            var f := Not(RelatedTo("child", IsNil("secret")));
            var guarded := GuardFilter(w.schema, PARENT, None, f, true);
            && Eval(w, guarded, ParentOf(Kid(Int(7)))) == Some(true)
            && Eval(w, guarded, ParentOf(Kid(Null))) == Some(false)
            && EvalAsSeen(w, PARENT, None, f, ParentOf(Kid(Int(7)))) == Some(false)
            && EvalAsSeen(w, PARENT, None, f, ParentOf(Kid(Null))) == Some(false)
  {
    var w := Setting(platform, map["kid" := KID], Some(PARENT));
    NegatedCrossing(w, IsNil("secret"), Int(7));
    NegatedCrossing(w, IsNil("secret"), Null);
  }

  /** Finding only what is seen is not telling nothing apart: asking for a parent none of whose kids
      has the secret 7 finds only parents that look like that, as all do, but not the one whose kid's
      secret, which the client does not see, is 7. */
  lemma NegatedCrossingTellsHiddenValuesApart(platform: Platform)
    ensures var w := Setting(platform, map["kid" := KID], Some(PARENT));
            var f := Not(RelatedTo("child", Eq("secret", Int(7))));
            var guarded := GuardFilter(w.schema, PARENT, None, f, true);
            && Eval(w, guarded, ParentOf(Kid(Int(7)))) == Some(false)
            && Eval(w, guarded, ParentOf(Kid(Int(8)))) == Some(true)
            && EvalAsSeen(w, PARENT, None, f, ParentOf(Kid(Int(7)))) == Some(true)
            && EvalAsSeen(w, PARENT, None, f, ParentOf(Kid(Int(8)))) == Some(true)
  {
    var w := Setting(platform, map["kid" := KID], Some(PARENT));
    NegatedCrossing(w, Eq("secret", Int(7)), Int(7));
    NegatedCrossing(w, Eq("secret", Int(7)), Int(8));
  }

  /** The kid's part: its rewritten leaf is what an unknown condition leaves of it; as seen, the
      leaf asks of null. */
  lemma {:induction false} LeafOnKid(w: Setting, leaf: Filter, positive: bool, secret: Value)
    requires leaf.Leaf() && leaf.field == "secret"
    ensures var rewritten := Eval(w, GuardLeaf(FieldCondition(KID, "secret", None), leaf, positive), Kid(secret));
            && rewritten == (if leaf.IsNil? || !positive then AnyOf([None, EvalLeaf(w, leaf, Kid(secret))])
                             else AllOf([None, EvalLeaf(w, leaf, Kid(secret))]))
            && LeafAsSeen(w, KID, None, leaf, Kid(secret)) == LeafOnMissing(leaf)
  {
    hide FieldCondition, GuardLeaf, Unseen, Eval, EvalLeaf;
    KidHidesItsSecret(w, secret);
    GuardLeafMeaning(w, FieldCondition(KID, "secret", None), leaf, positive, Kid(secret));
  }

  function LeafForKid(leaf: Filter): Filter {
    GuardLeaf(FieldCondition(KID, "secret", None), leaf, false)
  }

  lemma RewrittenCrossing(schema: Schema, leaf: Filter)
    requires schema == map["kid" := KID] && leaf.Leaf() && leaf.field == "secret"
    ensures GuardFilter(schema, PARENT, None, RelatedTo("child", leaf), false)
            == RelatedTo("child", LeafForKid(leaf))
  {
    hide FieldCondition, GuardLeaf;
    assert Related(schema, Some(PARENT), "child") == Some(KID);
    KidIsReadable(Setting(Platform(n => n, t => t), schema, None), map[]);
    hide ReadFilter;
    assert GuardFilter(schema, KID, None, leaf, false) == LeafForKid(leaf);
  }

  lemma {:induction false} CrossingMatches(w: Setting, leaf: Filter, secret: Value)
    requires leaf.Leaf() && leaf.field == "secret"
    ensures Eval(w, RelatedTo("child", LeafForKid(leaf)), ParentOf(Kid(secret)))
            == Some(EvalLeaf(w.Across("child"), leaf, Kid(secret)) == Some(true))
  {
    hide FieldCondition, GuardLeaf, Eval, LeafAsSeen, IsRelated, EvalLeaf;
    var across, kid := w.Across("child"), Kid(secret);
    LeafOnKid(across, leaf, false, secret);
    RelatedMeaning(w, "child", LeafForKid(leaf), ParentOf(kid));
    OnlyChild(kid, kid);
    forall related | IsRelated(ParentOf(kid), "child", related)
      ensures related == kid
    {
      OnlyChild(kid, related);
    }
  }

  lemma {:induction false} LeafSeen(w: Setting, resource: Resource, actor: Option<Actor>, leaf: Filter, record: Record)
    requires leaf.Leaf()
    ensures EvalAsSeen(w, resource, actor, leaf, record) == LeafAsSeen(w, resource, actor, leaf, record)
  {
    hide LeafAsSeen;
  }

  lemma {:induction false} SeenAcross(w: Setting, resource: Resource, actor: Option<Actor>, relationship: string,
                                      destination: Resource, filter: Filter, record: Record)
    requires Related(w.schema, Some(resource), relationship) == Some(destination)
    ensures EvalAsSeen(w, resource, actor, RelatedTo(relationship, filter), record)
            == Some(|| NotLoaded(record, relationship)
                    || exists related ::
                         && IsRelated(record, relationship, related)
                         && Readable(w.Across(relationship), destination, actor, related)
                         && EvalAsSeen(w.Across(relationship), destination, actor, filter, related) == Some(true))
  {
    hide Readable, IsRelated, NotLoaded;
  }

  /** The parent's part, as seen: its one kid is readable, and the leaf asks of it with its secret null. */
  lemma {:induction false} CrossingAsSeen(w: Setting, leaf: Filter, secret: Value)
    requires w.schema == map["kid" := KID] && leaf.Leaf() && leaf.field == "secret"
    ensures EvalAsSeen(w, PARENT, None, RelatedTo("child", leaf), ParentOf(Kid(secret)))
            == Some(LeafOnMissing(leaf) == Some(true))
  {
    var across, kid := w.Across("child"), Kid(secret);
    assert Related(w.schema, Some(PARENT), "child") == Some(KID);
    hide LeafAsSeen, Readable, IsRelated, LeafOnMissing, EvalAsSeen, FieldCondition, GuardLeaf, Eval;
    KidIsReadable(across, kid);
    LeafOnKid(across, leaf, false, secret);
    LeafSeen(across, KID, None, leaf, kid);
    SeenAcross(w, PARENT, None, "child", KID, leaf, ParentOf(kid));
    OnlyChild(kid, kid);
    forall related | IsRelated(ParentOf(kid), "child", related)
      ensures related == kid
    {
      OnlyChild(kid, related);
    }
  }

  lemma {:induction false} NegatedCrossing(w: Setting, leaf: Filter, secret: Value)
    requires w.schema == map["kid" := KID] && leaf.Leaf() && leaf.field == "secret"
    ensures var f := Not(RelatedTo("child", leaf));
            && Eval(w, GuardFilter(w.schema, PARENT, None, f, true), ParentOf(Kid(secret)))
               == Some(EvalLeaf(w.Across("child"), leaf, Kid(secret)) != Some(true))
            && EvalAsSeen(w, PARENT, None, f, ParentOf(Kid(secret))) == Some(LeafOnMissing(leaf) != Some(true))
  {
    hide Eval, LeafForKid, EvalLeaf, LeafOnMissing;
    RewrittenCrossing(w.schema, leaf);
    CrossingMatches(w, leaf, secret);
    CrossingAsSeen(w, leaf, secret);
    NotMeaning(w, RelatedTo("child", LeafForKid(leaf)), ParentOf(Kid(secret)));
  }
}
