/**
 The compiled policies against the record-by-record decision.
 */
module PolicyRefinement {
  import opened Wrappers
  import opened Values
  import opened Resources
  import opened Filters
  import opened Policies

  /** How a check comes out on a record, unknown included. */
  ghost function CheckTruth(w: Setting, check: Check, actor: Option<Actor>, record: Record): Truth {
    Eval(w, CheckToFilter(check, actor), record)
  }

  // ---------- what a check means

  /** The value a constant is written for. */
  predicate IsConstant(v: Value, c: Const) {
    match c
    case ConstNull => v.Null?
    case ConstBool(b) => v.Bool? && v.b == b
    case ConstInt(n) => v.Int? && v.n == n
    case ConstText(text) => v.Text? && v.text == text
  }

  /** Whether a field has what is asked for, unknown where it has nothing. */
  function FieldHas(v: Value, asked: bool): Truth {
    if v == Null then None else Some(asked)
  }

  /** How a check comes out for an actor on a record, from the check itself: false where a part of a
      conjunction is or every part of a disjunction, true where every part of a conjunction is or a part
      of a disjunction, and otherwise unknown, as a test of a missing field is. */
  function CheckMeans(check: Check, actor: Option<Actor>, record: Record): Truth {
    match check
    case Always => Some(true)
    case ActorPresent => Some(actor != None)
    case RelatesToActor(field) =>
      if actor == None then Some(false)
      else FieldHas(Get(record, field), Get(record, field) == Uuid(actor.value.id))
    case ActorAttributeEquals(attr, value) =>
      Some(actor != None && attr in actor.value.attributes && IsConstant(actor.value.attributes[attr], value))
    case IsNilCheck(field) => Some(Get(record, field) == Null)
    case EqCheck(field, value) =>
      if value.ConstNull? then Some(Get(record, field) == Null)
      else FieldHas(Get(record, field), IsConstant(Get(record, field), value))
    case AndCheck(checks) =>
      if exists i | 0 <= i < |checks| :: CheckMeans(checks[i], actor, record) == Some(false) then Some(false)
      else if forall i | 0 <= i < |checks| :: CheckMeans(checks[i], actor, record) == Some(true) then Some(true)
      else None
    case OrCheck(checks) =>
      if exists i | 0 <= i < |checks| :: CheckMeans(checks[i], actor, record) == Some(true) then Some(true)
      else if forall i | 0 <= i < |checks| :: CheckMeans(checks[i], actor, record) == Some(false) then Some(false)
      else None
  }

  /** A compiled check evaluates to what the check means: every check, actor, record and setting. */
  lemma {:induction false} CompiledCheckMeans(w: Setting, check: Check, actor: Option<Actor>, record: Record)
    ensures CheckTruth(w, check, actor, record) == CheckMeans(check, actor, record)
    decreases check, 1
  {
    hide AndOf, OrOf, CheckMeans, CheckTruth;
    match check
    case AndCheck(checks) =>
      CompiledChecksMean(w, checks, actor, record);
      CompiledConjunction(w, checks, actor, record);
    case OrCheck(checks) =>
      CompiledChecksMean(w, checks, actor, record);
      CompiledDisjunction(w, checks, actor, record);
    case _ => CompiledLeafMeans(w, check, actor, record);
  }

  ghost function Meanings(checks: seq<Check>, actor: Option<Actor>, record: Record): seq<Truth> {
    seq(|checks|, i requires 0 <= i < |checks| => CheckMeans(checks[i], actor, record))
  }

  lemma {:induction false} CompiledConjunction(w: Setting, checks: seq<Check>, actor: Option<Actor>, record: Record)
    requires EvalEach(w, ChecksToFilters(checks, actor), record) == Meanings(checks, actor, record)
    ensures CheckTruth(w, AndCheck(checks), actor, record) == CheckMeans(AndCheck(checks), actor, record)
  {
    hide AndOf, AllOf, Eval, EvalEach, ChecksToFilters;
    var meanings := Meanings(checks, actor, record);
    AndMeaning(w, ChecksToFilters(checks, actor), record);
    ConjunctionOf(meanings);
    assert |meanings| == |checks|;
    assert forall i | 0 <= i < |checks| :: meanings[i] == CheckMeans(checks[i], actor, record);
  }

  lemma {:induction false} CompiledDisjunction(w: Setting, checks: seq<Check>, actor: Option<Actor>, record: Record)
    requires EvalEach(w, ChecksToFilters(checks, actor), record) == Meanings(checks, actor, record)
    ensures CheckTruth(w, OrCheck(checks), actor, record) == CheckMeans(OrCheck(checks), actor, record)
  {
    hide OrOf, AnyOf, Eval, EvalEach, ChecksToFilters;
    var meanings := Meanings(checks, actor, record);
    OrMeaning(w, ChecksToFilters(checks, actor), record);
    DisjunctionOf(meanings);
    assert |meanings| == |checks|;
    assert forall i | 0 <= i < |checks| :: meanings[i] == CheckMeans(checks[i], actor, record);
  }

  lemma {:induction false} CompiledLeafMeans(w: Setting, check: Check, actor: Option<Actor>, record: Record)
    requires !check.AndCheck? && !check.OrCheck?
    ensures CheckTruth(w, check, actor, record) == CheckMeans(check, actor, record)
  {}

  lemma {:induction false} CompiledChecksMean(w: Setting, checks: seq<Check>, actor: Option<Actor>, record: Record)
    ensures EvalEach(w, ChecksToFilters(checks, actor), record) == Meanings(checks, actor, record)
    decreases checks, 0
  {
    hide CheckMeans, CheckToFilter, Eval;
    if checks != [] {
      CompiledCheckMeans(w, checks[0], actor, record);
      CompiledChecksMean(w, checks[1..], actor, record);
      assert Meanings(checks, actor, record)
          == [CheckMeans(checks[0], actor, record)] + Meanings(checks[1..], actor, record);
    }
  }

  lemma ConjunctionOf(results: seq<Truth>)
    ensures AllOf(results)
            == if exists i | 0 <= i < |results| :: results[i] == Some(false) then Some(false)
               else if forall i | 0 <= i < |results| :: results[i] == Some(true) then Some(true)
               else None
  {
    AllOfTrue(results);
    TruthCases(AllOf(results));
  }

  lemma DisjunctionOf(results: seq<Truth>)
    ensures AnyOf(results)
            == if exists i | 0 <= i < |results| :: results[i] == Some(true) then Some(true)
               else if forall i | 0 <= i < |results| :: results[i] == Some(false) then Some(false)
               else None
  {
    AnyOfFalse(results);
    TruthCases(AnyOf(results));
  }

  /** Deciding a check on a record is asking whether it is true of it. */
  lemma HoldsMeans(p: Platform, check: Check, actor: Option<Actor>, record: Record)
    ensures Holds(p, check, actor, Some(record)) <==> CheckMeans(check, actor, record) == Some(true)
  {
    CompiledCheckMeans(Bare(p), check, actor, record);
  }

  // A record without a record: one that answers no test of a field with true.

  function FieldsOf(check: Check): set<string> {
    match check
    case RelatesToActor(field) => {field}
    case IsNilCheck(field) => {field}
    case EqCheck(field, _) => {field}
    case AndCheck(checks) => set i, field | 0 <= i < |checks| && field in FieldsOf(checks[i]) :: field
    case OrCheck(checks) => set i, field | 0 <= i < |checks| && field in FieldsOf(checks[i]) :: field
    case _ => {}
  }

  /** No constant and no actor's id is an array. */
  ghost predicate AnswersNothing(record: Record, fields: set<string>) {
    forall field | field in fields :: Get(record, field) == Array([])
  }

  lemma {:induction false} TrueOfNothingCompilesToTrue(check: Check, actor: Option<Actor>, record: Record)
    requires AnswersNothing(record, FieldsOf(check)) && CheckMeans(check, actor, record) == Some(true)
    ensures CheckToFilter(check, actor) == True
    decreases check, 1
  {
    match check
    case AndCheck(checks) =>
      forall i | 0 <= i < |checks|
        ensures |ChecksToFilters(checks, actor)| == |checks| && ChecksToFilters(checks, actor)[i] == True
      {
        ChecksToFiltersAt(checks, actor, i);
        TrueOfNothingCompilesToTrue(checks[i], actor, record);
      }
      if checks != [] {
        ChecksToFiltersAt(checks, actor, 0);
      }
      AllTrue(ChecksToFilters(checks, actor));
    case OrCheck(checks) =>
      var i :| 0 <= i < |checks| && CheckMeans(checks[i], actor, record) == Some(true);
      ChecksToFiltersAt(checks, actor, i);
      TrueOfNothingCompilesToTrue(checks[i], actor, record);
      assert True in ChecksToFilters(checks, actor);
    case _ =>
  }

  lemma {:induction false} ChecksToFiltersAt(checks: seq<Check>, actor: Option<Actor>, i: nat)
    requires i < |checks|
    ensures |ChecksToFilters(checks, actor)| == |checks|
    ensures ChecksToFilters(checks, actor)[i] == CheckToFilter(checks[i], actor)
  {
    if i > 0 {
      ChecksToFiltersAt(checks[1..], actor, i - 1);
    } else if |checks| > 1 {
      ChecksToFiltersAt(checks[1..], actor, 0);
    }
  }

  lemma {:induction false} AllTrue(parts: seq<Filter>)
    requires forall i | 0 <= i < |parts| :: parts[i] == True
    ensures AndOf(parts) == True
  {
    NoParts(parts);
  }

  lemma {:induction false} NoParts(parts: seq<Filter>)
    requires forall i | 0 <= i < |parts| :: parts[i] == True
    ensures AndParts(parts) == []
  {
    if parts != [] {
      NoParts(parts[1..]);
    }
  }

  ghost predicate AlwaysTrue(check: Check, actor: Option<Actor>) {
    forall record :: CheckMeans(check, actor, record) == Some(true)
  }

  lemma {:induction false} TrueIsAlwaysTrue(p: Platform, check: Check, actor: Option<Actor>)
    requires CheckToFilter(check, actor) == True
    ensures AlwaysTrue(check, actor)
  {
    hide CheckMeans, CheckToFilter;
    forall record
      ensures CheckMeans(check, actor, record) == Some(true)
    {
      CompiledCheckMeans(Bare(p), check, actor, record);
    }
  }

  lemma {:induction false} AlwaysTrueIsTrue(check: Check, actor: Option<Actor>)
    requires AlwaysTrue(check, actor)
    ensures CheckToFilter(check, actor) == True
  {
    hide CheckMeans, CheckToFilter, FieldsOf;
    var record: Record := map field | field in FieldsOf(check) :: Array([]);
    assert AnswersNothing(record, FieldsOf(check));
    assert CheckMeans(check, actor, record) == Some(true);
    TrueOfNothingCompilesToTrue(check, actor, record);
  }

  /** Without a record, a check holds exactly if it is true of every record. */
  lemma {:induction false} HoldsWithoutARecordExactlyIfAlwaysTrue(p: Platform, check: Check, actor: Option<Actor>)
    ensures Holds(p, check, actor, None) <==> AlwaysTrue(check, actor)
  {
    hide AlwaysTrue, CheckToFilter;
    if CheckToFilter(check, actor) == True {
      TrueIsAlwaysTrue(p, check, actor);
    }
    if AlwaysTrue(check, actor) {
      AlwaysTrueIsTrue(check, actor);
    }
  }

  // ---------- which policies apply

  /** The action is among those the policy is for. */
  predicate IsFor(policy: Policy, action: ActionDef) {
    policy.when == Every || policy.when == OfKind(action.kind) || policy.when == Named(action.name)
  }

  /** The policies picked for an action are those for it, of the kind asked for. */
  lemma {:induction false} ApplicableAreThoseFor(policies: seq<Policy>, action: ActionDef, bypass: bool)
    ensures forall policy ::
              policy in Applicable(policies, action, bypass)
              <==> policy in policies && IsFor(policy, action) && policy.bypass == bypass
  {
    if policies != [] {
      ApplicableAreThoseFor(policies[1..], action, bypass);
    }
  }

  /** A write is authorized exactly if the resource has no policies, a bypass for the action allows it, or
      it has other policies for the action and all of them allow it. */
  lemma AuthorizedMeans(holds: Decision, resource: Resource, action: ActionDef)
    ensures Authorized(holds, resource, action)
            <==> || resource.policies == []
                 || (exists policy | policy in resource.policies ::
                       policy.bypass && IsFor(policy, action) && Allows(holds, policy.checks))
                 || ((exists policy | policy in resource.policies :: !policy.bypass && IsFor(policy, action))
                     && forall policy | policy in resource.policies && !policy.bypass && IsFor(policy, action) ::
                          Allows(holds, policy.checks))
  {
    hide Allows, IsFor;
    var bypasses, normals := Applicable(resource.policies, action, true), Applicable(resource.policies, action, false);
    ApplicableAreThoseFor(resource.policies, action, true);
    ApplicableAreThoseFor(resource.policies, action, false);
    AllowedByOne(holds, bypasses);
    AllowedByAll(holds, normals);
    assert normals != [] ==> normals[0] in normals;
    assert (exists policy | policy in resource.policies :: !policy.bypass && IsFor(policy, action)) ==> normals != [];
  }

  lemma AllowedByOne(holds: Decision, policies: seq<Policy>)
    ensures (exists i | 0 <= i < |policies| :: Allows(holds, policies[i].checks))
            <==> exists policy | policy in policies :: Allows(holds, policy.checks)
  {
    hide Allows;
    if i :| 0 <= i < |policies| && Allows(holds, policies[i].checks) {
      assert policies[i] in policies;
    }
  }

  lemma AllowedByAll(holds: Decision, policies: seq<Policy>)
    ensures (forall i | 0 <= i < |policies| :: Allows(holds, policies[i].checks))
            <==> forall policy | policy in policies :: Allows(holds, policy.checks)
  {
    hide Allows;
    if forall policy | policy in policies :: Allows(holds, policy.checks) {
      forall i | 0 <= i < |policies| ensures Allows(holds, policies[i].checks) {
        assert policies[i] in policies;
      }
    }
  }

  // ---------- checks read the record alone

  lemma {:induction false} CheckReadsRecordAlone(w: Setting, v: Setting, check: Check, actor: Option<Actor>,
                                                 record: Record)
    ensures CheckTruth(w, check, actor, record) == CheckTruth(v, check, actor, record)
  {
    hide CheckTruth;
    CompiledCheckMeans(w, check, actor, record);
    CompiledCheckMeans(v, check, actor, record);
  }

  // ---------- the two halves of an effect list, as truths

  /** What each effect requires not to be forbidden, as it comes out on the record. */
  ghost function ForbidTruth(w: Setting, effect: Effect, actor: Option<Actor>, record: Record): seq<Truth> {
    match effect
    case ForbidIf(check) => [Negate(CheckTruth(w, check, actor, record))]
    case ForbidUnless(check) => [CheckTruth(w, check, actor, record)]
    case _ => []
  }

  ghost function ForbidTruths(w: Setting, effects: seq<Effect>, actor: Option<Actor>, record: Record): seq<Truth> {
    if effects == [] then []
    else ForbidTruth(w, effects[0], actor, record) + ForbidTruths(w, effects[1..], actor, record)
  }

  ghost function AuthorizeTruth(w: Setting, effect: Effect, actor: Option<Actor>, record: Record): seq<Truth> {
    match effect
    case AuthorizeIf(check) => [CheckTruth(w, check, actor, record)]
    case AuthorizeUnless(check) => [Negate(CheckTruth(w, check, actor, record))]
    case _ => []
  }

  ghost function AuthorizeTruths(w: Setting, effects: seq<Effect>, actor: Option<Actor>, record: Record): seq<Truth> {
    if effects == [] then []
    else AuthorizeTruth(w, effects[0], actor, record) + AuthorizeTruths(w, effects[1..], actor, record)
  }

  lemma {:induction false} ForbidPartsTruth(w: Setting, effects: seq<Effect>, actor: Option<Actor>, record: Record)
    ensures EvalEach(w, ForbidParts(effects, actor), record) == ForbidTruths(w, effects, actor, record)
  {
    if effects != [] {
      ForbidPartsTruth(w, effects[1..], actor, record);
      EvalEachConcat(w, ForbidPart(effects[0], actor), ForbidParts(effects[1..], actor), record);
      NotMeaning(w, CheckToFilter(effects[0].check, actor), record);
      assert EvalEach(w, ForbidPart(effects[0], actor), record) == ForbidTruth(w, effects[0], actor, record);
    }
  }

  lemma {:induction false} AuthorizePartsTruth(w: Setting, effects: seq<Effect>, actor: Option<Actor>, record: Record)
    ensures EvalEach(w, AuthorizeParts(effects, actor), record) == AuthorizeTruths(w, effects, actor, record)
  {
    if effects != [] {
      AuthorizePartsTruth(w, effects[1..], actor, record);
      EvalEachConcat(w, AuthorizePart(effects[0], actor), AuthorizeParts(effects[1..], actor), record);
      NotMeaning(w, CheckToFilter(effects[0].check, actor), record);
      assert EvalEach(w, AuthorizePart(effects[0], actor), record) == AuthorizeTruth(w, effects[0], actor, record);
    }
  }

  /** The truth of a compiled effect list. */
  ghost function EffectsTruth(w: Setting, effects: seq<Effect>, actor: Option<Actor>, record: Record): Truth {
    var authorizes := AuthorizeTruths(w, effects, actor, record);
    AllOf(ForbidTruths(w, effects, actor, record) + [if authorizes == [] then Some(true) else AnyOf(authorizes)])
  }

  lemma EffectsFilterTruth(w: Setting, effects: seq<Effect>, actor: Option<Actor>, record: Record)
    ensures Eval(w, EffectsToFilter(effects, actor), record) == EffectsTruth(w, effects, actor, record)
  {
    var forbids, authorizes := ForbidParts(effects, actor), AuthorizeParts(effects, actor);
    ForbidPartsTruth(w, effects, actor, record);
    AuthorizePartsTruth(w, effects, actor, record);
    OrMeaning(w, authorizes, record);
    var authorized := if authorizes == [] then True else OrOf(authorizes);
    EvalEachConcat(w, forbids, [authorized], record);
    assert EvalEach(w, [authorized], record) == [Eval(w, authorized, record)];
    AndMeaning(w, forbids + [authorized], record);
    if forbids == [] {
      assert [] + [authorized] == [authorized];
    }
  }

  // ---------- the compiled effects against the decision

  /** The checks a policy negates are decided on the record: unknown is where negating a check
      and not meeting it part ways. */
  ghost predicate NegationsDecided(effects: seq<Effect>, w: Setting, actor: Option<Actor>, record: Record) {
    forall i | 0 <= i < |effects| ::
      effects[i].ForbidIf? || effects[i].AuthorizeUnless? ==> CheckTruth(w, effects[i].check, actor, record) != None
  }

  /** Every check the policy forbids by is decided on the record. */
  ghost predicate ForbidsSettled(effects: seq<Effect>, w: Setting, actor: Option<Actor>, record: Record) {
    forall i | 0 <= i < |effects| :: effects[i].ForbidIf? ==> CheckTruth(w, effects[i].check, actor, record) != None
  }

  /** The effect authorizes by a check that is decided on the record. */
  ghost predicate ClearlyAuthorizes(effect: Effect, w: Setting, actor: Option<Actor>, record: Record) {
    || (effect.AuthorizeIf? && CheckTruth(w, effect.check, actor, record) == Some(true))
    || (effect.AuthorizeUnless? && CheckTruth(w, effect.check, actor, record) == Some(false))
  }

  /** What it takes for a policy that allows a record to be true of it once compiled: no check it
      forbids by is unknown, and what authorizes, if anything could, does so by a decided check. */
  ghost predicate Settled(effects: seq<Effect>, w: Setting, actor: Option<Actor>, record: Record) {
    && ForbidsSettled(effects, w, actor, record)
    && ((forall i | 0 <= i < |effects| :: !Authorizing(effects[i]))
        || exists i | 0 <= i < |effects| :: ClearlyAuthorizes(effects[i], w, actor, record))
  }

  ghost function DecidingOn(w: Setting, actor: Option<Actor>, record: Record): Decision {
    Deciding(w.platform, actor, Some(record))
  }

  lemma HoldsIsTrue(w: Setting, check: Check, actor: Option<Actor>, record: Record)
    ensures DecidingOn(w, actor, record)(check) <==> CheckTruth(w, check, actor, record) == Some(true)
  {
    CheckReadsRecordAlone(Bare(w.platform), w, check, actor, record);
  }

  lemma {:induction false} ForbidsMeaning(w: Setting, effects: seq<Effect>, actor: Option<Actor>, record: Record)
    ensures var truth := AllOf(ForbidTruths(w, effects, actor, record));
            var forbidden := exists i | 0 <= i < |effects| :: Forbids(DecidingOn(w, actor, record), effects[i]);
            && (truth == Some(true) ==> !forbidden)
            && (truth == Some(false) ==> forbidden)
            && (truth == Some(true) <==> !forbidden && ForbidsSettled(effects, w, actor, record))
  {
    hide DecidingOn, CheckTruth;
    if effects != [] {
      var holds := DecidingOn(w, actor, record);
      var rest := effects[1..];
      ForbidsMeaning(w, rest, actor, record);
      HoldsIsTrue(w, effects[0].check, actor, record);
      TruthCases(CheckTruth(w, effects[0].check, actor, record));
      var head, tail := ForbidTruth(w, effects[0], actor, record), ForbidTruths(w, rest, actor, record);
      assert forall t :: t in head + tail <==> t in head || t in tail;
      assert forall i | 1 <= i < |effects| :: effects[i] == rest[i - 1];
      assert (exists i | 0 <= i < |effects| :: Forbids(holds, effects[i]))
        <==> Forbids(holds, effects[0]) || (exists i | 0 <= i < |rest| :: Forbids(holds, rest[i])) by {
        if i :| 0 <= i < |rest| && Forbids(holds, rest[i]) {
          assert effects[i + 1] == rest[i];
        }
      }
      SettledByFirst(effects, w, actor, record);
    }
  }

  lemma SettledByFirst(effects: seq<Effect>, w: Setting, actor: Option<Actor>, record: Record)
    requires effects != []
    ensures ForbidsSettled(effects, w, actor, record)
            <==> (effects[0].ForbidIf? ==> CheckTruth(w, effects[0].check, actor, record) != None)
                 && ForbidsSettled(effects[1..], w, actor, record)
  {
    hide CheckTruth;
    var rest := effects[1..];
    assert forall i | 1 <= i < |effects| :: effects[i] == rest[i - 1];
    if ForbidsSettled(effects, w, actor, record) {
      forall i | 0 <= i < |rest| && rest[i].ForbidIf?
        ensures CheckTruth(w, rest[i].check, actor, record) != None
      {
        assert effects[i + 1] == rest[i];
      }
    }
  }

  lemma {:induction false} AuthorizesMeaning(w: Setting, effects: seq<Effect>, actor: Option<Actor>, record: Record)
    ensures var truth := AnyOf(AuthorizeTruths(w, effects, actor, record));
            var authorized := exists i | 0 <= i < |effects| :: Authorizes(DecidingOn(w, actor, record), effects[i]);
            && (truth == Some(true) ==> authorized)
            && (truth == Some(false) ==> !authorized)
            && (truth == Some(true)
                <==> exists i | 0 <= i < |effects| :: ClearlyAuthorizes(effects[i], w, actor, record))
    ensures AuthorizeTruths(w, effects, actor, record) == []
            <==> forall i | 0 <= i < |effects| :: !Authorizing(effects[i])
  {
    hide DecidingOn, CheckTruth;
    if effects != [] {
      var holds := DecidingOn(w, actor, record);
      var rest := effects[1..];
      AuthorizesMeaning(w, rest, actor, record);
      HoldsIsTrue(w, effects[0].check, actor, record);
      TruthCases(CheckTruth(w, effects[0].check, actor, record));
      var head, tail := AuthorizeTruth(w, effects[0], actor, record), AuthorizeTruths(w, rest, actor, record);
      assert forall t :: t in head + tail <==> t in head || t in tail;
      assert forall i | 1 <= i < |effects| :: effects[i] == rest[i - 1];
      assert (exists i | 0 <= i < |effects| :: Authorizes(holds, effects[i]))
        <==> Authorizes(holds, effects[0]) || (exists i | 0 <= i < |rest| :: Authorizes(holds, rest[i])) by {
        if i :| 0 <= i < |rest| && Authorizes(holds, rest[i]) {
          assert effects[i + 1] == rest[i];
        }
      }
      assert (exists i | 0 <= i < |effects| :: ClearlyAuthorizes(effects[i], w, actor, record))
        <==> ClearlyAuthorizes(effects[0], w, actor, record)
             || (exists i | 0 <= i < |rest| :: ClearlyAuthorizes(rest[i], w, actor, record)) by {
        if i :| 0 <= i < |rest| && ClearlyAuthorizes(rest[i], w, actor, record) {
          assert effects[i + 1] == rest[i];
        }
      }
    }
  }

  /** Decided negations settle a policy that allows. */
  lemma DecidedNegationsSettle(effects: seq<Effect>, w: Setting, actor: Option<Actor>, record: Record)
    requires NegationsDecided(effects, w, actor, record) && Allows(DecidingOn(w, actor, record), effects)
    ensures Settled(effects, w, actor, record)
  {
    hide DecidingOn, CheckTruth;
    var holds := DecidingOn(w, actor, record);
    if i :| 0 <= i < |effects| && Authorizes(holds, effects[i]) {
      HoldsIsTrue(w, effects[i].check, actor, record);
      TruthCases(CheckTruth(w, effects[i].check, actor, record));
      assert ClearlyAuthorizes(effects[i], w, actor, record);
    }
  }

  /** A compiled policy that is true of a record allows it, and one that is false does not. It is
      true exactly where it allows the record and is settled on it, as it is wherever the checks it
      negates are decided. */
  lemma EffectsFilterRefinesDecision(w: Setting, effects: seq<Effect>, actor: Option<Actor>, record: Record)
    ensures var truth := Eval(w, EffectsToFilter(effects, actor), record);
            var allowed := Allows(DecidingOn(w, actor, record), effects);
            && (truth == Some(true) ==> allowed)
            && (truth == Some(false) ==> !allowed)
            && (truth == Some(true) <==> allowed && Settled(effects, w, actor, record))
            && (NegationsDecided(effects, w, actor, record) ==> (allowed <==> truth == Some(true)))
  {
    hide DecidingOn, CheckTruth, NegationsDecided, ForbidsSettled, ClearlyAuthorizes;
    EffectsFilterTruth(w, effects, actor, record);
    ForbidsMeaning(w, effects, actor, record);
    AuthorizesMeaning(w, effects, actor, record);
    var forbids, authorizes := ForbidTruths(w, effects, actor, record), AuthorizeTruths(w, effects, actor, record);
    var last := if authorizes == [] then Some(true) else AnyOf(authorizes);
    assert forall t :: t in forbids + [last] <==> t in forbids || t == last;
    assert Allows(DecidingOn(w, actor, record), effects)
      <==> !(exists i | 0 <= i < |effects| :: Forbids(DecidingOn(w, actor, record), effects[i]))
           && (authorizes == []
               || exists i | 0 <= i < |effects| :: Authorizes(DecidingOn(w, actor, record), effects[i]));
    if NegationsDecided(effects, w, actor, record) && Allows(DecidingOn(w, actor, record), effects) {
      DecidedNegationsSettle(effects, w, actor, record);
    }
  }

  // ---------- whole resources

  ghost function PolicyTruths(w: Setting, policies: seq<Policy>, actor: Option<Actor>, record: Record): seq<Truth> {
    EvalEach(w, PolicyFilters(policies, actor), record)
  }

  lemma PolicyTruthAt(w: Setting, policies: seq<Policy>, actor: Option<Actor>, record: Record, i: nat)
    requires i < |policies|
    ensures PolicyTruths(w, policies, actor, record)[i] == Eval(w, EffectsToFilter(policies[i].checks, actor), record)
  {
    PolicyFiltersAt(policies, actor, i);
    EvalEachAt(w, PolicyFilters(policies, actor), record, i);
  }

  /** Everything decided there is to a write filter's truth: any bypass, or all the others. */
  ghost function WriteTruth(w: Setting, resource: Resource, action: ActionDef, actor: Option<Actor>, record: Record)
    : Truth {
    var bypasses, normals := Applicable(resource.policies, action, true), Applicable(resource.policies, action, false);
    if resource.policies == [] then Some(true)
    else AnyOf(PolicyTruths(w, bypasses, actor, record)
               + [if normals == [] then Some(false) else AllOf(PolicyTruths(w, normals, actor, record))])
  }

  lemma WriteFilterTruth(w: Setting, resource: Resource, action: ActionDef, actor: Option<Actor>, record: Record)
    ensures Eval(w, WriteFilter(resource, action, actor), record) == WriteTruth(w, resource, action, actor, record)
  {
    var bypasses, normals := Applicable(resource.policies, action, true), Applicable(resource.policies, action, false);
    var bypass := PolicyFilters(bypasses, actor);
    var normal := if normals == [] then False else AndOf(PolicyFilters(normals, actor));
    AndMeaning(w, PolicyFilters(normals, actor), record);
    OrMeaning(w, bypass + [normal], record);
    EvalEachConcat(w, bypass, [normal], record);
    assert EvalEach(w, [normal], record) == [Eval(w, normal, record)];
    if bypass == [] {
      var last := if normals == [] then Some(false) else AllOf(PolicyTruths(w, normals, actor, record));
      assert PolicyTruths(w, bypasses, actor, record) + [last] == [last];
    }
  }

  /** `Forbidden` read as matching nothing, and no filter as matching everything. */
  ghost function ReadTruth(w: Setting, read: Result<Option<Filter>, Error>, record: Record): Truth {
    match read
    case Err(_) => Some(false)
    case Ok(None) => Some(true)
    case Ok(Some(f)) => Eval(w, f, record)
  }

  /** The read filter and the write filter of the same policies agree on every record, unknown
      included. */
  lemma ReadFilterAgreesWithWriteFilter(w: Setting, resource: Resource, action: ActionDef, actor: Option<Actor>,
                                        record: Record)
    ensures ReadTruth(w, ReadFilter(resource, action, actor), record)
            == Eval(w, WriteFilter(resource, action, actor), record)
  {
    hide EvalEach, Applicable, PolicyFilters, AndOf, OrOf;
    WriteFilterTruth(w, resource, action, actor, record);
    var bypasses, normals := Applicable(resource.policies, action, true), Applicable(resource.policies, action, false);
    var bypass, normal := PolicyFilters(bypasses, actor), PolicyFilters(normals, actor);
    var truths := PolicyTruths(w, bypasses, actor, record);
    var last := if normals == [] then Some(false) else AllOf(PolicyTruths(w, normals, actor, record));
    assert forall t :: t in truths + [last] <==> t in truths || t == last;
    if True in bypass {
      var i :| 0 <= i < |bypass| && bypass[i] == True;
      EvalEachAt(w, bypass, record, i);
      assert truths[i] == Some(true);
    } else {
      OrMeaning(w, bypass, record);
      AndMeaning(w, normal, record);
      OrMeaning(w, [OrOf(bypass), AndOf(normal)], record);
      EvalPair(w, OrOf(bypass), AndOf(normal), record);
    }
  }

  /** The policies of a resource that apply to an action. */
  ghost predicate Applies(policy: Policy, resource: Resource, action: ActionDef) {
    policy in Applicable(resource.policies, action, true) || policy in Applicable(resource.policies, action, false)
  }

  /** A write filter matches where a bypass does, or where all the others do. */
  lemma WriteFilterMatches(w: Setting, resource: Resource, action: ActionDef, actor: Option<Actor>, record: Record)
    ensures var bypasses := Applicable(resource.policies, action, true);
            var normals := Applicable(resource.policies, action, false);
            Eval(w, WriteFilter(resource, action, actor), record) == Some(true)
            <==> || resource.policies == []
                 || Some(true) in PolicyTruths(w, bypasses, actor, record)
                 || (normals != [] && AllOf(PolicyTruths(w, normals, actor, record)) == Some(true))
  {
    WriteFilterTruth(w, resource, action, actor, record);
    var bypasses, normals := Applicable(resource.policies, action, true), Applicable(resource.policies, action, false);
    var truths := PolicyTruths(w, bypasses, actor, record);
    var last := if normals == [] then Some(false) else AllOf(PolicyTruths(w, normals, actor, record));
    assert Some(true) in truths + [last] <==> Some(true) in truths || Some(true) == last;
  }

  /** The policy allows the record, and is settled on it. */
  ghost predicate ClearlyAllows(policy: Policy, w: Setting, actor: Option<Actor>, record: Record) {
    Allows(DecidingOn(w, actor, record), policy.checks) && Settled(policy.checks, w, actor, record)
  }

  /** Some bypass clearly allows the record, or there are other policies and all of them clearly do. */
  ghost predicate ClearlyAuthorized(w: Setting, resource: Resource, action: ActionDef, actor: Option<Actor>,
                                    record: Record) {
    var bypasses, normals := Applicable(resource.policies, action, true), Applicable(resource.policies, action, false);
    || resource.policies == []
    || (exists i | 0 <= i < |bypasses| :: ClearlyAllows(bypasses[i], w, actor, record))
    || (normals != [] && forall i | 0 <= i < |normals| :: ClearlyAllows(normals[i], w, actor, record))
  }

  /** Wherever the write filter matches, the record-by-record decision lets the write through; and
      the filter matches exactly where policies clearly authorize the write. So the two are the same
      exactly where a write that is authorized is clearly so, as it is wherever no applicable policy
      negates an undecided check. */
  lemma WriteFilterRefinesAuthorization(w: Setting, resource: Resource, action: ActionDef, actor: Option<Actor>,
                                        record: Record)
    ensures var matches := Eval(w, WriteFilter(resource, action, actor), record) == Some(true);
            var authorized := Authorized(DecidingOn(w, actor, record), resource, action);
            && (matches ==> authorized)
            && (matches <==> ClearlyAuthorized(w, resource, action, actor, record))
            && ((matches <==> authorized) <==> (authorized ==> ClearlyAuthorized(w, resource, action, actor, record)))
            && ((forall policy | Applies(policy, resource, action) :: NegationsDecided(policy.checks, w, actor, record))
                ==> (matches <==> authorized))
  {
    hide Eval, WriteFilter, PolicyTruths, NegationsDecided, Allows, Settled, Applicable, AllOf;
    WriteFilterMatches(w, resource, action, actor, record);
    PoliciesRefine(w, Applicable(resource.policies, action, true), actor, record);
    PoliciesRefine(w, Applicable(resource.policies, action, false), actor, record);
    if forall policy | Applies(policy, resource, action) :: NegationsDecided(policy.checks, w, actor, record) {
      DecidedNegationsAreClear(w, resource, action, actor, record);
    }
  }

  lemma DecidedNegationsAreClear(w: Setting, resource: Resource, action: ActionDef, actor: Option<Actor>,
                                 record: Record)
    requires forall policy | Applies(policy, resource, action) :: NegationsDecided(policy.checks, w, actor, record)
    ensures Authorized(DecidingOn(w, actor, record), resource, action)
            ==> ClearlyAuthorized(w, resource, action, actor, record)
  {
    hide NegationsDecided, Allows, Settled, Applicable;
    var bypasses, normals := Applicable(resource.policies, action, true), Applicable(resource.policies, action, false);
    forall policy | Applies(policy, resource, action) && Allows(DecidingOn(w, actor, record), policy.checks)
      ensures ClearlyAllows(policy, w, actor, record)
    {
      DecidedNegationsSettle(policy.checks, w, actor, record);
    }
    assert forall i | 0 <= i < |bypasses| :: Applies(bypasses[i], resource, action);
    assert forall i | 0 <= i < |normals| :: Applies(normals[i], resource, action);
  }

  lemma PoliciesRefine(w: Setting, policies: seq<Policy>, actor: Option<Actor>, record: Record)
    ensures Some(true) in PolicyTruths(w, policies, actor, record)
            <==> exists i | 0 <= i < |policies| :: ClearlyAllows(policies[i], w, actor, record)
    ensures AllOf(PolicyTruths(w, policies, actor, record)) == Some(true)
            <==> forall i | 0 <= i < |policies| :: ClearlyAllows(policies[i], w, actor, record)
  {
    hide Eval, Allows, Settled, EvalEach;
    var truths := PolicyTruths(w, policies, actor, record);
    assert |truths| == |policies|;
    forall i | 0 <= i < |policies|
      ensures truths[i] == Some(true) <==> ClearlyAllows(policies[i], w, actor, record)
    {
      PolicyTruthAt(w, policies, actor, record, i);
      EffectsFilterRefinesDecision(w, policies[i].checks, actor, record);
    }
    AllOfTrue(truths);
  }

  const UNLESS_ARCHIVED: seq<Effect> := [ForbidIf(EqCheck("status", ConstText("archived")))]
  const NO_STATUS: Record := map["status" := Null]

  lemma UndecidedNegation(w: Setting, record: Record)
    requires "status" in record && record["status"] == Null
    ensures Allows(DecidingOn(w, None, record), UNLESS_ARCHIVED)
    ensures Eval(w, EffectsToFilter(UNLESS_ARCHIVED, None), record) == None
  {
    var check := EqCheck("status", ConstText("archived"));
    assert CheckTruth(w, check, None, record) == None;
    HoldsIsTrue(w, check, None, record);
    EffectsFilterTruth(w, UNLESS_ARCHIVED, None, record);
    assert ForbidTruths(w, UNLESS_ARCHIVED, None, record) == [None];
    assert AuthorizeTruths(w, UNLESS_ARCHIVED, None, record) == [];
  }

  /** The condition is needed: a policy that forbids by a check undecided on the record lets the
      write through record by record, and its filter leaves the record out. */
  lemma UndecidedNegationSeparatesThem(w: Setting)
    ensures var resource := Resource(None, {}, map[], [Policy(false, Every, UNLESS_ARCHIVED)], [],
                                     ActionDef(Read, "read"));
            var action := ActionDef(Update, "update");
            && Authorized(DecidingOn(w, None, NO_STATUS), resource, action)
            && Eval(w, WriteFilter(resource, action, None), NO_STATUS) == None
  {
    var policy := Policy(false, Every, UNLESS_ARCHIVED);
    var resource := Resource(None, {}, map[], [policy], [], ActionDef(Read, "read"));
    var action := ActionDef(Update, "update");
    assert [policy][1..] == [] && Applicable([], action, false) == [] && Applicable([], action, true) == [];
    assert Applicable([policy], action, false) == [policy] && Applicable([policy], action, true) == [];
    UndecidedNegation(w, NO_STATUS);
    var compiled := EffectsToFilter(UNLESS_ARCHIVED, None);
    assert PolicyFilters([policy], None) == [compiled] && PolicyFilters([], None) == [];
    AndMeaning(w, [compiled], NO_STATUS);
    assert EvalEach(w, [compiled], NO_STATUS) == [None];
  }

  // ---------- without a record

  ghost predicate OnlyPositive(effects: seq<Effect>) {
    forall i | 0 <= i < |effects| :: effects[i].AuthorizeIf? || effects[i].ForbidUnless?
  }

  /** Where no policy negates a check, a write authorized before there is a record is authorized
      whatever the record turns out to be. */
  lemma AuthorizedBeforeTheRecord(w: Setting, resource: Resource, action: ActionDef, actor: Option<Actor>,
                                  record: Record)
    requires forall policy | Applies(policy, resource, action) :: OnlyPositive(policy.checks)
    requires Authorized(Deciding(w.platform, actor, None), resource, action)
    ensures Authorized(DecidingOn(w, actor, record), resource, action)
  {
    var bypasses, normals := Applicable(resource.policies, action, true), Applicable(resource.policies, action, false);
    forall policy | Applies(policy, resource, action) && Allows(Deciding(w.platform, actor, None), policy.checks)
      ensures Allows(DecidingOn(w, actor, record), policy.checks)
    {
      PositiveEffectsMonotone(w, policy.checks, actor, record);
    }
    assert forall i | 0 <= i < |bypasses| :: Applies(bypasses[i], resource, action);
    assert forall i | 0 <= i < |normals| :: Applies(normals[i], resource, action);
  }

  lemma PositiveEffectsMonotone(w: Setting, effects: seq<Effect>, actor: Option<Actor>, record: Record)
    requires OnlyPositive(effects) && Allows(Deciding(w.platform, actor, None), effects)
    ensures Allows(DecidingOn(w, actor, record), effects)
  {
    var without, with := Deciding(w.platform, actor, None), DecidingOn(w, actor, record);
    forall i | 0 <= i < |effects|
      ensures !Forbids(with, effects[i])
      ensures Authorizes(without, effects[i]) ==> Authorizes(with, effects[i])
    {
      assert !Forbids(without, effects[i]);
      HoldsIsTrue(w, effects[i].check, actor, record);
    }
  }
}
