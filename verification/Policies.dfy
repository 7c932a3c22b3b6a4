/**
 Policies, decided record by record and compiled to filters.
 */
module Policies {
  import opened Wrappers
  import opened Values
  import opened Resources
  import opened Filters

  datatype Error = Forbidden

  // ---------- compiling checks and effects

  function CheckToFilter(check: Check, actor: Option<Actor>): Filter {
    match check
    case Always => True
    case ActorPresent => if actor.Some? then True else False
    case RelatesToActor(field) => if actor.Some? then Eq(field, Uuid(actor.value.id)) else False
    case ActorAttributeEquals(attr, value) =>
      if actor.Some? && AttributeEquals(actor.value, attr, value) then True else False
    case IsNilCheck(field) => IsNil(field)
    case EqCheck(field, value) => Eq(field, value.ToValue())
    case AndCheck(checks) => AndOf(ChecksToFilters(checks, actor))
    case OrCheck(checks) => OrOf(ChecksToFilters(checks, actor))
  }

  function ChecksToFilters(checks: seq<Check>, actor: Option<Actor>): seq<Filter> {
    if checks == [] then [] else [CheckToFilter(checks[0], actor)] + ChecksToFilters(checks[1..], actor)
  }

  /** What an effect requires not to be forbidden, and what it offers to be authorized. */
  function ForbidPart(effect: Effect, actor: Option<Actor>): seq<Filter> {
    match effect
    case ForbidIf(check) => [NotOf(CheckToFilter(check, actor))]
    case ForbidUnless(check) => [CheckToFilter(check, actor)]
    case _ => []
  }

  function AuthorizePart(effect: Effect, actor: Option<Actor>): seq<Filter> {
    match effect
    case AuthorizeIf(check) => [CheckToFilter(check, actor)]
    case AuthorizeUnless(check) => [NotOf(CheckToFilter(check, actor))]
    case _ => []
  }

  function ForbidParts(effects: seq<Effect>, actor: Option<Actor>): seq<Filter> {
    if effects == [] then [] else ForbidPart(effects[0], actor) + ForbidParts(effects[1..], actor)
  }

  function AuthorizeParts(effects: seq<Effect>, actor: Option<Actor>): seq<Filter> {
    if effects == [] then [] else AuthorizePart(effects[0], actor) + AuthorizeParts(effects[1..], actor)
  }

  /** The records `effects` allow, as a filter. */
  function EffectsToFilter(effects: seq<Effect>, actor: Option<Actor>): Filter {
    var forbids, authorizes := ForbidParts(effects, actor), AuthorizeParts(effects, actor);
    var authorized := if authorizes == [] then True else OrOf(authorizes);
    if forbids == [] then authorized else AndOf(forbids + [authorized])
  }

  lemma {:induction false} ForbidPartsConcat(a: seq<Effect>, b: seq<Effect>, actor: Option<Actor>)
    ensures ForbidParts(a + b, actor) == ForbidParts(a, actor) + ForbidParts(b, actor)
  {
    if a == [] {
      assert a + b == b;
    } else {
      assert (a + b)[1..] == a[1..] + b;
      ForbidPartsConcat(a[1..], b, actor);
    }
  }

  lemma {:induction false} AuthorizePartsConcat(a: seq<Effect>, b: seq<Effect>, actor: Option<Actor>)
    ensures AuthorizeParts(a + b, actor) == AuthorizeParts(a, actor) + AuthorizeParts(b, actor)
  {
    if a == [] {
      assert a + b == b;
    } else {
      assert (a + b)[1..] == a[1..] + b;
      AuthorizePartsConcat(a[1..], b, actor);
    }
  }

  lemma NoEffects(effects: seq<Effect>, actor: Option<Actor>)
    requires effects == []
    ensures ForbidParts(effects, actor) == [] && AuthorizeParts(effects, actor) == []
  {}

  lemma OneMoreEffect(effects: seq<Effect>, actor: Option<Actor>, i: nat)
    requires i < |effects|
    ensures ForbidParts(effects[..i + 1], actor) == ForbidParts(effects[..i], actor) + ForbidPart(effects[i], actor)
    ensures AuthorizeParts(effects[..i + 1], actor)
            == AuthorizeParts(effects[..i], actor) + AuthorizePart(effects[i], actor)
  {
    assert effects[..i + 1] == effects[..i] + [effects[i]];
    ForbidPartsConcat(effects[..i], [effects[i]], actor);
    AuthorizePartsConcat(effects[..i], [effects[i]], actor);
    assert ForbidParts([effects[i]], actor) == ForbidPart(effects[i], actor);
    assert AuthorizeParts([effects[i]], actor) == AuthorizePart(effects[i], actor);
  }

  method CompileEffects(effects: seq<Effect>, actor: Option<Actor>) returns (f: Filter)
    ensures f == EffectsToFilter(effects, actor)
  {
    hide ForbidParts, AuthorizeParts, AndOf, OrOf, CheckToFilter, NotOf;
    var forbids: seq<Filter>, authorizes: seq<Filter> := [], [];
    NoEffects(effects[..0], actor);
    for i := 0 to |effects|
      invariant forbids == ForbidParts(effects[..i], actor)
      invariant authorizes == AuthorizeParts(effects[..i], actor)
    {
      OneMoreEffect(effects, actor, i);
      match effects[i] {
        case ForbidIf(check) => forbids := forbids + [NotOf(CheckToFilter(check, actor))];
        case ForbidUnless(check) => forbids := forbids + [CheckToFilter(check, actor)];
        case AuthorizeIf(check) => authorizes := authorizes + [CheckToFilter(check, actor)];
        case AuthorizeUnless(check) => authorizes := authorizes + [NotOf(CheckToFilter(check, actor))];
      }
    }
    assert effects[..|effects|] == effects;
    var authorized := True;
    if authorizes != [] {
      authorized := BuildOr(authorizes);
    }
    if forbids == [] {
      return authorized;
    }
    f := BuildAnd(forbids + [authorized]);
  }

  // ---------- deciding on one record

  /** Checks on a record are decided without a resource: unknown does not hold. Without a
      record, only a check that holds of every record does. */
  ghost predicate Holds(p: Platform, check: Check, actor: Option<Actor>, record: Option<Record>) {
    var f := CheckToFilter(check, actor);
    if record.Some? then Eval(Bare(p), f, record.value) == Some(true) else f == True
  }

  function Bare(p: Platform): Setting {
    Setting(p, map[], None)
  }

  /** How checks come out on the record at hand. */
  type Decision = Check -> bool

  ghost function Deciding(p: Platform, actor: Option<Actor>, record: Option<Record>): Decision {
    (check: Check) => Holds(p, check, actor, record)
  }

  predicate Forbids(holds: Decision, effect: Effect) {
    match effect
    case ForbidIf(check) => holds(check)
    case ForbidUnless(check) => !holds(check)
    case _ => false
  }

  predicate Authorizes(holds: Decision, effect: Effect) {
    match effect
    case AuthorizeIf(check) => holds(check)
    case AuthorizeUnless(check) => !holds(check)
    case _ => false
  }

  predicate Authorizing(effect: Effect) {
    effect.AuthorizeIf? || effect.AuthorizeUnless?
  }

  /** Nothing forbids, and something authorizes if anything could. */
  predicate Allows(holds: Decision, effects: seq<Effect>) {
    && (forall i | 0 <= i < |effects| :: !Forbids(holds, effects[i]))
    && ((exists i | 0 <= i < |effects| :: Authorizing(effects[i]))
        ==> exists i | 0 <= i < |effects| :: Authorizes(holds, effects[i]))
  }

  method DecideEffects(holds: Decision, effects: seq<Effect>) returns (allowed: bool)
    ensures allowed <==> Allows(holds, effects)
  {
    for i := 0 to |effects|
      invariant forall j | 0 <= j < i :: !Forbids(holds, effects[j])
    {
      match effects[i] {
        case ForbidIf(check) => if holds(check) { return false; }
        case ForbidUnless(check) => if !holds(check) { return false; }
        case _ =>
      }
    }
    var hasAuthorizes := false;
    for i := 0 to |effects|
      invariant forall j | 0 <= j < i :: !Authorizes(holds, effects[j])
      invariant hasAuthorizes <==> exists j | 0 <= j < i :: Authorizing(effects[j])
    {
      match effects[i] {
        case AuthorizeIf(check) =>
          hasAuthorizes := true;
          if holds(check) { return true; }
        case AuthorizeUnless(check) =>
          hasAuthorizes := true;
          if !holds(check) { return true; }
        case _ =>
      }
    }
    return !hasAuthorizes;
  }

  // ---------- resources' policies

  function Applicable(policies: seq<Policy>, action: ActionDef, bypass: bool): seq<Policy> {
    if policies == [] then []
    else (if policies[0].when.Matches(action) && policies[0].bypass == bypass then [policies[0]] else [])
         + Applicable(policies[1..], action, bypass)
  }

  function PolicyFilters(policies: seq<Policy>, actor: Option<Actor>): (filters: seq<Filter>)
    ensures |filters| == |policies|
  {
    if policies == [] then []
    else [EffectsToFilter(policies[0].checks, actor)] + PolicyFilters(policies[1..], actor)
  }

  /** The records the actor may run the write `action` on. */
  function WriteFilter(resource: Resource, action: ActionDef, actor: Option<Actor>): Filter {
    var bypasses, normals := Applicable(resource.policies, action, true), Applicable(resource.policies, action, false);
    if resource.policies == [] then True
    else if bypasses == [] && normals == [] then False
    else
      var bypass := PolicyFilters(bypasses, actor);
      var normal := if normals == [] then False else AndOf(PolicyFilters(normals, actor));
      if bypass == [] then normal else OrOf(bypass + [normal])
  }

  /** The records the actor may read: `None` where that is every one. */
  function ReadFilter(resource: Resource, action: ActionDef, actor: Option<Actor>): Result<Option<Filter>, Error> {
    var bypasses, normals := Applicable(resource.policies, action, true), Applicable(resource.policies, action, false);
    var bypass, normal := PolicyFilters(bypasses, actor), PolicyFilters(normals, actor);
    if resource.policies == [] then Ok(None)
    else if bypasses == [] && normals == [] then Err(Forbidden)
    else if True in bypass then Ok(None)
    else if normals == [] then Ok(Some(OrOf(bypass)))
    else if bypass == [] then Ok(Some(AndOf(normal)))
    else Ok(Some(OrOf([OrOf(bypass), AndOf(normal)])))
  }

  lemma {:induction false} PolicyFiltersAt(policies: seq<Policy>, actor: Option<Actor>, i: nat)
    requires i < |policies|
    ensures PolicyFilters(policies, actor)[i] == EffectsToFilter(policies[i].checks, actor)
  {
    if i > 0 {
      PolicyFiltersAt(policies[1..], actor, i - 1);
    }
  }

  lemma {:induction false} PolicyFiltersConcat(a: seq<Policy>, b: seq<Policy>, actor: Option<Actor>)
    ensures PolicyFilters(a + b, actor) == PolicyFilters(a, actor) + PolicyFilters(b, actor)
  {
    if a == [] {
      assert a + b == b;
    } else {
      assert (a + b)[1..] == a[1..] + b;
      PolicyFiltersConcat(a[1..], b, actor);
    }
  }

  /** The bypasses' filters, or `None` as soon as one lets every record through. */
  method CompileBypasses(policies: seq<Policy>, actor: Option<Actor>) returns (filters: Option<seq<Filter>>)
    ensures filters == var all := PolicyFilters(policies, actor); if True in all then None else Some(all)
  {
    hide EffectsToFilter;
    var compiled: seq<Filter> := [];
    for i := 0 to |policies|
      invariant compiled == PolicyFilters(policies[..i], actor)
      invariant True !in compiled
    {
      assert policies[..i + 1] == policies[..i] + [policies[i]];
      PolicyFiltersConcat(policies[..i], [policies[i]], actor);
      assert PolicyFilters([policies[i]], actor) == [EffectsToFilter(policies[i].checks, actor)];
      var f := CompileEffects(policies[i].checks, actor);
      if f == True {
        PolicyFiltersAt(policies, actor, i);
        assert True in PolicyFilters(policies, actor);
        return None;
      }
      compiled := compiled + [f];
    }
    assert policies[..|policies|] == policies;
    return Some(compiled);
  }

  method CompilePolicies(policies: seq<Policy>, actor: Option<Actor>) returns (filters: seq<Filter>)
    ensures filters == PolicyFilters(policies, actor)
  {
    hide EffectsToFilter;
    filters := [];
    for i := 0 to |policies|
      invariant filters == PolicyFilters(policies[..i], actor)
    {
      assert policies[..i + 1] == policies[..i] + [policies[i]];
      PolicyFiltersConcat(policies[..i], [policies[i]], actor);
      assert PolicyFilters([policies[i]], actor) == [EffectsToFilter(policies[i].checks, actor)];
      var f := CompileEffects(policies[i].checks, actor);
      filters := filters + [f];
    }
    assert policies[..|policies|] == policies;
  }

  method CompileReadFilter(resource: Resource, action: ActionDef, actor: Option<Actor>)
    returns (r: Result<Option<Filter>, Error>)
    ensures r == ReadFilter(resource, action, actor)
  {
    if resource.policies == [] {
      return Ok(None);
    }
    var bypasses, normals := Applicable(resource.policies, action, true), Applicable(resource.policies, action, false);
    if bypasses == [] && normals == [] {
      return Err(Forbidden);
    }
    var compiled := CompileBypasses(bypasses, actor);
    if compiled == None {
      return Ok(None);
    }
    var bypass := compiled.value;
    if normals == [] {
      var f := BuildOr(bypass);
      return Ok(Some(f));
    }
    var parts := CompilePolicies(normals, actor);
    var normal := BuildAnd(parts);
    if bypass == [] {
      return Ok(Some(normal));
    }
    var combined := BuildOr(bypass);
    var f := BuildOr([combined, normal]);
    return Ok(Some(f));
  }

  /** A write is authorized by any bypass, or by every other policy if there is one. */
  predicate Authorized(holds: Decision, resource: Resource, action: ActionDef) {
    var bypasses, normals := Applicable(resource.policies, action, true), Applicable(resource.policies, action, false);
    || resource.policies == []
    || (exists i | 0 <= i < |bypasses| :: Allows(holds, bypasses[i].checks))
    || (normals != [] && forall i | 0 <= i < |normals| :: Allows(holds, normals[i].checks))
  }

  method AuthorizeWrite(holds: Decision, resource: Resource, action: ActionDef) returns (r: Result<(), Error>)
    ensures r == if Authorized(holds, resource, action) then Ok(()) else Err(Forbidden)
  {
    if resource.policies == [] {
      return Ok(());
    }
    var bypasses, normals := Applicable(resource.policies, action, true), Applicable(resource.policies, action, false);
    if bypasses == [] && normals == [] {
      return Err(Forbidden);
    }
    for i := 0 to |bypasses|
      invariant forall j | 0 <= j < i :: !Allows(holds, bypasses[j].checks)
    {
      var allowed := DecideEffects(holds, bypasses[i].checks);
      if allowed {
        return Ok(());
      }
    }
    if normals == [] {
      return Err(Forbidden);
    }
    for i := 0 to |normals|
      invariant forall j | 0 <= j < i :: Allows(holds, normals[j].checks)
    {
      var allowed := DecideEffects(holds, normals[i].checks);
      if !allowed {
        return Err(Forbidden);
      }
    }
    return Ok(());
  }
}
