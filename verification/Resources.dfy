/** What a resource declares, as far as its policies and filters read it. */
module Resources {
  import opened Wrappers
  import opened Values

  datatype Actor = Actor(id: nat, attributes: map<string, Value>)

  datatype Const = ConstNull | ConstBool(b: bool) | ConstInt(n: int) | ConstText(text: string) {
    function ToValue(): Value {
      match this
      case ConstNull => Null
      case ConstBool(b) => Bool(b)
      case ConstInt(n) => Int(n)
      case ConstText(text) => Text(text)
    }
  }

  datatype Check =
    | Always
    | ActorPresent
    | RelatesToActor(field: string)
    | ActorAttributeEquals(attr: string, value: Const)
    | IsNilCheck(field: string)
    | EqCheck(field: string, value: Const)
    | AndCheck(checks: seq<Check>)
    | OrCheck(checks: seq<Check>)

  datatype Effect =
    | AuthorizeIf(check: Check)
    | AuthorizeUnless(check: Check)
    | ForbidIf(check: Check)
    | ForbidUnless(check: Check)

  datatype ActionKind = Read | Create | Update | Destroy | Generic

  datatype ActionDef = ActionDef(kind: ActionKind, name: string)

  datatype When = Every | OfKind(kind: ActionKind) | Named(name: string) {
    predicate Matches(action: ActionDef) {
      match this
      case Every => true
      case OfKind(kind) => action.kind == kind
      case Named(name) => action.name == name
    }
  }

  datatype Policy = Policy(bypass: bool, when: When, checks: seq<Effect>)

  datatype FieldPolicy = FieldPolicy(field: string, checks: seq<Effect>)

  /** `ciFields` are the attributes and calculations whose text ignores case. */
  datatype Resource = Resource(
    primaryKey: Option<string>,
    ciFields: set<string>,
    relationships: map<string, string>,
    policies: seq<Policy>,
    fieldPolicies: seq<FieldPolicy>,
    defaultRead: ActionDef)

  /** The resources by name. */
  type Schema = map<string, Resource>

  function Related(schema: Schema, resource: Option<Resource>, relationship: string): Option<Resource> {
    if && resource.Some? && relationship in resource.value.relationships
       && resource.value.relationships[relationship] in schema
    then Some(schema[resource.value.relationships[relationship]])
    else None
  }

  /** An attribute equals an expected constant of the same type. */
  predicate AttributeEquals(actor: Actor, attr: string, expected: Const) {
    attr in actor.attributes && actor.attributes[attr] == expected.ToValue()
  }
}
