/**
 The expressions a resource declares for its calculations and `atomic_update` changes, and their
 evaluation on a record that has been read.
 */
module Expressions {
  import opened Wrappers
  import opened TextOrder
  import opened Values
  import opened Arithmetic

  datatype Comparison = Eq | Ne | Gt | Gte | Lt | Lte

  datatype Expr =
    | Field(name: string)
    | Arg(name: string)
    | LitInt(n: int)
    | LitString(text: string)
    | LitBool(b: bool)
    | Nil
    | StringLength(name: string)
    | Length(operand: Expr)
    | Lower(operand: Expr)
    | Upper(operand: Expr)
    | Concat(parts: seq<Expr>)
    | Coalesce(parts: seq<Expr>)
    | Computed(operation: Operation, left: Expr, right: Expr)
    | Compared(comparison: Comparison, left: Expr, right: Expr)
    | IfElse(condition: Expr, then_: Expr, otherwise: Expr)
    | Custom(call: Record -> Result<Value, string>)

  /** Changing the case of text, and showing a value as text. */
  datatype Platform = Platform(lower: string -> string, upper: string -> string, display: Value -> string)

  /** Only Rust can compute it: it calls a custom function. */
  predicate IsCustom(e: Expr) {
    match e
    case Custom(_) => true
    case Length(a) => IsCustom(a)
    case Lower(a) => IsCustom(a)
    case Upper(a) => IsCustom(a)
    case Concat(parts) => exists i | 0 <= i < |parts| :: IsCustom(parts[i])
    case Coalesce(parts) => exists i | 0 <= i < |parts| :: IsCustom(parts[i])
    case Computed(_, a, b) => IsCustom(a) || IsCustom(b)
    case Compared(_, a, b) => IsCustom(a) || IsCustom(b)
    case IfElse(condition, a, b) => IsCustom(condition) || IsCustom(a) || IsCustom(b)
    case _ => false
  }

  // ---------- on values

  function LengthOf(v: Value, what: string): Result<Value, string> {
    match v
    case Null => Ok(Null)
    case Text(text) => Ok(Int(|text|))
    case _ => Err(what)
  }

  function Recased(v: Value, recase: string -> string, what: string): Result<Value, string> {
    match v
    case Null => Ok(Null)
    case Text(text) => Ok(Text(recase(text)))
    case _ => Err(what)
  }

  /** Nil and values of the other kinds are left out. */
  function Shown(p: Platform, v: Value): string {
    match v
    case Text(text) => text
    case Int(_) => p.display(v)
    case Bool(_) => p.display(v)
    case Uuid(_) => p.display(v)
    case _ => ""
  }

  function Joined(p: Platform, values: seq<Value>): string {
    if values == [] then [] else Shown(p, values[0]) + Joined(p, values[1..])
  }

  function NameOf(operation: Operation): string {
    match operation
    case Add => "add"
    case Sub => "sub"
    case Mul => "mul"
    case Div => "div"
  }

  function Calculated(operation: Operation, x: Value, y: Value): Result<Value, string> {
    if x.Int? && y.Int? then
      var n := Calculate(operation, x.n, y.n);
      Ok(if n.Some? then Int(n.value) else Null)
    else if operation == Add && x.Text? && y.Text? then Ok(Text(x.text + y.text))
    else if x == Null || y == Null then Ok(Null)
    else Err(NameOf(operation))
  }

  /** Two integers, or two texts, have an order; no other values do. */
  function OrderOf(x: Value, y: Value): Option<Ordering> {
    if x.Int? && y.Int? then Some(CompareInt(x.n, y.n))
    else if x.Text? && y.Text? then Some(CompareText(x.text, y.text))
    else None
  }

  /** Every comparison is true or false, of nil too. */
  predicate Holds(comparison: Comparison, x: Value, y: Value) {
    match comparison
    case Eq => x == y
    case Ne => x != y
    case Gt => OrderOf(x, y) == Some(Greater)
    case Gte => OrderOf(x, y) == Some(Greater) || OrderOf(x, y) == Some(Equal)
    case Lt => OrderOf(x, y) == Some(Less)
    case Lte => OrderOf(x, y) == Some(Less) || OrderOf(x, y) == Some(Equal)
  }

  // ---------- evaluation

  /** The value on these fields and arguments, or the name under which a type mismatch is reported. */
  function Evaluate(p: Platform, e: Expr, fields: Record, arguments: Record): Result<Value, string>
    decreases e, 1
  {
    match e
    case Field(name) => Ok(Get(fields, name))
    case Arg(name) => Ok(Get(arguments, name))
    case LitInt(n) => Ok(Int(n))
    case LitString(text) => Ok(Text(text))
    case LitBool(b) => Ok(Bool(b))
    case Nil => Ok(Null)
    case StringLength(name) => LengthOf(Get(fields, name), name)
    case Length(a) =>
      var v := Evaluate(p, a, fields, arguments);
      if v.Err? then v else LengthOf(v.value, "length")
    case Lower(a) =>
      var v := Evaluate(p, a, fields, arguments);
      if v.Err? then v else Recased(v.value, p.lower, "lower")
    case Upper(a) =>
      var v := Evaluate(p, a, fields, arguments);
      if v.Err? then v else Recased(v.value, p.upper, "upper")
    case Concat(parts) =>
      (match EvaluateEach(p, parts, fields, arguments)
       case Err(error) => Err(error)
       case Ok(values) => Ok(Text(Joined(p, values))))
    case Coalesce(parts) => FirstKnown(p, parts, fields, arguments)
    case Computed(operation, a, b) =>
      var x, y := Evaluate(p, a, fields, arguments), Evaluate(p, b, fields, arguments);
      if x.Err? then x else if y.Err? then y else Calculated(operation, x.value, y.value)
    case Compared(comparison, a, b) =>
      var x, y := Evaluate(p, a, fields, arguments), Evaluate(p, b, fields, arguments);
      if x.Err? then x else if y.Err? then y else Ok(Bool(Holds(comparison, x.value, y.value)))
    case IfElse(condition, a, b) =>
      var c := Evaluate(p, condition, fields, arguments);
      if c.Err? then c
      else if c.value == Bool(true) then Evaluate(p, a, fields, arguments)
      else Evaluate(p, b, fields, arguments)
    case Custom(call) => call(fields)
  }

  function EvaluateEach(p: Platform, parts: seq<Expr>, fields: Record, arguments: Record): Result<seq<Value>, string>
    decreases parts, 0
  {
    if parts == [] then Ok([])
    else
      var first := Evaluate(p, parts[0], fields, arguments);
      if first.Err? then Err(first.error)
      else match EvaluateEach(p, parts[1..], fields, arguments)
           case Err(error) => Err(error)
           case Ok(rest) => Ok([first.value] + rest)
  }

  /** The first value that is not nil; the parts after it are not evaluated. */
  function FirstKnown(p: Platform, parts: seq<Expr>, fields: Record, arguments: Record): Result<Value, string>
    decreases parts, 0
  {
    if parts == [] then Ok(Null)
    else
      var first := Evaluate(p, parts[0], fields, arguments);
      if first == Ok(Null) then FirstKnown(p, parts[1..], fields, arguments) else first
  }
}
