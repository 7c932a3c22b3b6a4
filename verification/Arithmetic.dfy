/** The arithmetic of 64-bit integers that both evaluators of expressions do, without its overflow. */
module Arithmetic {
  import opened Wrappers

  datatype Operation = Add | Sub | Mul | Div

  /** Division as the source's integers divide: towards zero. */
  function Truncated(x: int, y: int): int
    requires y != 0
  {
    Sign(x) * Sign(y) * (Magnitude(x) / Magnitude(y))
  }

  function Magnitude(x: int): nat {
    if x < 0 then -x else x
  }

  function Sign(x: int): int {
    if x < 0 then -1 else 1
  }

  /** Dividing by zero gives nothing. */
  function Calculate(operation: Operation, x: int, y: int): Option<int> {
    match operation
    case Add => Some(x + y)
    case Sub => Some(x - y)
    case Mul => Some(x * y)
    case Div => if y == 0 then None else Some(Truncated(x, y))
  }
}
