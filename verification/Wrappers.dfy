/** Option, Result and Ordering, as the other modules use them. */
module Wrappers {

  datatype Option<+T> = None | Some(value: T) {
    function UnwrapOr(default: T): T {
      if Some? then value else default
    }
  }

  datatype Result<+T, +E> = Ok(value: T) | Err(error: E)

  /** The outcome of a three-way comparison. */
  datatype Ordering = Less | Equal | Greater {
    function Reverse(): Ordering {
      match this
      case Less => Greater
      case Equal => Equal
      case Greater => Less
    }

    /** This order, or `next` between equals. */
    function Then(next: Ordering): Ordering {
      if Equal? then next else this
    }
  }

  function CompareInt(a: int, b: int): Ordering {
    if a < b then Less else if a == b then Equal else Greater
  }
}
