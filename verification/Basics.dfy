/** What several components share: optional values and bounded arithmetic. */
module Basics {

  datatype Option<+T> = None | Some(value: T)

  function Min(a: int, b: int): int { if a <= b then a else b }

  function Max(a: int, b: int): int { if a >= b then a else b }

  /** Saturating subtraction. */
  function Minus(a: nat, b: nat): nat { if a <= b then 0 else a - b }
}
