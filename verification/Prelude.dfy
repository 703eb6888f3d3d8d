/** Shared by all modules: optional values, and a condition as a number. */
module Prelude {
  datatype Option<+T> = None | Some(value: T)

  function Bit(b: bool): int { if b then 1 else 0 }
}
