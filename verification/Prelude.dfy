/** Shared datatypes. */
module Prelude {
  datatype Option<+T> = None | Some(value: T)

  function Min(a: real, b: real): real {
    if a <= b then a else b
  }

  function Max(a: real, b: real): real {
    if a >= b then a else b
  }
}
