/** What several modules share: an optional value, and the smaller and larger of two numbers. */
module Wrappers {

  datatype Option<+T> = None | Some(value: T)

  function Min(a: real, b: real): real { if a <= b then a else b }

  function Max(a: real, b: real): real { if a >= b then a else b }
}
