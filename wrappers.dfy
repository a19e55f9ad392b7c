/** Small shared datatypes and helpers used by the page models. */
module Wrappers {

  /** A value that may be absent: JavaScript's `null` / `undefined`. */
  datatype Option<+T> = None | Some(value: T)

  /** `Math.abs`. */
  function Abs(x: real): real { if x < 0.0 then -x else x }

  /** `Math.max` of two numbers. */
  function MaxReal(a: real, b: real): real { if a >= b then a else b }
}
