/** Shared vocabulary: JavaScript's `undefined` as an Option, and the Math helpers the game uses. */
module Util {

  /** A value that may be absent (`undefined` in the source). */
  datatype Option<+T> = None | Some(value: T)

  /** `Math.min` on two numbers. */
  function Min(a: real, b: real): real
  {
    if a <= b then a else b
  }

  /** `Math.max` on two numbers. */
  function Max(a: real, b: real): real
  {
    if a >= b then a else b
  }

  /** No element occurs twice. */
  ghost predicate Distinct<T>(s: seq<T>)
  {
    forall i, j :: 0 <= i < j < |s| ==> s[i] != s[j]
  }
}
