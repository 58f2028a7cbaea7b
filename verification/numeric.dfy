/** Numeric conversions the C# source performs implicitly. */
module Numeric {

  /** C#'s explicit `(int)` cast of a floating-point value: truncation toward
      zero (Dafny's `Floor` rounds toward negative infinity instead). */
  function Trunc(r: real): (n: int)
    ensures 0.0 <= r ==> n as real <= r < n as real + 1.0
    ensures r < 0.0 ==> n as real - 1.0 < r <= n as real
  {
    if r >= 0.0 then r.Floor else -((-r).Floor)
  }

  /** Truncating a whole number gives that number back. */
  lemma TruncOfInt(k: int)
    ensures Trunc(k as real) == k
  {
  }
}
