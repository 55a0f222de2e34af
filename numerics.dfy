/**
 * Arithmetic the C# source gets from its runtime: integer casts of floating values,
 * Mathf.RoundToInt, clamping and sums of frame deltas. Floating values are modelled
 * as exact reals; float rounding is not modelled.
 */
module Numerics {

  function Max(a: int, b: int): int
  {
    if a >= b then a else b
  }

  function Min(a: int, b: int): int
  {
    if a <= b then a else b
  }

  function MaxReal(a: real, b: real): real
  {
    if a >= b then a else b
  }

  /** Mathf.Clamp on floats. */
  function Clamp(x: real, lo: real, hi: real): (r: real)
    requires lo <= hi
    ensures lo <= r <= hi
    ensures lo <= x <= hi ==> r == x
    ensures x < lo ==> r == lo
    ensures hi < x ==> r == hi
  {
    if x < lo then lo else if hi < x then hi else x
  }

  /** C#'s `(int)` conversion of a floating value: the fraction is dropped, toward zero. */
  function TruncateTowardZero(x: real): (n: int)
    ensures 0.0 <= x ==> n as real <= x < n as real + 1.0
    ensures x < 0.0 ==> n as real - 1.0 < x <= n as real
  {
    if x >= 0.0 then x.Floor else -((-x).Floor)
  }

  lemma TruncateTowardZeroMonotone(x: real, y: real)
    requires x <= y
    ensures TruncateTowardZero(x) <= TruncateTowardZero(y)
  {
  }

  /** Scaling by a non-negative factor keeps order. */
  lemma ScaleMonotone(a: real, b: real, k: real)
    requires a <= b && 0.0 <= k
    ensures a * k <= b * k
  {
    var d := b - a;
    assert d * k >= 0.0;
    assert b * k == a * k + d * k;
  }

  /** Mathf.RoundToInt: nearest integer, a tie goes to the even neighbour. */
  function RoundHalfToEven(x: real): (n: int)
    ensures -0.5 <= x - n as real <= 0.5
    ensures (x - n as real == 0.5 || n as real - x == 0.5) ==> n % 2 == 0
  {
    var f := x.Floor;
    var frac := x - f as real;
    if frac < 0.5 then f
    else if frac > 0.5 then f + 1
    else if f % 2 == 0 then f
    else f + 1
  }

  /** The smallest integer at or above x. */
  function Ceiling(x: real): (n: int)
    ensures n as real - 1.0 < x <= n as real
  {
    if x.Floor as real == x then x.Floor else x.Floor + 1
  }

  /** Sum of a run of frame deltas, first to last. */
  function Sum(ds: seq<real>): real
  {
    if |ds| == 0 then 0.0 else ds[0] + Sum(ds[1..])
  }

  predicate AllNonNegative(ds: seq<real>)
  {
    forall i :: 0 <= i < |ds| ==> ds[i] >= 0.0
  }

  /** Frames never run backwards: a run of non-negative deltas has a non-negative total. */
  lemma {:induction false} SumNonNegative(ds: seq<real>)
    requires AllNonNegative(ds)
    ensures Sum(ds) >= 0.0
    decreases |ds|
  {
    if |ds| > 0 {
      SumNonNegative(ds[1..]);
    }
  }
}
