/** Python's `round(x, 2)`, taken over exact reals: the nearest multiple of
    one cent, a tie going to the even number of cents. */
module Rounding {

  function Abs(x: real): real { if x < 0.0 then -x else x }

  /** The integer nearest to `y`; on a tie (`y` halfway between two
      integers) the even one, as Python's `round` does. */
  function RoundHalfEven(y: real): (n: int)
    ensures -0.5 <= n as real - y <= 0.5
    ensures Abs(n as real - y) == 0.5 ==> n % 2 == 0
  {
    var f := y.Floor;
    var d := y - f as real;
    if d < 0.5 then f
    else if d > 0.5 then f + 1
    else if f % 2 == 0 then f
    else f + 1
  }

  /** No integer is closer to `y` than `RoundHalfEven(y)`. */
  lemma RoundHalfEvenNearest(y: real, m: int)
    ensures Abs(RoundHalfEven(y) as real - y) <= Abs(m as real - y)
  {
    var n := RoundHalfEven(y);
    if m < n {
      assert m as real <= n as real - 1.0;
    } else if m > n {
      assert m as real >= n as real + 1.0;
    }
  }

  /** Rounding to the nearest integer never reverses an order. */
  lemma RoundHalfEvenMonotone(a: real, b: real)
    requires a <= b
    ensures RoundHalfEven(a) <= RoundHalfEven(b)
  {
  }

  /** A value that is a whole number of cents. */
  predicate WholeCents(x: real) {
    (x * 100.0).Floor as real == x * 100.0
  }

  /** `round(x, 2)`: a whole number of cents, at most half a cent away from
      `x`. */
  function Round2(x: real): (r: real)
    ensures WholeCents(r)
    ensures Abs(r - x) <= 0.005
    ensures Abs(r - x) == 0.005 ==> (r * 100.0).Floor % 2 == 0
  {
    var y := x * 100.0;
    var n := RoundHalfEven(y);
    var r := n as real / 100.0;
    assert r * 100.0 == n as real;
    assert (n as real).Floor == n;
    assert r - x == (n as real - y) / 100.0;
    assert Abs(r - x) == Abs(n as real - y) / 100.0;
    r
  }

  /** Rounding keeps a value that already is a whole number of cents. */
  lemma Round2WholeCents(x: real)
    requires WholeCents(x)
    ensures Round2(x) == x
  {
  }

  /** Rounding to cents never reverses an order. */
  lemma Round2Monotone(a: real, b: real)
    requires a <= b
    ensures Round2(a) <= Round2(b)
  {
    RoundHalfEvenMonotone(a * 100.0, b * 100.0);
  }
}
