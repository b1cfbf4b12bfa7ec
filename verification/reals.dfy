/**
 Real-number helpers shared by the geometry. Coordinates are Dafny `real`s; IEEE-754
 rounding is not modelled. The square root is left uninterpreted: every operation that
 needs one takes it as a parameter `sqrt`, and the lemmas that rely on its law require
 `IsSqrt(sqrt)`, i.e. `sqrt(x) >= 0` and `sqrt(x) * sqrt(x) == x` for `x >= 0`.
 */
module Reals {

  /** `sqrt(x)` is a non-negative number whose square is `x`. */
  ghost predicate SqrtAt(sqrt: real -> real, x: real) {
    0.0 <= sqrt(x) && sqrt(x) * sqrt(x) == x
  }

  /** The law of the square root on every non-negative argument. */
  ghost predicate IsSqrt(sqrt: real -> real) {
    forall x :: 0.0 <= x ==> SqrtAt(sqrt, x)
  }

  function Abs(x: real): real {
    if x < 0.0 then -x else x
  }

  function Min(a: real, b: real): real {
    if a <= b then a else b
  }

  function Max(a: real, b: real): real {
    if a >= b then a else b
  }

  /** The squared length of a vector. */
  function SqLen(x: real, y: real): (q: real)
    ensures q >= 0.0
  {
    x * x + y * y
  }

  /** JavaScript's `Math.round`: the nearest integer, halves rounded up. */
  function Round(x: real): (n: int)
    ensures x - 0.5 < n as real <= x + 0.5
  {
    (x + 0.5).Floor
  }

  /** Squaring is strictly increasing on the non-negative reals. */
  lemma SquareLess(a: real, b: real)
    requires 0.0 <= a < b
    ensures a * a < b * b
  {
    var d := b - a;
    assert b * b == a * a + d * (a + b);
    assert 0.0 < d * (a + b);
  }

  lemma SquareZero(a: real)
    ensures a * a == 0.0 <==> a == 0.0
  {
    if a < 0.0 {
      SquareLess(0.0, -a);
    } else if a > 0.0 {
      SquareLess(0.0, a);
    }
  }

  /** Two non-negative reals with the same square are equal. */
  lemma SquareInjective(a: real, b: real)
    requires 0.0 <= a && 0.0 <= b && a * a == b * b
    ensures a == b
  {
    if a < b {
      SquareLess(a, b);
    } else if b < a {
      SquareLess(b, a);
    }
  }

  /** The square root of a square is the absolute value. */
  lemma SqrtOfSquare(sqrt: real -> real, a: real)
    requires IsSqrt(sqrt)
    ensures sqrt(a * a) == Abs(a)
  {
    var s := sqrt(a * a);
    assert SqrtAt(sqrt, a * a);
    SquareInjective(s, Abs(a));
  }

  /** The square root is zero exactly at zero. */
  lemma SqrtZeroIff(sqrt: real -> real, x: real)
    requires IsSqrt(sqrt) && 0.0 <= x
    ensures sqrt(x) == 0.0 <==> x == 0.0
  {
    var s := sqrt(x);
    assert SqrtAt(sqrt, x);
    if x == 0.0 {
      SquareInjective(s, 0.0);
    }
  }

  /** Comparing a square root with a non-negative bound is comparing squares. */
  lemma SqrtLess(sqrt: real -> real, x: real, c: real)
    requires IsSqrt(sqrt) && 0.0 <= x && 0.0 <= c
    ensures sqrt(x) < c <==> x < c * c
  {
    var s := sqrt(x);
    assert SqrtAt(sqrt, x);
    if s < c {
      SquareLess(s, c);
    } else if c < s {
      SquareLess(c, s);
    }
  }
}
