/** The parts of `java.lang.Math` the calculator uses, over exact reals. */
module Numerics {

  /** `Math.PI`. */
  const Pi: real := 3.141592653589793

  /** `Math.sqrt` and `Math.pow(x, 1/4)`. They are library code outside the
      model, so a calculation receives them as values; `Valid` states what the
      library guarantees for non-negative arguments. Negative arguments give NaN
      in Java and are left unconstrained here. */
  datatype MathLib = MathLib(sqrt: real -> real, fourthRoot: real -> real) {

    ghost predicate Valid() {
      && (forall x :: x >= 0.0 ==> sqrt(x) >= 0.0 && sqrt(x) * sqrt(x) == x)
      && (forall x :: x >= 0.0 ==> fourthRoot(x) >= 0.0 && Pow4(fourthRoot(x)) == x)
    }
  }

  /** `Math.pow(x, 3)`. */
  function Cube(x: real): real {
    x * x * x
  }

  /** `Math.pow(x, 4)`. */
  function Pow4(x: real): real {
    x * x * x * x
  }

  /** Division `a / b`. Java yields an infinity or NaN for `b == 0`; those values
      are not modelled and the quotient is 0 there. */
  function Quotient(a: real, b: real): (q: real)
    ensures b != 0.0 ==> q * b == a
  {
    if b == 0.0 then 0.0 else a / b
  }

  /** `Math.round(x)`: the closest integer, ties rounding up. */
  function Round(x: real): (n: int)
    ensures x - 0.5 < n as real <= x + 0.5
  {
    (x + 0.5).Floor
  }

  /** Rounding to two decimals: `Math.round(x * 100.0) / 100.0`. */
  function RoundHundredths(x: real): (r: real)
    ensures x - 0.005 < r <= x + 0.005
    ensures (r * 100.0).Floor as real == r * 100.0
  {
    Round(x * 100.0) as real / 100.0
  }

  /** Rounding an already rounded value changes nothing. */
  lemma RoundHundredthsIdempotent(x: real)
    ensures RoundHundredths(RoundHundredths(x)) == RoundHundredths(x)
  {
    var n := Round(x * 100.0);
    assert RoundHundredths(x) * 100.0 == n as real;
    assert Round(n as real) == n;
  }

  /** Multiplying by a non-negative factor keeps an ordering. */
  lemma MulMonotonic(p: real, q: real, r: real)
    requires p <= q && r >= 0.0
    ensures p * r <= q * r && r * p <= r * q
  {
  }

  /** Multiplying by a positive factor keeps a strict ordering. */
  lemma MulStrictlyMonotonic(p: real, q: real, r: real)
    requires p < q && r > 0.0
    ensures p * r < q * r && r * p < r * q
  {
  }

  /** Squaring is strictly monotonic on non-negative reals. */
  lemma SquareStrictlyMonotonic(a: real, b: real)
    requires 0.0 <= a < b
    ensures a * a < b * b
  {
    MulStrictlyMonotonic(0.0, b - a, b + a);
    assert (b - a) * (b + a) == b * b - a * a;
  }

  /** The library square root of a square is the non-negative base. */
  lemma SqrtOfSquare(lib: MathLib, x: real)
    requires lib.Valid()
    requires x >= 0.0
    ensures lib.sqrt(x * x) == x
  {
    var s := lib.sqrt(x * x);
    assert s >= 0.0 && s * s == x * x;
    if s < x {
      SquareStrictlyMonotonic(s, x);
    } else if x < s {
      SquareStrictlyMonotonic(x, s);
    }
  }

  /** The library square root is monotonic on non-negative arguments. */
  lemma SqrtMonotonic(lib: MathLib, a: real, b: real)
    requires lib.Valid()
    requires 0.0 <= a <= b
    ensures lib.sqrt(a) <= lib.sqrt(b)
  {
    var sa, sb := lib.sqrt(a), lib.sqrt(b);
    assert sa >= 0.0 && sb >= 0.0 && sa * sa == a && sb * sb == b;
    if sb < sa {
      SquareStrictlyMonotonic(sb, sa);
    }
  }

  /** x^4 is strictly monotonic on non-negative reals. */
  lemma Pow4StrictlyMonotonic(a: real, b: real)
    requires 0.0 <= a < b
    ensures Pow4(a) < Pow4(b)
  {
    SquareStrictlyMonotonic(a, b);
    SquareStrictlyMonotonic(a * a, b * b);
    assert Pow4(a) == (a * a) * (a * a);
    assert Pow4(b) == (b * b) * (b * b);
  }

  /** x^4 depends only on the magnitude of x. */
  lemma Pow4Even(a: real)
    ensures Pow4(-a) == Pow4(a)
  {
  }

  /** x^3 is monotonic on non-negative reals. */
  lemma CubeMonotonic(a: real, b: real)
    requires 0.0 <= a <= b
    ensures Cube(a) <= Cube(b)
  {
    MulMonotonic(a, b, a);
    MulMonotonic(a, b, b);
    assert a * a <= b * b;
    MulMonotonic(a * a, b * b, a);
    MulMonotonic(a, b, b * b);
  }
}
