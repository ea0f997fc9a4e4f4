/**
  Integer operators of Python 2 that the tiling code relies on, written out
  because Dafny's own `/` and `%` are Euclidean.
 */
module PyArith {

  /** Python's integer `a / b` (Python 2) or `a // b`: the quotient rounded toward negative infinity. */
  function FloorDiv(a: int, b: int): int
    requires b != 0
  {
    if b > 0 then a / b else (-a) / (-b)
  }

  /** Python's `a % b`, the remainder `a - b * (a // b)`. */
  function FloorMod(a: int, b: int): int
    requires b != 0
  {
    if b > 0 then a % b else -((-a) % (-b))
  }

  /** The floor quotient is the largest `q` with `b * q` not past `a`, on the side of `b`'s sign. */
  lemma FloorDivBounds(a: int, b: int)
    requires b != 0
    ensures b > 0 ==> b * FloorDiv(a, b) <= a < b * FloorDiv(a, b) + b
    ensures b < 0 ==> b * FloorDiv(a, b) + b < a <= b * FloorDiv(a, b)
  {
  }

  /**
    The remainder takes the sign of the divisor and is zero exactly when
    `b` divides `a`, which is what Dafny's `a % b == 0` says too.
   */
  lemma FloorModSign(a: int, b: int)
    requires b != 0
    ensures a == b * FloorDiv(a, b) + FloorMod(a, b)
    ensures b > 0 ==> 0 <= FloorMod(a, b) < b
    ensures b < 0 ==> b < FloorMod(a, b) <= 0
    ensures FloorMod(a, b) == 0 <==> a % b == 0
  {
    FloorDivBounds(a, b);
    DivisibleIff(a, b, FloorDiv(a, b), FloorMod(a, b));
  }

  /** A remainder of zero in Python means the same as one in Dafny: `b` divides `a`. */
  lemma DivisibleIff(a: int, b: int, q: int, r: int)
    requires b != 0 && a == b * q + r
    requires (b > 0 ==> 0 <= r < b) && (b < 0 ==> b < r <= 0)
    ensures r == 0 <==> a % b == 0
  {
    var q', r' := a / b, a % b;
    assert a == b * q' + r' && 0 <= r' < if b > 0 then b else -b;
    if r == 0 {
      // a == b * q, so a % b is a multiple of b that lies in [0, |b|)
      assert r' == b * (q - q');
      if q - q' > 0 { MulAtLeast(b, q - q'); } else if q - q' < 0 { MulAtLeast(b, q' - q); }
    } else if r' == 0 {
      assert r == b * (q' - q);
      if q' - q > 0 { MulAtLeast(b, q' - q); } else if q' - q < 0 { MulAtLeast(b, q - q'); }
    }
  }

  /** A nonzero multiple of `b` is at least `|b|` away from zero. */
  lemma MulAtLeast(b: int, k: int)
    requires b != 0 && k >= 1
    ensures b > 0 ==> b * k >= b
    ensures b < 0 ==> b * k <= b
  {
  }

  /** Quotient and remainder are determined by the division equation with the remainder in range. */
  lemma DivModUnique(a: int, b: int, q: int, r: int)
    requires b > 0 && a == b * q + r && 0 <= r < b
    ensures a / b == q && a % b == r
  {
    var q', r' := a / b, a % b;
    assert b * (q - q') == r' - r;
    if q - q' >= 1 { MulMono(1, q - q', b); }
    if q' - q >= 1 { MulMono(1, q' - q, b); }
  }

  /** Multiplying by a non-negative factor keeps the order. */
  lemma MulMono(a: int, b: int, c: int)
    requires 0 <= a <= b && c >= 0
    ensures a * c <= b * c
  {
    assert b * c - a * c == (b - a) * c;
  }

  /** Python's `int(x)` on a float: truncation toward zero. Exact reals stand in for floating point. */
  function Trunc(x: real): (n: int)
    ensures x >= 0.0 ==> n as real <= x < n as real + 1.0
    ensures x < 0.0 ==> n as real - 1.0 < x <= n as real
  {
    if x >= 0.0 then x.Floor else -((-x).Floor)
  }
}
