/**
 * Integer ceiling of a quotient. The program divides as floating point and
 * rounds up; here the quotient is exact, so the mean is the true ceiling.
 */
module Ceiling {

  /** `r` is the ceiling of `a / b`: the least integer with `a <= r * b`. */
  predicate IsCeiling(r: int, a: int, b: int)
  {
    b > 0 && (r - 1) * b < a <= r * b
  }

  /** Ceiling division. Dafny's `/` rounds toward minus infinity when
      `b > 0`, so the ceiling is the negated floor of the negated dividend. */
  function CeilDiv(a: int, b: int): (r: int)
    requires b > 0
    ensures IsCeiling(r, a, b)
    ensures a >= 0 ==> r >= 0
  {
    var q := (-a) / b;
    var m := (-a) % b;
    assert -a == q * b + m && 0 <= m < b;
    assert (-q) * b == a + m;
    assert (-q - 1) * b == a + m - b;
    -q
  }

  /** The ceiling is unique: a contract of the shape `IsCeiling` fixes the result. */
  lemma CeilingUnique(r: int, s: int, a: int, b: int)
    requires IsCeiling(r, a, b) && IsCeiling(s, a, b)
    ensures r == s
  {
    ProductOrder(s - 1, r, b);
    ProductOrder(r - 1, s, b);
  }

  /** Multiplying by a positive factor keeps a strict order. */
  lemma ProductOrder(x: int, y: int, b: int)
    requires b > 0 && x * b < y * b
    ensures x < y
  {
    assert (y - x) * b == y * b - x * b;
  }

  /** Zero cases over any positive number of days average to zero. */
  lemma CeilingOfZero(b: int)
    requires b > 0
    ensures CeilDiv(0, b) == 0
  {
    var r := CeilDiv(0, b);
    assert IsCeiling(0, 0, b);
    CeilingUnique(r, 0, 0, b);
  }

  /** Ten cases over three days average to 4: rounded up, not to the nearest. */
  lemma TenOverThree()
    ensures CeilDiv(10, 3) == 4
  {
    assert IsCeiling(4, 10, 3);
    CeilingUnique(CeilDiv(10, 3), 4, 10, 3);
  }
}
