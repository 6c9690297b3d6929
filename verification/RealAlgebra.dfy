/** Small facts about products of reals. Those about a sign hand the product back as a value of its
  * own, so that a larger proof compares one number with zero and never a product.
  */
module RealAlgebra {

  lemma Distribute(c: real, x: real, y: real)
    ensures c * (x + y) == c * x + c * y
  {
  }

  lemma Associate(x: real, y: real, z: real)
    ensures x * (y * z) == (x * y) * z == y * (x * z)
  {
  }

  lemma Positive(x: real, y: real) returns (p: real)
    requires x > 0.0 && y > 0.0
    ensures p == x * y && p > 0.0
  {
    p := x * y;
  }

  lemma NonNegative(x: real, y: real) returns (p: real)
    requires x >= 0.0 && y >= 0.0
    ensures p == x * y && p >= 0.0
  {
    p := x * y;
  }

  lemma SquarePositive(x: real) returns (p: real)
    requires x != 0.0
    ensures p == x * x && p > 0.0
  {
    if x < 0.0 { p := Positive(-x, -x); } else { p := Positive(x, x); }
  }

  lemma SquareNonNegative(x: real) returns (p: real)
    ensures p == x * x && p >= 0.0
  {
    if x < 0.0 { p := Positive(-x, -x); } else { p := NonNegative(x, x); }
  }

  lemma Monotone(x: real, y: real, c: real)
    requires x <= y && c >= 0.0
    ensures x * c <= y * c
  {
    var p := NonNegative(y - x, c);
    assert p == y * c - x * c;
  }

  lemma StrictlyMonotone(x: real, y: real, c: real)
    requires x < y && c > 0.0
    ensures x * c < y * c
  {
    var p := Positive(y - x, c);
    assert p == y * c - x * c;
  }

  lemma SquaresGrow(x: real, y: real)
    requires 0.0 <= x < y
    ensures x * x < y * y
  {
    var p := Positive(y - x, y + x);
    assert p == y * y - x * x;
  }

  /** Comparing a quotient is comparing with a product. */
  lemma QuotientAtLeast(d: real, e: real, t: real)
    requires e > 0.0
    ensures d / e >= t <==> d >= t * e
  {
    var q := d / e;
    var p := q * e;
    assert p == d;
    var s := t * e;
    if q >= t {
      Monotone(t, q, e);
      assert p >= s;
    } else {
      StrictlyMonotone(q, t, e);
      assert p < s;
    }
  }
}
