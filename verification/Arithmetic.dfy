/** Multiplication and division facts, and the width of an i128, shared by the models. */
module Arithmetic {

  const I128_MAX := 170141183460469231731687303715884105727
  const I128_MIN := -170141183460469231731687303715884105728

  lemma MulMono(a: int, b: int, c: int)
    requires a <= b && c >= 0
    ensures a * c <= b * c && c * a <= c * b
  {
  }

  lemma MulAssociative(a: int, b: int, c: int)
    ensures (a * b) * c == a * (b * c)
  {
  }

  // Division of BigInt and of Rust integers rounds towards zero.
  function TruncDiv(a: int, b: int): int
    requires b > 0
  {
    if a >= 0 then a / b else -((-a) / b)
  }

  lemma FloorDivision(v: nat, d: nat)
    requires d > 0
    ensures v / d >= 0 && 0 <= v % d < d && v == (v / d) * d + v % d
    ensures (v / d) * d <= v < (v / d) * d + d
  {
    assert (v / d) * d + v % d == v && 0 <= v % d < d;
  }
}
