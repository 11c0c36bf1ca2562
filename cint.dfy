// C++ `int` division, which truncates toward zero, written out over
// Dafny's Euclidean division.
module CInt {

  function Abs(a: int): nat
  {
    if a < 0 then -a else a
  }

  /** `a / b` as C++ computes it for `int` operands. */
  function Div(a: int, b: int): (q: int)
    requires b != 0
    ensures a >= 0 && b > 0 ==> q == a / b
  {
    var q := Abs(a) / Abs(b);
    if (a >= 0) == (b > 0) then q else -q
  }

  /** C++ division is odd in each operand: the quotient's size does not depend on signs. */
  lemma DivOdd(a: int, b: int)
    requires b != 0
    ensures Div(-a, b) == -Div(a, b)
    ensures Div(a, -b) == -Div(a, b)
  {
  }

  lemma DivNonNegative(a: int, b: int)
    requires a >= 0 && b > 0
    ensures 0 <= Div(a, b) <= a
  {
    var q := a / b;
    assert a == b * q + a % b;
    assert 0 <= a % b;
    assert q >= 0;
    MulNonNegative(b - 1, q);
    assert b * q == q + (b - 1) * q;
  }

  lemma MulNonNegative(x: int, y: int)
    requires x >= 0 && y >= 0
    ensures x * y >= 0
  {
  }

  /** Truncation: dividing a negative numerator rounds toward zero, not down. */
  lemma DivTruncatesTowardZero()
    ensures Div(-7, 2) == -3
    ensures -7 / 2 == -4
  {
  }

  /** A `double` converted to `int`: the fraction is dropped toward zero. */
  function TruncateToInt(r: real): (i: int)
    ensures -1.0 < r - i as real < 1.0
    ensures (r >= 0.0 ==> 0 <= i && i as real <= r) && (r < 0.0 ==> i <= 0 && r <= i as real)
  {
    if r >= 0.0 then r.Floor else -((-r).Floor)
  }
}
