/** Python's integer floor division `//` and modulo `%`.  Dafny's own `/` and
    `%` are Euclidean; the two agree for a positive divisor and differ for a
    negative one, where Python's remainder takes the sign of the divisor. */
module PyInt {

  /** `a % b` as Python computes it. */
  function Mod(a: int, b: int): (r: int)
    requires b != 0
    ensures b > 0 ==> 0 <= r < b
    ensures b < 0 ==> b < r <= 0
  {
    if b < 0 && a % b != 0 then a % b + b else a % b
  }

  /** `a // b` as Python computes it: the quotient that goes with `Mod`, so
      that `b * (a // b) + a % b == a`. */
  function FloorDiv(a: int, b: int): (q: int)
    requires b != 0
    ensures a == b * q + Mod(a, b)
  {
    if b < 0 && a % b != 0 then a / b - 1 else a / b
  }

  /** The quotient and remainder are the only pair with `a == b * q + r` and
      `r` in Python's remainder range. */
  lemma {:induction false} DivModUnique(a: int, b: int, q: int, r: int)
    requires b != 0
    requires a == b * q + r
    requires b > 0 ==> 0 <= r < b
    requires b < 0 ==> b < r <= 0
    ensures q == FloorDiv(a, b) && r == Mod(a, b)
  {
    var q', r' := FloorDiv(a, b), Mod(a, b);
    var d := q - q';
    assert b * d == r' - r;
    if d != 0 {
      MultipleIsFar(b, d);
      assert false;
    }
  }

  /** A non-zero multiple of `b` is at least `|b|` away from zero. */
  lemma MultipleIsFar(b: int, d: int)
    requires b != 0 && d != 0
    ensures b > 0 ==> b * d >= b || b * d <= -b
    ensures b < 0 ==> b * d <= b || b * d >= -b
  {
    if b > 0 && d > 0 {
      MulAtLeast(b, d);
    } else if b > 0 {
      assert b * d == -(b * -d);
      MulAtLeast(b, -d);
    } else if d > 0 {
      assert b * d == -(-b * d);
      MulAtLeast(-b, d);
    } else {
      assert b * d == -b * -d;
      MulAtLeast(-b, -d);
    }
  }

  lemma {:induction false} MulAtLeast(b: nat, d: nat)
    requires d >= 1
    ensures b * d >= b
    decreases d
  {
    if d > 1 {
      MulAtLeast(b, d - 1);
      assert b * d == b * (d - 1) + b;
    }
  }

  lemma MulNonneg(a: int, b: int)
    requires a >= 0 && b >= 0
    ensures a * b >= 0
  {
    if b >= 1 { MulAtLeast(a, b); }
  }
}
