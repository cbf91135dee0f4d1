/** Facts about products and quotients of reals, one step at a time. */
module Arithmetic {
  /** A product under a name, so that equal factors are seen to give equal products. */
  function Times(x: real, y: real): real {
    x * y
  }

  lemma Distribute(x: real, y: real, z: real)
    ensures Times(x, y + z) == Times(x, y) + Times(x, z)
    ensures Times(y + z, x) == Times(y, x) + Times(z, x)
  {
  }

  lemma Commute(x: real, y: real)
    ensures Times(x, y) == Times(y, x)
  {
  }

  lemma Associate(x: real, y: real, z: real)
    ensures Times(x, Times(y, z)) == Times(Times(x, y), z)
  {
  }

  lemma SquareSign(x: real)
    ensures Times(x, x) >= 0.0
    ensures Times(x, x) == 0.0 <==> x == 0.0
  {
    if x > 0.0 {
      Positive(x, x);
    } else if x < 0.0 {
      Positive(-x, -x);
      assert -x * -x == x * x;
    }
  }

  lemma Positive(x: real, y: real)
    requires x > 0.0
    ensures Times(x, y) > 0.0 <==> y > 0.0
    ensures Times(x, y) == 0.0 <==> y == 0.0
    ensures Times(x, y) < 0.0 <==> y < 0.0
  {
  }

  lemma NonNegative(x: real, y: real)
    requires x >= 0.0 && y >= 0.0
    ensures Times(x, y) >= 0.0
  {
  }

  lemma Larger(c: real, x: real, y: real)
    requires c > 0.0
    ensures Times(c, x) < Times(c, y) <==> x < y
  {
    Distribute(c, y, -x);
    Positive(c, y - x);
  }

  lemma Reciprocal(x: real)
    requires x != 0.0
    ensures Times(1.0 / x, x) == 1.0 && 1.0 / x != 0.0 && (x > 0.0 ==> 1.0 / x > 0.0)
  {
  }

  lemma Divide(x: real, y: real)
    requires y != 0.0
    ensures x / y == Times(1.0 / y, x) && Times(x / y, y) == x
  {
  }
}
