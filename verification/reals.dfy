/** Sign facts about products and quotients of reals, used by the oscillator proofs. */
module Reals {

  function Square(x: real): real {
    x * x
  }

  lemma SquareIsPositive(x: real)
    requires x != 0.0
    ensures Square(x) > 0.0
  {
    SquarePositive(x);
    calc {
      Square(x);
      x * x;
    > 0.0;
    }
  }

  lemma SquareNegate(x: real)
    ensures Square(-x) == Square(x)
  {
  }

  lemma SumSquaresPositive(x: real, y: real)
    requires x != 0.0 || y != 0.0
    ensures x * x + y * y > 0.0
  {
    if x != 0.0 {
      SquarePositive(x);
      SquareNonNegative(y);
    } else {
      SquarePositive(y);
    }
  }

  lemma SquareNonNegative(x: real)
    ensures x * x >= 0.0
  {
    if x < 0.0 {
      assert (-x) * (-x) > 0.0;
      assert x * x == (-x) * (-x);
    }
  }

  lemma SquarePositive(x: real)
    requires x != 0.0
    ensures x * x > 0.0
  {
    if x < 0.0 {
      assert (-x) * (-x) > 0.0;
      assert x * x == (-x) * (-x);
    }
  }

  /** Squares agree exactly when the numbers agree up to sign. */
  lemma SquaresEqual(x: real, y: real)
    ensures x * x == y * y <==> x == y || x == -y
  {
    calc {
      x * x - y * y;
      (x - y) * (x + y);
    }
    if x != y && x != -y {
      NonZeroProduct(x - y, x + y);
    }
  }

  lemma NonZeroProduct(x: real, y: real)
    requires x != 0.0 && y != 0.0
    ensures x * y != 0.0
  {
    assert (x * y) / y == x;
  }

  lemma NonNegativeProduct(x: real, y: real)
    requires x >= 0.0 && y >= 0.0
    ensures x * y >= 0.0
  {
    if x > 0.0 && y > 0.0 {
      PositiveProduct(x, y);
    }
  }

  lemma PositiveProduct(x: real, y: real)
    requires x > 0.0 && y > 0.0
    ensures x * y > 0.0
  {
  }

  lemma PositiveQuotient(x: real, y: real)
    requires x > 0.0 && y > 0.0
    ensures x / y > 0.0
  {
  }

  lemma NonNegativeQuotient(x: real, y: real)
    requires x >= 0.0 && y > 0.0
    ensures x / y >= 0.0
  {
  }

  /** A product of three factors vanishes exactly when one of them does. */
  lemma ProductZero(x: real, y: real, z: real)
    ensures x * y * z == 0.0 <==> x == 0.0 || y == 0.0 || z == 0.0
  {
    if x != 0.0 && y != 0.0 && z != 0.0 {
      NonZeroProduct(x, y);
      NonZeroProduct(x * y, z);
    }
  }

  /** Signs of p*x*y*z for a positive scale p. */
  lemma ScaledProductSigns(p: real, x: real, y: real, z: real)
    requires p > 0.0
    ensures p * x * y * z == 0.0 <==> x == 0.0 || y == 0.0 || z == 0.0
    ensures x >= 0.0 && y >= 0.0 && z >= 0.0 ==> p * x * y * z >= 0.0
  {
    ProductZero(p * x, y, z);
    if x != 0.0 {
      NonZeroProduct(p, x);
    }
    if x >= 0.0 && y >= 0.0 && z >= 0.0 {
      NonNegativeProduct(p, x);
      NonNegativeProduct(p * x, y);
      NonNegativeProduct(p * x * y, z);
    }
  }

  /** x*y/k*z/d is positive when every one of its factors is. */
  lemma PositiveFraction(x: real, y: real, k: real, z: real, d: real)
    requires x > 0.0 && y > 0.0 && k > 0.0 && z > 0.0 && d > 0.0
    ensures x * y / k / d > 0.0
    ensures x * y / k * z / d > 0.0
  {
    PositiveProduct(x, y);
    PositiveQuotient(x * y, k);
    PositiveQuotient(x * y / k, d);
    PositiveProduct(x * y / k, z);
    PositiveQuotient(x * y / k * z, d);
  }

  /** Dividing by two non-zero numbers in either order gives the same quotient. */
  lemma DivideTwice(x: real, k: real, d: real)
    requires k != 0.0 && d != 0.0
    ensures x / k / d == x / d / k
  {
    calc {
      x / k / d;
      x / (k * d);
      x / (d * k);
      x / d / k;
    }
  }
}
