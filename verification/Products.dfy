/**
 Products of reals and of integers.  The solver is steadier with a product that is a variable than
 with a product of variables, so the lemmas take the products they speak of as arguments.
 */
module Products {

  /** A product under a name, for statements that compare products of equal factors. */
  function Times(x: real, y: real): real {
    x * y
  }

  lemma TimesMonotone(x: real, y: real, k: real, xk: real, yk: real)
    requires x <= y && k >= 0.0 && xk == x * k && yk == y * k
    ensures xk <= yk
    ensures x < y && k > 0.0 ==> xk < yk
  {
    var d, dk := y - x, (y - x) * k;
    Difference(x, y, k);
    assert dk >= 0.0;
    if x < y && k > 0.0 {
      PositiveProduct(d, k, dk);
    }
  }

  lemma PositiveProduct(x: real, y: real, xy: real)
    requires x > 0.0 && y > 0.0 && xy == x * y
    ensures xy > 0.0
  {
  }

  lemma Difference(x: real, y: real, k: real)
    ensures (y - x) * k == y * k - x * k
  {
  }

  /** Both factors grow. */
  lemma ProductMonotone(x: real, y: real, a: real, b: real, xa: real, yb: real)
    requires 0.0 <= x <= y && 0.0 <= a <= b && xa == x * a && yb == y * b
    ensures 0.0 <= xa <= yb
  {
    var ya := y * a;
    TimesMonotone(x, y, a, xa, ya);
    TimesMonotone(a, b, y, a * y, b * y);
    TimesMonotone(0.0, x, a, 0.0 * a, xa);
  }

  lemma WholeTimesMonotone(x: int, y: int, k: int)
    requires x <= y && k >= 0
    ensures x * k <= y * k
  {
    assert (y - x) * k >= 0;
  }

  /** A positive factor on both sides can be dropped. */
  lemma Cancel(x: real, y: real, s: real, xs: real, ys: real)
    requires s > 0.0 && xs == x * s && ys == y * s
    ensures xs == ys ==> x == y
    ensures xs <= ys ==> x <= y
    ensures xs < ys ==> x < y
  {
    if x < y {
      TimesMonotone(x, y, s, xs, ys);
    } else if y < x {
      TimesMonotone(y, x, s, ys, xs);
    }
  }

  lemma Associate(x: real, y: real, z: real)
    ensures x * (y * z) == (x * y) * z
  {
  }

  lemma Distribute(a: real, x: real, y: real)
    ensures a * (x + y) == a * x + a * y
  {
  }

  lemma SquareIsNonNegative(x: real)
    ensures x * x >= 0.0
  {
    if x < 0.0 {
      assert x * x == (-x) * (-x);
    }
  }

  lemma PositiveFactor(n: real, y: real)
    requires n > 0.0 && n * y >= 0.0
    ensures y >= 0.0
  {
    assert y < 0.0 ==> n * (-y) > 0.0 && n * (-y) == -(n * y);
  }

  lemma NonZeroSquare(x: real, y: real)
    requires x != 0.0 && y == x * x
    ensures y > 0.0
  {
    if x < 0.0 {
      assert (-x) * (-x) == x * x;
      PositiveProduct(-x, -x, y);
    } else {
      PositiveProduct(x, x, y);
    }
  }

  lemma ZeroSquare(x: real)
    requires x * x <= 0.0
    ensures x == 0.0
  {
    if x != 0.0 {
      NonZeroSquare(x, x * x);
    }
  }

  lemma EqualFactor(n: real, x: real, y: real)
    requires n > 0.0 && n * x == n * y
    ensures x == y
  {
    assert n * (x - y) == 0.0;
    PositiveFactor(n, x - y);
    PositiveFactor(n, y - x);
  }

  lemma NonNegativeProduct(x: real, y: real)
    requires x >= 0.0 && y >= 0.0
    ensures x * y >= 0.0
  {
  }
}
