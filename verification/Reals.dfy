/** Small facts about products, squares and quotients of reals, each proved on its own. */
module Reals {
  function Abs(x: real): real {
    if x < 0.0 then -x else x
  }

  function Square(x: real): (r: real)
    ensures r >= 0.0
  {
    x * x
  }

  /** A product kept as one term. */
  function Times(a: real, b: real): real {
    a * b
  }

  /** A quotient kept as one term. */
  function Over(a: real, b: real): real
    requires b != 0.0
  {
    a / b
  }

  lemma {:induction false} ScaleOrder(k: real, a: real, b: real)
    requires k > 0.0
    ensures a < b <==> k * a < k * b
    ensures a <= b <==> k * a <= k * b
  {
    if a < b {
      assert k * a < k * b;
    } else if a > b {
      assert k * a > k * b;
    } else {
      assert a == b;
    }
  }

  /** Squares order non-negative numbers. */
  lemma {:induction false} SquareOrder(a: real, b: real)
    requires b >= 0.0
    ensures a > b ==> Square(a) > Square(b)
  {
    if a > b {
      var d, s := a - b, a + b;
      assert d * s > 0.0;
      assert Square(a) - Square(b) == d * s;
    }
  }

  lemma {:induction false} SquareZero(x: real)
    ensures Square(x) <= 0.0 <==> x == 0.0
  {
    SquareOrder(x, 0.0);
    SquareOrder(-x, 0.0);
    assert Square(-x) == Square(x) && Square(0.0) == 0.0;
    if x <= 0.0 && -x <= 0.0 {
      assert x == 0.0;
    }
  }

  lemma {:induction false} RootUnique(r: real, s: real)
    requires r >= 0.0 && s >= 0.0 && Square(r) == Square(s)
    ensures r == s
  {
    SquareOrder(r, s);
    SquareOrder(s, r);
  }

  /** A number whose square is bounded by that of `root`. */
  lemma {:induction false} SquareBound(x: real, root: real)
    requires root >= 0.0 && Square(x) <= Square(root)
    ensures -root <= x <= root
  {
    SquareOrder(x, root);
    SquareOrder(-x, root);
    assert Square(-x) == Square(x);
  }

  lemma {:induction false} Quotient(a: real, b: real)
    requires b > 0.0
    ensures (a / b) * b == a
    ensures a >= 0.0 <==> a / b >= 0.0
    ensures a > 0.0 <==> a / b > 0.0
    ensures a <= b <==> a / b <= 1.0
    ensures -b <= a <==> -1.0 <= a / b
  {
    if a <= b {
      assert a / b <= 1.0;
    } else {
      assert a / b > 1.0;
    }
    if -b <= a {
      assert a / b >= -1.0;
    } else {
      assert a / b < -1.0;
    }
  }

  lemma {:induction false} QuotientIs(a: real, b: real, q: real)
    requires b != 0.0 && q * b == a
    ensures a / b == q
  {
  }

  lemma {:induction false} Distribute(a: real, x: real, y: real)
    ensures a * (x + y) == a * x + a * y
  {
  }

  lemma {:induction false} SquareProduct(a: real, b: real)
    ensures Square(a * b) == Square(a) * Square(b)
  {
    assert (a * b) * (a * b) == (a * a) * (b * b);
  }
}
