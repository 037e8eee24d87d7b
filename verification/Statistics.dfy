/** Mean, spread and correlation of the cross-market engine, over the reals.
    The square root is a parameter, known only by its defining law. */
module Statistics {
  import opened Options
  import opened Reals

  ghost predicate IsSqrt(sqrt: real -> real) {
    forall v: real :: v >= 0.0 ==> sqrt(v) >= 0.0 && Square(sqrt(v)) == v
  }

  function Sum(xs: seq<real>, n: nat): real
    requires n <= |xs|
  {
    if n == 0 then 0.0 else Sum(xs, n - 1) + xs[n - 1]
  }

  function Mean(xs: seq<real>): real
    requires |xs| > 0
  {
    Over(Sum(xs, |xs|), |xs| as real)
  }

  /** Sum of products of deviations from `mx` and `my`. */
  function CoMoment(xs: seq<real>, ys: seq<real>, mx: real, my: real, n: nat): real
    requires n <= |xs| && n <= |ys|
  {
    if n == 0 then 0.0 else CoMoment(xs, ys, mx, my, n - 1) + Times(xs[n - 1] - mx, ys[n - 1] - my)
  }

  /** Sum of squared deviations from `m`. */
  function Spread(xs: seq<real>, m: real, n: nat): (r: real)
    requires n <= |xs|
    ensures r >= 0.0
  {
    if n == 0 then 0.0 else Spread(xs, m, n - 1) + Square(xs[n - 1] - m)
  }

  // ----- Cauchy-Schwarz -----

  /** One more pair (x, y) keeps num^2 <= dx dy. */
  lemma {:induction false} CauchyStep(num: real, dx: real, dy: real, x: real, y: real, num': real, dx': real, dy': real)
    requires dx >= 0.0 && dy >= 0.0 && Square(num) <= Times(dx, dy)
    requires num' == num + Times(x, y) && dx' == dx + Square(x) && dy' == dy + Square(y)
    ensures Square(num') <= Times(dx', dy')
  {
    CrossTerm(num, dx, dy, x, y);
    var xx, yy, xy := Square(x), Square(y), x * y;
    SquareProduct(x, y);
    assert Square(num') == Square(num) + 2.0 * (num * xy) + Square(xy);
    assert dx' * dy' == dx * dy + dx * yy + dy * xx + xx * yy;
  }

  /** 2 num x y <= dx y^2 + dy x^2, by completing the square. */
  lemma {:induction false} CrossTerm(num: real, dx: real, dy: real, x: real, y: real)
    requires dx >= 0.0 && dy >= 0.0 && Square(num) <= dx * dy
    ensures 2.0 * (num * (x * y)) <= dx * Square(y) + dy * Square(x)
  {
    if dx == 0.0 {
      assert dx * dy == 0.0;
      SquareZero(num);
      assert num * (x * y) == 0.0 && dx * Square(y) == 0.0;
      assert dy * Square(x) >= 0.0;
    } else {
      var gap := dx * Square(y) + dy * Square(x) - 2.0 * (num * (x * y));
      var a := dx * y - num * x;
      var slack := dx * dy - Square(num);
      assert slack * Square(x) >= 0.0;
      Completed(num, dx, dy, x, y);
      assert dx * gap >= 0.0;
      ScaleOrder(dx, 0.0, gap);
      assert dx * 0.0 == 0.0;
    }
  }

  lemma {:induction false} Completed(num: real, dx: real, dy: real, x: real, y: real)
    ensures dx * (dx * Square(y) + dy * Square(x) - 2.0 * (num * (x * y)))
            == Square(dx * y - num * x) + (dx * dy - Square(num)) * Square(x)
  {
    var a, b := dx * y, num * x;
    assert Square(a - b) == a * a - 2.0 * (a * b) + b * b;
    assert a * a == dx * (dx * Square(y));
    assert b * b == Square(num) * Square(x);
    assert a * b == dx * (num * (x * y));
  }

  /** Cauchy-Schwarz for the accumulated sums, at every point of the loop and for any two centres. */
  lemma {:induction false} CauchySchwarz(xs: seq<real>, ys: seq<real>, mx: real, my: real, n: nat)
    requires n <= |xs| && n <= |ys|
    ensures Square(CoMoment(xs, ys, mx, my, n)) <= Times(Spread(xs, mx, n), Spread(ys, my, n))
  {
    if n == 0 {
      assert Square(0.0) == 0.0;
    } else {
      CauchySchwarz(xs, ys, mx, my, n - 1);
      CauchyStep(
        CoMoment(xs, ys, mx, my, n - 1), Spread(xs, mx, n - 1), Spread(ys, my, n - 1), xs[n - 1] - mx, ys[n - 1] - my,
        CoMoment(xs, ys, mx, my, n), Spread(xs, mx, n), Spread(ys, my, n));
    }
  }

  // ----- Pearson correlation; None stands for NaN -----

  /** The coefficient made of the three accumulated sums. */
  ghost function Coefficient(sqrt: real -> real, num: real, dx: real, dy: real): Option<real>
    requires IsSqrt(sqrt) && dx >= 0.0 && dy >= 0.0
  {
    if dx == 0.0 || dy == 0.0 then None
    else
      RootPositive(sqrt, dx, dy);
      Some(Over(num, sqrt(Times(dx, dy))))
  }

  ghost function Correlation(sqrt: real -> real, xs: seq<real>, ys: seq<real>): Option<real>
    requires IsSqrt(sqrt)
  {
    var n := |xs|;
    if n != |ys| || n < 2 then None
    else Coefficient(sqrt, CoMoment(xs, ys, Mean(xs), Mean(ys), n), Spread(xs, Mean(xs), n), Spread(ys, Mean(ys), n))
  }

  lemma {:induction false} RootPositive(sqrt: real -> real, dx: real, dy: real)
    requires IsSqrt(sqrt) && dx >= 0.0 && dy >= 0.0 && dx != 0.0 && dy != 0.0
    ensures Times(dx, dy) > 0.0 && sqrt(Times(dx, dy)) > 0.0 && Square(sqrt(Times(dx, dy))) == Times(dx, dy)
  {
    var v := Times(dx, dy);
    assert v > 0.0;
    var r := sqrt(v);
    SquareZero(r);
  }

  method PearsonCorrelation(sqrt: real -> real, x: seq<real>, y: seq<real>) returns (r: Option<real>)
    requires IsSqrt(sqrt)
    ensures r == Correlation(sqrt, x, y)
    ensures r.Some? ==> -1.0 <= r.value <= 1.0
  {
    CorrelationBounded(sqrt, x, y);
    var n := |x|;
    if n != |y| || n < 2 {
      return None;
    }
    var sumX, sumY := 0.0, 0.0;
    for i := 0 to n
      invariant sumX == Sum(x, i) && sumY == Sum(y, i)
    {
      sumX := sumX + x[i];
      sumY := sumY + y[i];
    }
    var num, denomX, denomY := Deviations(x, y, sumX / n as real, sumY / n as real);
    r := Divide(sqrt, num, denomX, denomY);
  }

  /** The second pass over the data. */
  method Deviations(x: seq<real>, y: seq<real>, meanX: real, meanY: real)
    returns (num: real, denomX: real, denomY: real)
    requires |x| == |y|
    ensures num == CoMoment(x, y, meanX, meanY, |x|)
    ensures denomX == Spread(x, meanX, |x|) && denomY == Spread(y, meanY, |x|)
  {
    num, denomX, denomY := 0.0, 0.0, 0.0;
    for i := 0 to |x|
      invariant num == CoMoment(x, y, meanX, meanY, i)
      invariant denomX == Spread(x, meanX, i) && denomY == Spread(y, meanY, i)
    {
      var dx, dy := x[i] - meanX, y[i] - meanY;
      num := num + dx * dy;
      denomX := denomX + dx * dx;
      denomY := denomY + dy * dy;
      assert dx * dy == Times(dx, dy) && dx * dx == Square(dx) && dy * dy == Square(dy);
    }
  }

  method Divide(sqrt: real -> real, num: real, denomX: real, denomY: real) returns (r: Option<real>)
    requires IsSqrt(sqrt) && denomX >= 0.0 && denomY >= 0.0
    ensures r == Coefficient(sqrt, num, denomX, denomY)
  {
    if denomX == 0.0 || denomY == 0.0 {
      return None;
    }
    RootPositive(sqrt, denomX, denomY);
    assert denomX * denomY == Times(denomX, denomY);
    return Some(num / sqrt(denomX * denomY));
  }

  lemma {:induction false} CoefficientBounded(sqrt: real -> real, num: real, dx: real, dy: real)
    requires IsSqrt(sqrt) && dx >= 0.0 && dy >= 0.0 && Square(num) <= Times(dx, dy)
    ensures Coefficient(sqrt, num, dx, dy).Some? ==> -1.0 <= Coefficient(sqrt, num, dx, dy).value <= 1.0
  {
    if dx != 0.0 && dy != 0.0 {
      RootPositive(sqrt, dx, dy);
      var root := sqrt(Times(dx, dy));
      SquareBound(num, root);
      Quotient(num, root);
    }
  }

  /** Every defined correlation lies in [-1, 1]. */
  lemma {:induction false} CorrelationBounded(sqrt: real -> real, xs: seq<real>, ys: seq<real>)
    requires IsSqrt(sqrt)
    ensures Correlation(sqrt, xs, ys).Some? ==> -1.0 <= Correlation(sqrt, xs, ys).value <= 1.0
  {
    if |xs| == |ys| && |xs| >= 2 {
      var n, mx, my := |xs|, Mean(xs), Mean(ys);
      CauchySchwarz(xs, ys, mx, my, n);
      CoefficientBounded(sqrt, CoMoment(xs, ys, mx, my, n), Spread(xs, mx, n), Spread(ys, my, n));
    }
  }

  // ----- Invariance under change of units -----

  predicate Flat(xs: seq<real>) {
    forall i :: 0 <= i < |xs| ==> xs[i] == xs[0]
  }

  /** A spread is zero exactly around a value that all samples share. */
  lemma {:induction false} SpreadZero(xs: seq<real>, m: real, n: nat)
    requires n <= |xs|
    ensures Spread(xs, m, n) == 0.0 <==> forall i :: 0 <= i < n ==> xs[i] == m
  {
    if n > 0 {
      SpreadZero(xs, m, n - 1);
      SquareZero(xs[n - 1] - m);
    }
  }

  lemma {:induction false} FlatSum(xs: seq<real>, n: nat)
    requires n <= |xs| && Flat(xs)
    ensures n > 0 ==> Sum(xs, n) == Times(xs[0], n as real)
    ensures n == 0 ==> Sum(xs, n) == 0.0
  {
    if n > 0 {
      FlatSum(xs, n - 1);
    }
  }

  /** A series has no spread around its own mean exactly if it is flat. */
  lemma {:induction false} SpreadlessExactlyWhenFlat(xs: seq<real>)
    requires |xs| > 0
    ensures Spread(xs, Mean(xs), |xs|) == 0.0 <==> Flat(xs)
  {
    SpreadZero(xs, Mean(xs), |xs|);
    if Flat(xs) {
      FlatSum(xs, |xs|);
      QuotientIs(Sum(xs, |xs|), |xs| as real, xs[0]);
    }
  }

  /** A correlation is defined exactly for two series of one length, at least two, neither of them flat. */
  lemma {:induction false} DefinedExactlyWhen(sqrt: real -> real, xs: seq<real>, ys: seq<real>)
    requires IsSqrt(sqrt)
    ensures Correlation(sqrt, xs, ys).Some? <==> |xs| == |ys| && |xs| >= 2 && !Flat(xs) && !Flat(ys)
  {
    if |xs| == |ys| && |xs| >= 2 {
      SpreadlessExactlyWhenFlat(xs);
      SpreadlessExactlyWhenFlat(ys);
    }
  }

  /** The same series rescaled and shifted. */
  function Affine(xs: seq<real>, a: real, b: real): (r: seq<real>)
    ensures |r| == |xs| && forall i :: 0 <= i < |xs| ==> r[i] == a * xs[i] + b
  {
    seq(|xs|, i requires 0 <= i < |xs| => a * xs[i] + b)
  }

  lemma {:induction false} AffineSum(xs: seq<real>, a: real, b: real, n: nat)
    requires n <= |xs|
    ensures Sum(Affine(xs, a, b), n) == a * Sum(xs, n) + b * n as real
  {
    if n > 0 {
      AffineSum(xs, a, b, n - 1);
      Distribute(a, Sum(xs, n - 1), xs[n - 1]);
      Distribute(b, (n - 1) as real, 1.0);
    }
  }

  lemma {:induction false} AffineMean(xs: seq<real>, a: real, b: real)
    requires |xs| > 0
    ensures Mean(Affine(xs, a, b)) == a * Mean(xs) + b
  {
    var n, m := |xs| as real, Mean(xs);
    AffineSum(xs, a, b, |xs|);
    assert m * n == Sum(xs, |xs|);
    assert (a * m + b) * n == a * (m * n) + b * n;
    QuotientIs(Sum(Affine(xs, a, b), |xs|), n, a * m + b);
  }

  lemma {:induction false} AffineMoments(xs: seq<real>, ys: seq<real>, a: real, b: real, mx: real, my: real, mx': real, n: nat)
    requires n <= |xs| && n <= |ys| && mx' == a * mx + b
    ensures CoMoment(Affine(xs, a, b), ys, mx', my, n) == Times(a, CoMoment(xs, ys, mx, my, n))
    ensures Spread(Affine(xs, a, b), mx', n) == Times(Square(a), Spread(xs, mx, n))
  {
    if n > 0 {
      AffineMoments(xs, ys, a, b, mx, my, mx', n - 1);
      AffineStep(
        a, CoMoment(xs, ys, mx, my, n - 1), Spread(xs, mx, n - 1), xs[n - 1] - mx, ys[n - 1] - my,
        Affine(xs, a, b)[n - 1] - mx');
    }
  }

  lemma {:induction false} AffineStep(a: real, num: real, spread: real, dx: real, dy: real, dx': real)
    requires dx' == a * dx
    ensures Times(a, num) + Times(dx', dy) == Times(a, num + Times(dx, dy))
    ensures Times(Square(a), spread) + Square(dx') == Times(Square(a), spread + Square(dx))
  {
    assert dx' * dy == a * (dx * dy);
    SquareProduct(a, dx);
  }

  /** Rescaling or shifting one series changes at most the sign of the correlation. */
  lemma {:induction false} CorrelationAffine(sqrt: real -> real, xs: seq<real>, ys: seq<real>, a: real, b: real)
    requires IsSqrt(sqrt) && a != 0.0
    ensures match Correlation(sqrt, xs, ys)
            case Some(r) => Correlation(sqrt, Affine(xs, a, b), ys) == Some(if a > 0.0 then r else -r)
            case None => Correlation(sqrt, Affine(xs, a, b), ys) == None
  {
    if |xs| == |ys| && |xs| >= 2 {
      var n, mx, my := |xs|, Mean(xs), Mean(ys);
      var zs := Affine(xs, a, b);
      AffineMean(xs, a, b);
      AffineMoments(xs, ys, a, b, mx, my, Mean(zs), n);
      CoefficientScaled(
        sqrt, a, CoMoment(xs, ys, mx, my, n), Spread(xs, mx, n), Spread(ys, my, n),
        CoMoment(zs, ys, Mean(zs), my, n), Spread(zs, Mean(zs), n));
    }
  }

  lemma {:induction false} CoefficientScaled(sqrt: real -> real, a: real, num: real, dx: real, dy: real, num': real, dx': real)
    requires IsSqrt(sqrt) && a != 0.0 && dx >= 0.0 && dy >= 0.0
    requires num' == Times(a, num) && dx' == Times(Square(a), dx) && dx' >= 0.0
    ensures match Coefficient(sqrt, num, dx, dy)
            case Some(r) => Coefficient(sqrt, num', dx', dy) == Some(if a > 0.0 then r else -r)
            case None => Coefficient(sqrt, num', dx', dy) == None
  {
    SquareZero(a);
    if dx == 0.0 {
      assert dx' == 0.0;
    } else if dy != 0.0 {
      assert dx' > 0.0;
      RootPositive(sqrt, dx, dy);
      RootPositive(sqrt, dx', dy);
      var v, v' := Times(dx, dy), Times(dx', dy);
      assert v' == Times(Square(a), v);
      RootScaled(a, sqrt(v), sqrt(v'), v);
      QuotientScaled(num, sqrt(v), a, num', sqrt(v'));
    }
  }

  lemma {:induction false} RootScaled(a: real, root: real, root': real, v: real)
    requires root >= 0.0 && root' >= 0.0 && Square(root) == v && Square(root') == Times(Square(a), v)
    ensures root' == Times(Abs(a), root)
  {
    SquareProduct(Abs(a), root);
    assert Square(Abs(a)) == Square(a);
    assert Abs(a) * root >= 0.0;
    RootUnique(root', Abs(a) * root);
  }

  lemma {:induction false} QuotientScaled(num: real, root: real, a: real, num': real, root': real)
    requires root > 0.0 && root' > 0.0 && a != 0.0 && num' == Times(a, num) && root' == Times(Abs(a), root)
    ensures Over(num', root') == if a > 0.0 then Over(num, root) else -Over(num, root)
  {
    var q := num / root;
    assert q * root == num;
    if a > 0.0 {
      assert q * root' == a * (q * root);
      QuotientIs(num', root', q);
    } else {
      assert (-q) * root' == a * (q * root);
      QuotientIs(num', root', -q);
    }
  }

  // ----- What the coefficient says -----

  /** The sums of the second pass, term by term. */
  function Products(xs: seq<real>, ys: seq<real>): (r: seq<real>)
    requires |xs| == |ys| > 0
    ensures |r| == |xs|
    ensures forall i :: 0 <= i < |xs| ==> r[i] == Times(xs[i] - Mean(xs), ys[i] - Mean(ys))
  {
    seq(|xs|, i requires 0 <= i < |xs| => Times(xs[i] - Mean(xs), ys[i] - Mean(ys)))
  }

  lemma {:induction false} CoMomentIsSum(xs: seq<real>, ys: seq<real>, n: nat)
    requires |xs| == |ys| > 0 && n <= |xs|
    ensures CoMoment(xs, ys, Mean(xs), Mean(ys), n) == Sum(Products(xs, ys), n)
  {
    if n > 0 {
      CoMomentIsSum(xs, ys, n - 1);
    }
  }

  lemma {:induction false} SpreadIsCoMoment(xs: seq<real>, m: real, n: nat)
    requires n <= |xs|
    ensures Spread(xs, m, n) == CoMoment(xs, xs, m, m, n)
  {
    if n > 0 {
      SpreadIsCoMoment(xs, m, n - 1);
      assert Times(xs[n - 1] - m, xs[n - 1] - m) == Square(xs[n - 1] - m);
    }
  }

  /** A defined coefficient is the summed products of deviations over the root of the two summed squares. */
  lemma {:induction false} CoefficientInSums(sqrt: real -> real, xs: seq<real>, ys: seq<real>)
    requires IsSqrt(sqrt) && Correlation(sqrt, xs, ys).Some? && |xs| == |ys| > 0
    ensures var root := sqrt(Times(Sum(Products(xs, xs), |xs|), Sum(Products(ys, ys), |ys|)));
      root > 0.0 && Times(Correlation(sqrt, xs, ys).value, root) == Sum(Products(xs, ys), |xs|)
  {
    var n := |xs|;
    CoMomentIsSum(xs, ys, n);
    CoMomentIsSum(xs, xs, n);
    CoMomentIsSum(ys, ys, n);
    SpreadIsCoMoment(xs, Mean(xs), n);
    SpreadIsCoMoment(ys, Mean(ys), n);
    RootPositive(sqrt, Spread(xs, Mean(xs), n), Spread(ys, Mean(ys), n));
    TimesOver(CoMoment(xs, ys, Mean(xs), Mean(ys), n), sqrt(Times(Spread(xs, Mean(xs), n), Spread(ys, Mean(ys), n))));
  }

  lemma {:induction false} TimesOver(num: real, root: real)
    requires root != 0.0
    ensures Times(Over(num, root), root) == num
  {
  }

  lemma {:induction false} CoMomentSymmetric(xs: seq<real>, ys: seq<real>, mx: real, my: real, n: nat)
    requires n <= |xs| && n <= |ys|
    ensures CoMoment(xs, ys, mx, my, n) == CoMoment(ys, xs, my, mx, n)
  {
    if n > 0 {
      CoMomentSymmetric(xs, ys, mx, my, n - 1);
      assert Times(xs[n - 1] - mx, ys[n - 1] - my) == Times(ys[n - 1] - my, xs[n - 1] - mx);
    }
  }

  /** The two series play the same part. */
  lemma {:induction false} CorrelationSymmetric(sqrt: real -> real, xs: seq<real>, ys: seq<real>)
    requires IsSqrt(sqrt)
    ensures Correlation(sqrt, xs, ys) == Correlation(sqrt, ys, xs)
  {
    if |xs| == |ys| && |xs| >= 2 {
      CoMomentSymmetric(xs, ys, Mean(xs), Mean(ys), |xs|);
      assert Times(Spread(xs, Mean(xs), |xs|), Spread(ys, Mean(ys), |xs|)) == Times(Spread(ys, Mean(ys), |xs|), Spread(xs, Mean(xs), |xs|));
    }
  }

  /** A series that is not flat correlates with itself at exactly 1. */
  lemma {:induction false} SelfCorrelation(sqrt: real -> real, xs: seq<real>)
    requires IsSqrt(sqrt) && |xs| >= 2 && !Flat(xs)
    ensures Correlation(sqrt, xs, xs) == Some(1.0)
  {
    var d := Spread(xs, Mean(xs), |xs|);
    DefinedExactlyWhen(sqrt, xs, xs);
    SpreadIsCoMoment(xs, Mean(xs), |xs|);
    RootPositive(sqrt, d, d);
    assert Times(d, d) == Square(d);
    RootUnique(sqrt(Times(d, d)), d);
    QuotientIs(d, d, 1.0);
  }

  /** What is left of `ys` once `a` times `xs` is taken away. */
  function Residue(xs: seq<real>, ys: seq<real>, a: real): (r: seq<real>)
    requires |xs| == |ys|
    ensures |r| == |xs| && forall i :: 0 <= i < |xs| ==> r[i] == ys[i] - a * xs[i]
  {
    seq(|xs|, i requires 0 <= i < |xs| => ys[i] - a * xs[i])
  }

  lemma {:induction false} ResidueSpread(xs: seq<real>, ys: seq<real>, mx: real, my: real, a: real, m: real, n: nat)
    requires |xs| == |ys| && n <= |xs| && m == my - a * mx
    ensures Spread(Residue(xs, ys, a), m, n)
            == Spread(ys, my, n) - 2.0 * Times(a, CoMoment(xs, ys, mx, my, n)) + Times(Square(a), Spread(xs, mx, n))
  {
    if n > 0 {
      ResidueSpread(xs, ys, mx, my, a, m, n - 1);
      ResidueStep(a, xs[n - 1] - mx, ys[n - 1] - my, Residue(xs, ys, a)[n - 1] - m,
                  CoMoment(xs, ys, mx, my, n - 1), Spread(xs, mx, n - 1));
    } else {
      assert Times(a, 0.0) == 0.0 && Times(Square(a), 0.0) == 0.0;
    }
  }

  lemma {:induction false} ResidueStep(a: real, dx: real, dy: real, d: real, num: real, spread: real)
    requires d == dy - a * dx
    ensures Square(d) == Square(dy) - 2.0 * Times(a, Times(dx, dy)) + Times(Square(a), Square(dx))
    ensures Times(a, num + Times(dx, dy)) == Times(a, num) + Times(a, Times(dx, dy))
    ensures Times(Square(a), spread + Square(dx)) == Times(Square(a), spread) + Times(Square(a), Square(dx))
  {
    assert Square(d) == dy * dy - 2.0 * (a * dx * dy) + (a * dx) * (a * dx);
    assert (a * dx) * (a * dx) == (a * a) * (dx * dx);
    assert a * dx * dy == a * (dx * dy);
  }

  /** If num = sqrt(dx dy), nothing is left of `ys` after taking away num/dx times `xs`. */
  lemma {:induction false} PerfectResidue(num: real, dx: real, dy: real, root: real, a: real)
    requires dx > 0.0 && root > 0.0 && Square(root) == Times(dx, dy) && Over(num, root) == 1.0 && a == Over(num, dx)
    ensures a > 0.0 && dy - 2.0 * Times(a, num) + Times(Square(a), dx) == 0.0
  {
    TimesOver(num, root);
    assert num == root;
    TimesOver(num, dx);
    Quotient(num, dx);
    assert a * dx == num;
    assert Square(a) * dx == a * (a * dx) == a * num;
    assert num * num == dx * dy;
    assert dx * (a * num) == (a * dx) * num == num * num;
    SameFactor(dx, a * num, dy);
  }

  lemma {:induction false} SameFactor(k: real, a: real, b: real)
    requires k > 0.0 && k * a == k * b
    ensures a == b
  {
    ScaleOrder(k, a, b);
    ScaleOrder(k, b, a);
  }

  /** A coefficient of exactly 1 means one series is a rising straight-line image of the other. */
  lemma {:induction false} PerfectExactlyWhenAffine(sqrt: real -> real, xs: seq<real>, ys: seq<real>)
    requires IsSqrt(sqrt) && |xs| == |ys| >= 2 && !Flat(xs)
    ensures Correlation(sqrt, xs, ys) == Some(1.0) <==> exists a: real, b: real :: a > 0.0 && ys == Affine(xs, a, b)
  {
    SelfCorrelation(sqrt, xs);
    forall a: real, b: real | a > 0.0 && ys == Affine(xs, a, b)
      ensures Correlation(sqrt, xs, ys) == Some(1.0)
    {
      CorrelationAffine(sqrt, xs, xs, a, b);
      CorrelationSymmetric(sqrt, ys, xs);
    }
    if Correlation(sqrt, xs, ys) == Some(1.0) {
      PerfectIsAffine(sqrt, xs, ys);
    }
  }

  lemma {:induction false} PerfectIsAffine(sqrt: real -> real, xs: seq<real>, ys: seq<real>)
    requires IsSqrt(sqrt) && |xs| == |ys| >= 2 && Correlation(sqrt, xs, ys) == Some(1.0)
    ensures exists a: real, b: real :: a > 0.0 && ys == Affine(xs, a, b)
  {
    var n, mx, my := |xs|, Mean(xs), Mean(ys);
    var num, dx, dy := CoMoment(xs, ys, mx, my, n), Spread(xs, mx, n), Spread(ys, my, n);
    RootPositive(sqrt, dx, dy);
    var a := Over(num, dx);
    PerfectResidue(num, dx, dy, sqrt(Times(dx, dy)), a);
    var b := my - a * mx;
    ResidueSpread(xs, ys, mx, my, a, b, n);
    SpreadZero(Residue(xs, ys, a), b, n);
    assert ys == Affine(xs, a, b);
  }
}
