/** The live calibrator's gradient fit of prob = sigmoid(a x + b), and the bounds its step schedule imposes.
    The exponential and the logarithm are parameters, known only by the laws below. */
module LogisticFit {
  import opened Options
  import opened Reals
  import opened RankStatistic
  import opened Statistics

  ghost predicate IsExp(exp: real -> real) {
    && (forall z: real :: exp(z) > 0.0 && Times(exp(z), exp(-z)) == 1.0)
    && forall y: real, z: real :: y < z ==> exp(y) < exp(z)
  }

  ghost predicate IsLog(exp: real -> real, log: real -> real) {
    forall v: real :: v > 0.0 ==> exp(log(v)) == v
  }

  function Sigmoid(exp: real -> real, z: real): real
    requires 1.0 + exp(-z) != 0.0
  {
    Over(1.0, 1.0 + exp(-z))
  }

  lemma {:induction false} SigmoidInUnit(exp: real -> real, z: real)
    requires IsExp(exp)
    ensures 0.0 < Sigmoid(exp, z) < 1.0
  {
    var d := 1.0 + exp(-z);
    assert d > 1.0;
    assert 0.0 < 1.0 / d < 1.0;
  }

  lemma {:induction false} SigmoidMonotone(exp: real -> real, y: real, z: real)
    requires IsExp(exp)
    ensures y < z ==> Sigmoid(exp, y) < Sigmoid(exp, z)
    ensures y <= z ==> Sigmoid(exp, y) <= Sigmoid(exp, z)
  {
    if y < z {
      ReciprocalOrder(1.0 + exp(-z), 1.0 + exp(-y));
    }
  }

  lemma {:induction false} ReciprocalOrder(c: real, d: real)
    requires 0.0 < c < d
    ensures Over(1.0, d) < Over(1.0, c)
  {
    var p, q := 1.0 / c, 1.0 / d;
    assert p * c == 1.0 && q * d == 1.0 && q > 0.0;
    assert q * (d - c) > 0.0;
    assert q * c == q * d - q * (d - c);
    ScaleOrder(c, q, p);
    assert c * q == q * c && c * p == p * c;
  }

  // ----- One descent step -----

  datatype Params = Params(a: real, b: real, lr: real)

  function ClampZ(z: real): real {
    if z > 20.0 then 20.0 else if z < -20.0 then -20.0 else z
  }

  ghost function Residual(exp: real -> real, p: Params, x: real, y: real): real
    requires IsExp(exp)
  {
    Sigmoid(exp, ClampZ(Times(p.a, x) + p.b)) - y
  }

  /** Gradient sums over the first `n` samples. */
  ghost function GradA(exp: real -> real, p: Params, xs: seq<real>, ys: seq<real>, n: nat): real
    requires IsExp(exp) && n <= |xs| && n <= |ys|
  {
    if n == 0 then 0.0 else GradA(exp, p, xs, ys, n - 1) + Times(Residual(exp, p, xs[n - 1], ys[n - 1]), xs[n - 1])
  }

  ghost function GradB(exp: real -> real, p: Params, xs: seq<real>, ys: seq<real>, n: nat): real
    requires IsExp(exp) && n <= |xs| && n <= |ys|
  {
    if n == 0 then 0.0 else GradB(exp, p, xs, ys, n - 1) + Residual(exp, p, xs[n - 1], ys[n - 1])
  }

  ghost function Descend(exp: real -> real, xs: seq<real>, ys: seq<real>, p: Params): Params
    requires IsExp(exp) && |xs| == |ys| > 0
  {
    var n := |xs|;
    Params(
      p.a - Times(p.lr, Over(GradA(exp, p, xs, ys, n), n as real)),
      p.b - Times(p.lr, Over(GradB(exp, p, xs, ys, n), n as real)),
      p.lr * 0.98)
  }

  /** The parameters after `k` iterations. */
  ghost function Iterate(exp: real -> real, xs: seq<real>, ys: seq<real>, start: Params, k: nat): Params
    requires IsExp(exp) && |xs| == |ys| > 0
  {
    if k == 0 then start else Descend(exp, xs, ys, Iterate(exp, xs, ys, start, k - 1))
  }

  // ----- The whole fit -----

  function Clamp(v: real, lo: real, hi: real): real {
    if v < lo then lo else if v > hi then hi else v
  }

  /** The win rate kept away from 0 and 1. */
  function BaseRate(labels: seq<real>): (r: real)
    requires |labels| > 0
    ensures 0.01 <= r <= 0.99
  {
    Clamp(Mean(labels), 0.01, 0.99)
  }

  function Logit(log: real -> real, p: real): real
    requires 0.01 <= p <= 0.99
  {
    log(Over(p, 1.0 - p))
  }

  function Start(log: real -> real, xs: seq<real>, labels: seq<real>): Params
    requires |xs| == |labels| > 0
  {
    Params(2.0, Logit(log, BaseRate(labels)) - Times(2.0, Mean(xs)), 0.1)
  }

  /** What the validation at the end makes of the fitted parameters. */
  function Accept(log: real -> real, labels: seq<real>, p: Params): Option<(real, real)>
    requires |labels| > 0
  {
    if Abs(p.a) > 20.0 || Abs(p.b) > 10.0 then None
    else if p.a < 0.0 then Some((0.0, Logit(log, BaseRate(labels))))
    else Some((p.a, p.b))
  }

  ghost function Fitted(exp: real -> real, log: real -> real, scores: seq<real>, labels: seq<real>): Params
    requires IsExp(exp) && |scores| == |labels| > 0
  {
    var xs := Map(Normalize, scores);
    Iterate(exp, xs, labels, Start(log, xs, labels), 100)
  }

  method FitLogisticCalibration(exp: real -> real, log: real -> real, scores: seq<real>, labels: seq<real>)
    returns (r: Option<(real, real)>)
    requires IsExp(exp)
    ensures r == if |scores| == 0 || |labels| != |scores| then None
                 else Accept(log, labels, Fitted(exp, log, scores, labels))
  {
    var n := |scores|;
    if n == 0 || |labels| != n {
      return None;
    }
    var xs := NormalizeAll(scores);
    var sumX, sumY := 0.0, 0.0;
    for i := 0 to n
      invariant sumX == Sum(xs, i) && sumY == Sum(labels, i)
    {
      sumX := sumX + xs[i];
      sumY := sumY + labels[i];
    }
    var meanX, meanY := sumX / n as real, sumY / n as real;
    var meanYc := Clamp(meanY, 0.01, 0.99);
    assert meanX == Mean(xs) && meanYc == BaseRate(labels);
    var a := 2.0;
    var b := Logit(log, meanYc) - Times(a, meanX);
    var lr := 0.1;
    ghost var start := Start(log, xs, labels);
    for iter := 0 to 100
      invariant Params(a, b, lr) == Iterate(exp, xs, labels, start, iter)
    {
      a, b, lr := DescentStep(exp, xs, labels, a, b, lr);
    }
    if Abs(a) > 20.0 {
      return None;
    }
    if Abs(b) > 10.0 {
      return None;
    }
    if a < 0.0 {
      b := Logit(log, Clamp(meanY, 0.01, 0.99));
      a := 0.0;
    }
    return Some((a, b));
  }

  method NormalizeAll(scores: seq<real>) returns (xs: seq<real>)
    ensures xs == Map(Normalize, scores)
  {
    xs := [];
    for i := 0 to |scores|
      invariant |xs| == i && forall j :: 0 <= j < i ==> xs[j] == Normalize(scores[j])
    {
      var x := scores[i] / 100.0;
      if x < 0.0 {
        x := 0.0;
      }
      if x > 1.0 {
        x := 1.0;
      }
      xs := xs + [x];
    }
  }

  method DescentStep(exp: real -> real, xs: seq<real>, labels: seq<real>, a: real, b: real, lr: real)
    returns (a': real, b': real, lr': real)
    requires IsExp(exp) && |xs| == |labels| > 0
    ensures Params(a', b', lr') == Descend(exp, xs, labels, Params(a, b, lr))
  {
    var n := |xs|;
    ghost var p := Params(a, b, lr);
    var gradA, gradB := 0.0, 0.0;
    for i := 0 to n
      invariant gradA == GradA(exp, p, xs, labels, i) && gradB == GradB(exp, p, xs, labels, i)
    {
      var z := Times(a, xs[i]) + b;
      if z > 20.0 {
        z := 20.0;
      }
      if z < -20.0 {
        z := -20.0;
      }
      assert 1.0 + exp(-z) > 0.0;
      var prob := Over(1.0, 1.0 + exp(-z));
      var errorTerm := prob - labels[i];
      gradA := gradA + Times(errorTerm, xs[i]);
      gradB := gradB + errorTerm;
    }
    gradA := Over(gradA, n as real);
    gradB := Over(gradB, n as real);
    a' := a - Times(lr, gradA);
    b' := b - Times(lr, gradB);
    lr' := lr * 0.98;
  }

  // ----- How far the parameters can travel -----

  ghost predicate InUnit(xs: seq<real>) {
    forall i :: 0 <= i < |xs| ==> 0.0 <= xs[i] <= 1.0
  }

  lemma {:induction false} NormalizedInUnit(scores: seq<real>)
    ensures InUnit(Map(Normalize, scores))
  {
  }

  /** No gradient sum exceeds the number of samples. */
  lemma {:induction false} GradientBounded(exp: real -> real, p: Params, xs: seq<real>, ys: seq<real>, n: nat)
    requires IsExp(exp) && n <= |xs| && n <= |ys| && InUnit(xs) && InUnit(ys)
    ensures -(n as real) <= GradA(exp, p, xs, ys, n) <= n as real
    ensures -(n as real) <= GradB(exp, p, xs, ys, n) <= n as real
  {
    if n > 0 {
      GradientBounded(exp, p, xs, ys, n - 1);
      var x, y := xs[n - 1], ys[n - 1];
      SigmoidInUnit(exp, ClampZ(Times(p.a, x) + p.b));
      ProductInUnit(Residual(exp, p, x, y), x);
    }
  }

  lemma {:induction false} ProductInUnit(e: real, x: real)
    requires -1.0 <= e <= 1.0 && 0.0 <= x <= 1.0
    ensures -1.0 <= Times(e, x) <= 1.0
    ensures e <= 0.0 ==> Times(e, x) <= 0.0
    ensures e >= 0.0 ==> Times(e, x) >= 0.0
  {
    TimesMonotone(1.0 - e, 0.0, x);
    TimesMonotone(1.0 + e, 0.0, x);
    assert Times(1.0 - e, x) == x - Times(e, x) && Times(1.0 + e, x) == x + Times(e, x);
    if e <= 0.0 {
      TimesMonotone(-e, 0.0, x);
      assert Times(-e, x) == -Times(e, x) && Times(-e, 0.0) == 0.0;
    } else {
      TimesMonotone(e, 0.0, x);
      assert Times(e, 0.0) == 0.0;
    }
  }

  lemma {:induction false} TimesMonotone(k: real, x: real, y: real)
    requires k >= 0.0 && x <= y
    ensures Times(k, x) <= Times(k, y)
  {
    if k > 0.0 {
      ScaleOrder(k, x, y);
    } else {
      assert k == 0.0;
    }
  }

  function Pow(base: real, k: nat): real {
    if k == 0 then 1.0 else Pow(base, k - 1) * base
  }

  /** The learning rate decays geometrically. */
  lemma {:induction false} RateDecays(exp: real -> real, xs: seq<real>, ys: seq<real>, start: Params, k: nat)
    requires IsExp(exp) && |xs| == |ys| > 0 && start.lr == 0.1
    ensures Iterate(exp, xs, ys, start, k).lr == 0.1 * Pow(0.98, k)
    ensures 0.0 < Iterate(exp, xs, ys, start, k).lr <= 0.1
  {
    if k > 0 {
      RateDecays(exp, xs, ys, start, k - 1);
    }
  }

  lemma {:induction false} RatePositive(exp: real -> real, xs: seq<real>, ys: seq<real>, start: Params, k: nat)
    requires IsExp(exp) && |xs| == |ys| > 0 && start.lr > 0.0
    ensures Iterate(exp, xs, ys, start, k).lr > 0.0
  {
    if k > 0 {
      RatePositive(exp, xs, ys, start, k - 1);
    }
  }

  /** The travel so far is at most what the learning rate has lost, fifty to one. */
  predicate Drifted(start: Params, p: Params) {
    Abs(p.a - start.a) <= 5.0 - 50.0 * p.lr && Abs(p.b - start.b) <= 5.0 - 50.0 * p.lr
  }

  lemma {:induction false} DriftByRate(exp: real -> real, xs: seq<real>, ys: seq<real>, start: Params, k: nat)
    requires IsExp(exp) && |xs| == |ys| > 0 && InUnit(xs) && InUnit(ys) && start.lr == 0.1
    ensures Drifted(start, Iterate(exp, xs, ys, start, k))
  {
    if k > 0 {
      DriftByRate(exp, xs, ys, start, k - 1);
      RatePositive(exp, xs, ys, start, k - 1);
      StepDrifts(exp, xs, ys, start, Iterate(exp, xs, ys, start, k - 1));
    }
  }

  lemma {:induction false} StepDrifts(exp: real -> real, xs: seq<real>, ys: seq<real>, start: Params, p: Params)
    requires IsExp(exp) && |xs| == |ys| > 0 && InUnit(xs) && InUnit(ys) && p.lr > 0.0 && Drifted(start, p)
    ensures Drifted(start, Descend(exp, xs, ys, p))
  {
    var q := Descend(exp, xs, ys, p);
    OneStepTravel(exp, xs, ys, p);
    DriftStep(start.a, p.a, q.a, p.lr, q.lr);
    DriftStep(start.b, p.b, q.b, p.lr, q.lr);
  }

  lemma {:induction false} DriftStep(start: real, before: real, after: real, lr: real, lr': real)
    requires Abs(before - start) <= 5.0 - 50.0 * lr && Abs(after - before) <= lr && 50.0 * lr' == 50.0 * lr - lr
    ensures Abs(after - start) <= 5.0 - 50.0 * lr'
  {
  }

  lemma {:induction false} OneStepTravel(exp: real -> real, xs: seq<real>, ys: seq<real>, p: Params)
    requires IsExp(exp) && |xs| == |ys| > 0 && InUnit(xs) && InUnit(ys) && p.lr > 0.0
    ensures var q := Descend(exp, xs, ys, p);
      Abs(q.a - p.a) <= p.lr && Abs(q.b - p.b) <= p.lr && 50.0 * q.lr == 50.0 * p.lr - p.lr
  {
    GradientBounded(exp, p, xs, ys, |xs|);
    StepSize(p.lr, GradA(exp, p, xs, ys, |xs|), |xs| as real);
    StepSize(p.lr, GradB(exp, p, xs, ys, |xs|), |xs| as real);
  }

  /** After k iterations neither parameter has moved by more than 5 (1 - 0.98^k), whatever the data. */
  lemma {:induction false} DriftBounded(exp: real -> real, xs: seq<real>, ys: seq<real>, start: Params, k: nat)
    requires IsExp(exp) && |xs| == |ys| > 0 && InUnit(xs) && InUnit(ys) && start.lr == 0.1
    ensures var p := Iterate(exp, xs, ys, start, k);
      var reach := 5.0 * (1.0 - Pow(0.98, k));
      Abs(p.a - start.a) <= reach < 5.0 && Abs(p.b - start.b) <= reach
  {
    RateDecays(exp, xs, ys, start, k);
    DriftByRate(exp, xs, ys, start, k);
  }

  lemma {:induction false} StepSize(lr: real, grad: real, n: real)
    requires lr > 0.0 && n > 0.0 && -n <= grad <= n
    ensures -lr <= Times(lr, Over(grad, n)) <= lr
  {
    Quotient(grad, n);
    Shrunk(lr, Over(grad, n));
  }

  lemma {:induction false} Shrunk(lr: real, g: real)
    requires lr > 0.0 && -1.0 <= g <= 1.0
    ensures -lr <= Times(lr, g) <= lr
  {
    TimesMonotone(lr, -1.0, g);
    TimesMonotone(lr, g, 1.0);
    assert Times(lr, -1.0) == -lr && Times(lr, 1.0) == lr;
  }

  /** So for labelled data the slope ends strictly between -3 and 7: the slope rejection never fires, the fit is
      accepted exactly when the offset ends within 10, and an accepted slope is never negative. */
  lemma {:induction false} AcceptedExactlyWhen(exp: real -> real, log: real -> real, scores: seq<real>, labels: seq<real>)
    requires IsExp(exp) && |scores| == |labels| > 0 && InUnit(labels)
    ensures var p := Fitted(exp, log, scores, labels);
      && -3.0 < p.a < 7.0
      && (Accept(log, labels, p).Some? <==> Abs(p.b) <= 10.0)
      && (Accept(log, labels, p).Some? ==> 0.0 <= Accept(log, labels, p).value.0 < 7.0)
  {
    var xs := Map(Normalize, scores);
    NormalizedInUnit(scores);
    DriftBounded(exp, xs, labels, Start(log, xs, labels), 100);
  }

  /** A starting offset within 5 of zero is always accepted. */
  lemma {:induction false} ModestStartAccepted(exp: real -> real, log: real -> real, scores: seq<real>, labels: seq<real>)
    requires IsExp(exp) && |scores| == |labels| > 0 && InUnit(labels)
    requires Abs(Start(log, Map(Normalize, scores), labels).b) <= 5.0
    ensures Accept(log, labels, Fitted(exp, log, scores, labels)).Some?
  {
    var xs := Map(Normalize, scores);
    NormalizedInUnit(scores);
    DriftBounded(exp, xs, labels, Start(log, xs, labels), 100);
  }

  // ----- Every sample is accepted -----

  /** Two values of the exponential, e^3 = 20.08... and e^5 = 148.4..., bounded from below. */
  ghost predicate IsNaturalExp(exp: real -> real) {
    IsExp(exp) && exp(3.0) > 20.0 && exp(5.0) > 148.0
  }

  lemma {:induction false} SumInUnit(xs: seq<real>, n: nat)
    requires n <= |xs| && InUnit(xs)
    ensures 0.0 <= Sum(xs, n) <= n as real
  {
    if n > 0 {
      SumInUnit(xs, n - 1);
    }
  }

  lemma {:induction false} MeanInUnit(xs: seq<real>)
    requires |xs| > 0 && InUnit(xs)
    ensures 0.0 <= Mean(xs) <= 1.0
  {
    SumInUnit(xs, |xs|);
    Quotient(Sum(xs, |xs|), |xs| as real);
  }

  /** Odds and their logarithm: `e` is exp(l), `e'` is exp(-l). */
  lemma {:induction false} OddsBounds(c: real, e: real, e': real)
    requires 0.01 <= c <= 0.99 && e == Over(c, 1.0 - c) && Times(e, e') == 1.0 && e' > 0.0
    ensures e <= 99.0 && e' <= 99.0
    ensures e' > 20.0 ==> c < 0.3
  {
    var d := 1.0 - c;
    OddsFlip(c, e, e');
    ScaleOrder(d, e, 99.0);
    ScaleOrder(c, e', 99.0);
    ScaleOrder(c, e', 20.0);
  }

  lemma {:induction false} OddsFlip(c: real, e: real, e': real)
    requires 0.0 < c < 1.0 && e == Over(c, 1.0 - c) && Times(e, e') == 1.0
    ensures (1.0 - c) * e == c && c * e' == 1.0 - c
  {
    var d := 1.0 - c;
    assert e * d == c;
    assert e * e' == 1.0;
    assert c * e' == (e * d) * e' == d * (e * e') == d;
  }

  /** The starting logit is within 5 of zero; below -3 it betrays a base rate below 30%. */
  lemma {:induction false} LogitBounds(exp: real -> real, log: real -> real, c: real)
    requires IsNaturalExp(exp) && IsLog(exp, log) && 0.01 <= c <= 0.99
    ensures -5.0 <= Logit(log, c) <= 5.0
    ensures Logit(log, c) < -3.0 ==> c < 0.3
  {
    var l := Logit(log, c);
    Quotient(c, 1.0 - c);
    assert exp(l) == Over(c, 1.0 - c);
    assert Times(exp(l), exp(-l)) == 1.0;
    OddsBounds(c, exp(l), exp(-l));
    ExpOrder(exp, 3.0, -l);
    ExpOrder(exp, 5.0, l);
    ExpOrder(exp, 5.0, -l);
  }

  lemma {:induction false} ExpOrder(exp: real -> real, y: real, z: real)
    requires IsExp(exp)
    ensures y < z <==> exp(y) < exp(z)
  {
  }

  lemma {:induction false} HalfBelowZero(exp: real -> real, z: real)
    requires IsExp(exp) && z <= 0.0
    ensures 0.0 < Sigmoid(exp, z) <= 0.5
  {
    SigmoidInUnit(exp, z);
    var e := exp(-z);
    assert exp(z) <= e && Times(exp(z), e) == 1.0;
    if e < 1.0 {
      ScaleOrder(e, exp(z), 1.0);
    }
    AtMostHalf(1.0 + e);
  }

  lemma {:induction false} AtMostHalf(d: real)
    requires d >= 2.0
    ensures Over(1.0, d) <= 0.5
  {
    var q := 1.0 / d;
    assert q * d == 1.0;
    if q > 0.5 {
      ScaleOrder(d, 0.5, q);
    }
  }

  /** Slope and offset never predict more than one half on the unit interval. */
  predicate Pessimistic(p: Params) {
    p.b <= 0.0 && p.a + p.b <= 0.0
  }

  lemma {:induction false} PessimisticGradient(exp: real -> real, p: Params, xs: seq<real>, ys: seq<real>, n: nat)
    requires IsExp(exp) && Pessimistic(p) && n <= |xs| && n <= |ys| && InUnit(xs) && InUnit(ys)
    ensures -Sum(ys, n) <= GradA(exp, p, xs, ys, n)
    ensures -Sum(ys, n) <= GradB(exp, p, xs, ys, n) <= 0.5 * n as real
  {
    if n > 0 {
      PessimisticGradient(exp, p, xs, ys, n - 1);
      PessimisticResidual(exp, p, xs[n - 1], ys[n - 1]);
    }
  }

  lemma {:induction false} PessimisticResidual(exp: real -> real, p: Params, x: real, y: real)
    requires IsExp(exp) && Pessimistic(p) && 0.0 <= x <= 1.0 && 0.0 <= y <= 1.0
    ensures -y <= Residual(exp, p, x, y) <= 0.5
    ensures -y <= Times(Residual(exp, p, x, y), x)
  {
    if p.a >= 0.0 {
      TimesMonotone(p.a, x, 1.0);
      assert Times(p.a, 1.0) == p.a;
    } else {
      TimesMonotone(-p.a, 0.0, x);
      assert Times(-p.a, 0.0) == 0.0 && Times(-p.a, x) == -Times(p.a, x);
    }
    HalfBelowZero(exp, ClampZ(Times(p.a, x) + p.b));
    AtLeastLabel(Residual(exp, p, x, y), x, y);
  }

  lemma {:induction false} AtLeastLabel(e: real, x: real, y: real)
    requires -y <= e && 0.0 <= x <= 1.0 && 0.0 <= y
    ensures -y <= Times(e, x)
  {
    TimesMonotone(x, -y, e);
    TimesMonotone(y, x, 1.0);
    assert Times(x, -y) == -Times(y, x) && Times(y, 1.0) == y && Times(x, e) == Times(e, x);
  }

  /** From a low start and few wins: slope and offset rise by at most 0.3, and the offset falls by at most 0.5, for
      each unit the learning rate has spent. */
  predicate Subdued(b0: real, p: Params) {
    var spent := 5.0 - 50.0 * p.lr;
    && p.lr > 0.0
    && p.a <= 2.0 + 0.3 * spent
    && b0 - 0.5 * spent <= p.b <= b0 + 0.3 * spent
  }

  lemma {:induction false} StepStaysSubdued(exp: real -> real, xs: seq<real>, ys: seq<real>, b0: real, p: Params)
    requires IsExp(exp) && |xs| == |ys| > 0 && InUnit(xs) && InUnit(ys)
    requires b0 <= -5.0 && Mean(ys) <= 0.3 && Subdued(b0, p)
    ensures Subdued(b0, Descend(exp, xs, ys, p))
  {
    var n := |xs| as real;
    var gradA, gradB := GradA(exp, p, xs, ys, |xs|), GradB(exp, p, xs, ys, |xs|);
    PessimisticGradient(exp, p, xs, ys, |xs|);
    AtMostShare(Sum(ys, |ys|), n);
    ShareOf(p.lr, gradA, n);
    ShareOf(p.lr, gradB, n);
    SubduedStep(b0, p, Descend(exp, xs, ys, p), Times(p.lr, Over(gradA, n)), Times(p.lr, Over(gradB, n)));
  }

  lemma {:induction false} AtMostShare(total: real, n: real)
    requires n > 0.0 && Over(total, n) <= 0.3
    ensures total <= 0.3 * n
  {
    ScaleOrder(n, Over(total, n), 0.3);
    assert n * Over(total, n) == total;
  }

  lemma {:induction false} SubduedStep(b0: real, p: Params, q: Params, da: real, db: real)
    requires Subdued(b0, p) && q == Params(p.a - da, p.b - db, p.lr * 0.98)
    requires -0.3 * p.lr <= da && -0.3 * p.lr <= db <= 0.5 * p.lr
    ensures Subdued(b0, q)
  {
  }

  lemma {:induction false} ShareOf(lr: real, grad: real, n: real)
    requires lr > 0.0 && n > 0.0
    ensures grad >= -0.3 * n ==> Times(lr, Over(grad, n)) >= -0.3 * lr
    ensures grad <= 0.5 * n ==> Times(lr, Over(grad, n)) <= 0.5 * lr
  {
    var g := grad / n;
    assert n * g == grad;
    if grad >= -0.3 * n {
      ScaleOrder(n, -0.3, g);
      TimesMonotone(lr, -0.3, g);
      assert Times(lr, -0.3) == -0.3 * lr;
    }
    if grad <= 0.5 * n {
      ScaleOrder(n, g, 0.5);
      TimesMonotone(lr, g, 0.5);
      assert Times(lr, 0.5) == 0.5 * lr;
    }
  }

  lemma {:induction false} StaysSubdued(exp: real -> real, xs: seq<real>, ys: seq<real>, start: Params, k: nat)
    requires IsExp(exp) && |xs| == |ys| > 0 && InUnit(xs) && InUnit(ys)
    requires start.a == 2.0 && start.lr == 0.1 && start.b <= -5.0 && Mean(ys) <= 0.3
    ensures Subdued(start.b, Iterate(exp, xs, ys, start, k))
  {
    if k > 0 {
      StaysSubdued(exp, xs, ys, start, k - 1);
      StepStaysSubdued(exp, xs, ys, start.b, Iterate(exp, xs, ys, start, k - 1));
    }
  }

  /** The fit is refused exactly for empty or mismatched data: a sample with labels in [0, 1], whatever its scores,
      is always accepted. A start too low for the drift bound alone means few wins, and then every prediction
      stays at or below one half, so the offset cannot fall as fast. */
  lemma {:induction false} EverySampleAccepted(exp: real -> real, log: real -> real, scores: seq<real>, labels: seq<real>)
    requires IsNaturalExp(exp) && IsLog(exp, log)
    requires |scores| == |labels| > 0 && InUnit(labels)
    ensures var p := Fitted(exp, log, scores, labels);
      Accept(log, labels, p) == Some(if p.a < 0.0 then (0.0, Logit(log, BaseRate(labels))) else (p.a, p.b))
  {
    var xs := Map(Normalize, scores);
    var start := Start(log, xs, labels);
    NormalizedInUnit(scores);
    MeanInUnit(xs);
    MeanInUnit(labels);
    assert Times(2.0, Mean(xs)) == 2.0 * Mean(xs);
    LogitBounds(exp, log, BaseRate(labels));
    if start.b >= -5.0 {
      ModestStartAccepted(exp, log, scores, labels);
    } else {
      StaysSubdued(exp, xs, labels, start, 100);
      AcceptedExactlyWhen(exp, log, scores, labels);
    }
  }

  // ----- The direction of descent -----

  ghost predicate Constant(ys: seq<real>, y: real) {
    forall i :: 0 <= i < |ys| ==> ys[i] == y
  }

  lemma {:induction false} GradientSign(exp: real -> real, p: Params, xs: seq<real>, ys: seq<real>, y: real, n: nat)
    requires IsExp(exp) && n <= |xs| && n <= |ys| && InUnit(xs) && Constant(ys, y) && (y == 0.0 || y == 1.0)
    ensures y == 1.0 ==> GradA(exp, p, xs, ys, n) <= 0.0 && (n > 0 ==> GradB(exp, p, xs, ys, n) < 0.0)
    ensures y == 0.0 ==> GradA(exp, p, xs, ys, n) >= 0.0 && (n > 0 ==> GradB(exp, p, xs, ys, n) > 0.0)
  {
    if n > 0 {
      GradientSign(exp, p, xs, ys, y, n - 1);
      var x := xs[n - 1];
      SigmoidInUnit(exp, ClampZ(Times(p.a, x) + p.b));
      ProductInUnit(Residual(exp, p, x, ys[n - 1]), x);
      if n == 1 {
        assert GradB(exp, p, xs, ys, 0) == 0.0;
      }
    }
  }

  /** On data with only wins every iteration raises the offset and never lowers the slope; with only losses
      every iteration lowers the offset and never raises the slope. */
  lemma {:induction false} OneClassDirection(exp: real -> real, xs: seq<real>, ys: seq<real>, start: Params, y: real, k: nat)
    requires IsExp(exp) && |xs| == |ys| > 0 && InUnit(xs) && Constant(ys, y) && (y == 0.0 || y == 1.0) && start.lr == 0.1
    ensures var p, q := Iterate(exp, xs, ys, start, k), Iterate(exp, xs, ys, start, k + 1);
      if y == 1.0 then q.a >= p.a && q.b > p.b else q.a <= p.a && q.b < p.b
  {
    var p := Iterate(exp, xs, ys, start, k);
    var n := |xs|;
    RateDecays(exp, xs, ys, start, k);
    GradientSign(exp, p, xs, ys, y, n);
    StepSign(p.lr, GradA(exp, p, xs, ys, n), n as real);
    StepSign(p.lr, GradB(exp, p, xs, ys, n), n as real);
  }

  lemma {:induction false} StepSign(lr: real, grad: real, n: real)
    requires lr > 0.0 && n > 0.0
    ensures grad > 0.0 ==> Times(lr, Over(grad, n)) > 0.0
    ensures grad >= 0.0 ==> Times(lr, Over(grad, n)) >= 0.0
    ensures grad < 0.0 ==> Times(lr, Over(grad, n)) < 0.0
    ensures grad <= 0.0 ==> Times(lr, Over(grad, n)) <= 0.0
  {
    Quotient(grad, n);
    var g := grad / n;
    ScaleOrder(lr, 0.0, g);
    ScaleOrder(lr, g, 0.0);
    assert lr * 0.0 == 0.0;
  }

  // ----- What an accepted fit promises -----

  ghost function Calibrated(exp: real -> real, a: real, b: real, score: real): real
    requires IsExp(exp)
  {
    Sigmoid(exp, Times(a, Normalize(score)) + b)
  }

  /** A fit whose slope came out negative is replaced by a constant: every score gets the base rate itself. */
  lemma {:induction false} FlatFitIsBaseRate(exp: real -> real, log: real -> real, labels: seq<real>, score: real)
    requires IsExp(exp) && IsLog(exp, log) && |labels| > 0
    ensures Calibrated(exp, 0.0, Logit(log, BaseRate(labels)), score) == BaseRate(labels)
  {
    var c := BaseRate(labels);
    var l := Logit(log, c);
    assert Times(0.0, Normalize(score)) + l == l;
    Quotient(c, 1.0 - c);
    assert exp(l) == Over(c, 1.0 - c);
    assert Times(exp(l), exp(-l)) == 1.0;
    SigmoidOfLogit(c, exp(l), exp(-l));
  }

  lemma {:induction false} SigmoidOfLogit(c: real, e: real, e': real)
    requires 0.0 < c < 1.0 && e == Over(c, 1.0 - c) && Times(e, e') == 1.0 && e' > 0.0
    ensures Over(1.0, 1.0 + e') == c
  {
    OddsFlip(c, e, e');
    assert c * (1.0 + e') == c + c * e' == 1.0;
    QuotientIs(1.0, 1.0 + e', c);
  }

  /** The replacement reproduces the observed win rate exactly when that rate lies between 1% and 99%. */
  lemma {:induction false} FlatFitHonestExactlyWhen(exp: real -> real, log: real -> real, labels: seq<real>, score: real)
    requires IsExp(exp) && IsLog(exp, log) && |labels| > 0
    ensures Calibrated(exp, 0.0, Logit(log, BaseRate(labels)), score) == Mean(labels)
            <==> 0.01 <= Mean(labels) <= 0.99
  {
    FlatFitIsBaseRate(exp, log, labels, score);
  }

  lemma {:induction false} NormalizeMonotone(s: real, t: real)
    requires s <= t
    ensures Normalize(s) <= Normalize(t)
    ensures 0.0 <= s && t <= 100.0 && s < t ==> Normalize(s) < Normalize(t)
  {
  }

  /** A logistic model serves non-decreasing probabilities exactly when its slope is not negative. */
  lemma {:induction false} ServedMonotoneExactlyWhen(exp: real -> real, a: real, b: real)
    requires IsExp(exp)
    ensures (forall s, t :: s <= t ==> Calibrated(exp, a, b, s) <= Calibrated(exp, a, b, t)) <==> a >= 0.0
  {
    if a >= 0.0 {
      forall s, t | s <= t
        ensures Calibrated(exp, a, b, s) <= Calibrated(exp, a, b, t)
      {
        RisingSlope(exp, a, b, s, t);
      }
    } else {
      FallingSlope(exp, a, b);
    }
  }

  lemma {:induction false} RisingSlope(exp: real -> real, a: real, b: real, s: real, t: real)
    requires IsExp(exp) && a >= 0.0 && s <= t
    ensures Calibrated(exp, a, b, s) <= Calibrated(exp, a, b, t)
  {
    NormalizeMonotone(s, t);
    TimesMonotone(a, Normalize(s), Normalize(t));
    SigmoidMonotone(exp, Times(a, Normalize(s)) + b, Times(a, Normalize(t)) + b);
  }

  lemma {:induction false} FallingSlope(exp: real -> real, a: real, b: real)
    requires IsExp(exp) && a < 0.0
    ensures Calibrated(exp, a, b, 100.0) < Calibrated(exp, a, b, 0.0)
  {
    assert Normalize(0.0) == 0.0 && Normalize(100.0) == 1.0;
    assert Times(a, 0.0) == 0.0 && Times(a, 1.0) == a;
    SigmoidMonotone(exp, Times(a, Normalize(100.0)) + b, Times(a, Normalize(0.0)) + b);
  }

  /** Hence every accepted live fit serves probabilities that never fall as the score rises. */
  lemma {:induction false} AcceptedFitServesMonotone(exp: real -> real, log: real -> real, scores: seq<real>, labels: seq<real>, s: real, t: real)
    requires IsExp(exp) && |scores| == |labels| > 0 && s <= t
    requires Accept(log, labels, Fitted(exp, log, scores, labels)).Some?
    ensures var (a, b) := Accept(log, labels, Fitted(exp, log, scores, labels)).value;
      Calibrated(exp, a, b, s) <= Calibrated(exp, a, b, t)
  {
    var (a, b) := Accept(log, labels, Fitted(exp, log, scores, labels)).value;
    ServedMonotoneExactlyWhen(exp, a, b);
  }

  // ----- The iteration in explicit sums -----

  /** The probability the current model gives a score, with its argument kept within 20 of zero. */
  ghost function Prediction(exp: real -> real, a: real, b: real, x: real): real
    requires IsExp(exp)
  {
    var z := Times(a, x) + b;
    Over(1.0, 1.0 + exp(-(if z > 20.0 then 20.0 else if z < -20.0 then -20.0 else z)))
  }

  ghost function Errors(exp: real -> real, a: real, b: real, xs: seq<real>, ys: seq<real>): (r: seq<real>)
    requires IsExp(exp) && |xs| == |ys|
    ensures |r| == |xs| && forall i :: 0 <= i < |xs| ==> r[i] == Prediction(exp, a, b, xs[i]) - ys[i]
  {
    seq(|xs|, i requires 0 <= i < |xs| => Prediction(exp, a, b, xs[i]) - ys[i])
  }

  /** Each error weighted with its score. */
  ghost function Weighted(errors: seq<real>, xs: seq<real>): (r: seq<real>)
    requires |errors| == |xs|
    ensures |r| == |xs| && forall i :: 0 <= i < |xs| ==> r[i] == Times(errors[i], xs[i])
  {
    seq(|xs|, i requires 0 <= i < |xs| => Times(errors[i], xs[i]))
  }

  lemma {:induction false} ErrorIsResidual(exp: real -> real, p: Params, x: real, y: real)
    requires IsExp(exp)
    ensures Residual(exp, p, x, y) == Prediction(exp, p.a, p.b, x) - y
  {
  }

  lemma {:induction false} GradientsAreSums(exp: real -> real, p: Params, xs: seq<real>, ys: seq<real>, errors: seq<real>, n: nat)
    requires IsExp(exp) && |xs| == |ys| == |errors| && n <= |xs|
    requires forall i :: 0 <= i < |xs| ==> errors[i] == Residual(exp, p, xs[i], ys[i])
    ensures GradA(exp, p, xs, ys, n) == Sum(Weighted(errors, xs), n)
    ensures GradB(exp, p, xs, ys, n) == Sum(errors, n)
  {
    if n > 0 {
      GradientsAreSums(exp, p, xs, ys, errors, n - 1);
    }
  }

  /** One iteration moves the slope against the mean of the errors weighted with the scores, the offset against the
      mean error, and shrinks the rate by two percent. */
  lemma {:induction false} StepInSums(exp: real -> real, xs: seq<real>, ys: seq<real>, p: Params)
    requires IsExp(exp) && |xs| == |ys| > 0
    ensures var errors, n := Errors(exp, p.a, p.b, xs, ys), |xs| as real;
      var q := Descend(exp, xs, ys, p);
      && q.a == p.a - Times(p.lr, Over(Sum(Weighted(errors, xs), |xs|), n))
      && q.b == p.b - Times(p.lr, Over(Sum(errors, |xs|), n))
      && q.lr == p.lr * 0.98
  {
    var errors := Errors(exp, p.a, p.b, xs, ys);
    forall i | 0 <= i < |xs|
      ensures errors[i] == Residual(exp, p, xs[i], ys[i])
    {
      ErrorIsResidual(exp, p, xs[i], ys[i]);
    }
    GradientsAreSums(exp, p, xs, ys, errors, |xs|);
  }

  lemma {:induction false} SumZero(rs: seq<real>, n: nat)
    requires n <= |rs| && forall i :: 0 <= i < |rs| ==> rs[i] == 0.0
    ensures Sum(rs, n) == 0.0
  {
    if n > 0 {
      SumZero(rs, n - 1);
    }
  }

  /** Samples that all score zero say nothing about the slope: no iteration moves it. */
  lemma {:induction false} ZeroScoresKeepSlope(exp: real -> real, xs: seq<real>, ys: seq<real>, start: Params, k: nat)
    requires IsExp(exp) && |xs| == |ys| > 0 && forall i :: 0 <= i < |xs| ==> xs[i] == 0.0
    ensures Iterate(exp, xs, ys, start, k).a == start.a
  {
    if k > 0 {
      ZeroScoresKeepSlope(exp, xs, ys, start, k - 1);
      ZeroScoresStep(exp, xs, ys, Iterate(exp, xs, ys, start, k - 1));
    }
  }

  lemma {:induction false} ZeroScoresStep(exp: real -> real, xs: seq<real>, ys: seq<real>, p: Params)
    requires IsExp(exp) && |xs| == |ys| > 0 && forall i :: 0 <= i < |xs| ==> xs[i] == 0.0
    ensures Descend(exp, xs, ys, p).a == p.a
  {
    var errors := Errors(exp, p.a, p.b, xs, ys);
    StepInSums(exp, xs, ys, p);
    WeightedByZero(errors, xs);
    SumZero(Weighted(errors, xs), |xs|);
    QuotientIs(0.0, |xs| as real, 0.0);
    assert Times(p.lr, 0.0) == 0.0;
  }

  lemma {:induction false} WeightedByZero(errors: seq<real>, xs: seq<real>)
    requires |errors| == |xs| && forall i :: 0 <= i < |xs| ==> xs[i] == 0.0
    ensures forall i :: 0 <= i < |xs| ==> Weighted(errors, xs)[i] == 0.0
  {
    forall i | 0 <= i < |xs|
      ensures Weighted(errors, xs)[i] == 0.0
    {
      assert Times(errors[i], 0.0) == 0.0;
    }
  }

  /** Wins score 1 and losses 0. */
  ghost predicate WinsOnTop(xs: seq<real>, ys: seq<real>) {
    && |xs| == |ys|
    && forall i :: 0 <= i < |xs| ==> (xs[i] == 0.0 || xs[i] == 1.0) && ys[i] == xs[i]
  }

  lemma {:induction false} WinsPullUp(errors: seq<real>, xs: seq<real>, n: nat)
    requires |errors| == |xs| && n <= |xs|
    requires forall i :: 0 <= i < |xs| ==> xs[i] == 0.0 || (xs[i] == 1.0 && errors[i] < 0.0)
    ensures Sum(Weighted(errors, xs), n) <= 0.0
    ensures (exists i :: 0 <= i < n && xs[i] == 1.0) ==> Sum(Weighted(errors, xs), n) < 0.0
  {
    if n > 0 {
      WinsPullUp(errors, xs, n - 1);
      var e := errors[n - 1];
      assert Times(e, 0.0) == 0.0 && Times(e, 1.0) == e;
    }
  }

  lemma {:induction false} WinsUnderestimated(exp: real -> real, a: real, b: real, xs: seq<real>, ys: seq<real>)
    requires IsExp(exp) && WinsOnTop(xs, ys)
    ensures forall i :: 0 <= i < |xs| && xs[i] == 1.0 ==> Errors(exp, a, b, xs, ys)[i] < 0.0
  {
    forall i | 0 <= i < |xs|
      ensures Prediction(exp, a, b, xs[i]) < 1.0
    {
      var z := Times(a, xs[i]) + b;
      SigmoidInUnit(exp, if z > 20.0 then 20.0 else if z < -20.0 then -20.0 else z);
    }
  }

  /** With wins at the top score and losses at the bottom one, every iteration raises the slope. */
  lemma {:induction false} SeparationRaisesSlope(exp: real -> real, xs: seq<real>, ys: seq<real>, start: Params, k: nat)
    requires IsExp(exp) && WinsOnTop(xs, ys) && start.lr > 0.0 && exists i :: 0 <= i < |xs| && xs[i] == 1.0
    ensures Iterate(exp, xs, ys, start, k + 1).a > Iterate(exp, xs, ys, start, k).a
  {
    var p := Iterate(exp, xs, ys, start, k);
    RatePositive(exp, xs, ys, start, k);
    StepInSums(exp, xs, ys, p);
    WinsUnderestimated(exp, p.a, p.b, xs, ys);
    WinsPullUp(Errors(exp, p.a, p.b, xs, ys), xs, |xs|);
    StepSign(p.lr, Sum(Weighted(Errors(exp, p.a, p.b, xs, ys), xs), |xs|), |xs| as real);
  }

  lemma {:induction false} SeparationKeepsRaising(exp: real -> real, xs: seq<real>, ys: seq<real>, start: Params, k: nat)
    requires IsExp(exp) && WinsOnTop(xs, ys) && start.lr > 0.0 && exists i :: 0 <= i < |xs| && xs[i] == 1.0
    ensures Iterate(exp, xs, ys, start, k).a >= start.a && (k > 0 ==> Iterate(exp, xs, ys, start, k).a > start.a)
  {
    if k > 0 {
      SeparationKeepsRaising(exp, xs, ys, start, k - 1);
      SeparationRaisesSlope(exp, xs, ys, start, k - 1);
    }
  }

  /** A win at 100 and a loss at 0: the fitted slope ends above its start at 2. */
  lemma {:induction false} TwoSampleWitness(exp: real -> real, log: real -> real)
    requires IsExp(exp)
    ensures Fitted(exp, log, [100.0, 0.0], [1.0, 0.0]).a > 2.0
  {
    var xs, ys := Map(Normalize, [100.0, 0.0]), [1.0, 0.0];
    assert xs == [1.0, 0.0];
    assert xs[0] == 1.0;
    SeparationKeepsRaising(exp, xs, ys, Start(log, xs, ys), 100);
  }

  /** The fit starts with slope 2 and predicts the base rate at the mean score, and makes one hundred iterations: its
      final rate is the one a hundred decays leave. */
  lemma {:induction false} FitFromBaseRate(exp: real -> real, log: real -> real, scores: seq<real>, labels: seq<real>)
    requires IsExp(exp) && IsLog(exp, log) && |scores| == |labels| > 0
    ensures var xs := Map(Normalize, scores);
      var start := Start(log, xs, labels);
      && start.a == 2.0 && start.lr == 0.1
      && Sigmoid(exp, 2.0 * Mean(xs) + start.b) == BaseRate(labels)
      && Fitted(exp, log, scores, labels).lr == 0.1 * Pow(0.98, 100)
  {
    var xs := Map(Normalize, scores);
    var start := Start(log, xs, labels);
    var l := Logit(log, BaseRate(labels));
    assert Times(2.0, Mean(xs)) == 2.0 * Mean(xs);
    assert 2.0 * Mean(xs) + start.b == l;
    FlatFitIsBaseRate(exp, log, labels, 0.0);
    assert Times(0.0, Normalize(0.0)) + l == l;
    RateDecays(exp, xs, labels, start, 100);
  }
}
