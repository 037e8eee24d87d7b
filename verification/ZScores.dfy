/** Rolling z-scores and the shock classifier: the sample size alone limits how extreme a z-score can be. */
module ZScores {
  import opened Options
  import opened Reals
  import opened Statistics

  ghost function Variance(xs: seq<real>): (v: real)
    requires |xs| > 0
    ensures v >= 0.0
  {
    Quotient(Spread(xs, Mean(xs), |xs|), |xs| as real);
    Over(Spread(xs, Mean(xs), |xs|), |xs| as real)
  }

  /** The latest value of the sample in standard deviations from the mean; None when the deviation is zero. */
  ghost function Score(sqrt: real -> real, xs: seq<real>): Option<real>
    requires IsSqrt(sqrt) && |xs| > 0
  {
    var std := sqrt(Variance(xs));
    if std == 0.0 then None else Some(Over(xs[|xs| - 1] - Mean(xs), std))
  }

  // ----- Samuelson's inequality -----

  /** Sum of deviations from `m`. */
  function Deviation(xs: seq<real>, m: real, n: nat): real
    requires n <= |xs|
  {
    if n == 0 then 0.0 else Deviation(xs, m, n - 1) + (xs[n - 1] - m)
  }

  lemma {:induction false} DeviationIs(xs: seq<real>, m: real, n: nat)
    requires n <= |xs|
    ensures Deviation(xs, m, n) == Sum(xs, n) - Times(m, n as real)
  {
    if n > 0 {
      DeviationIs(xs, m, n - 1);
      assert Times(m, n as real) == Times(m, (n - 1) as real) + m;
    }
  }

  lemma {:induction false} DeviationsCancel(xs: seq<real>)
    requires |xs| > 0
    ensures Deviation(xs, Mean(xs), |xs|) == 0.0
  {
    DeviationIs(xs, Mean(xs), |xs|);
    var n := |xs| as real;
    assert Mean(xs) * n == Sum(xs, |xs|);
  }

  /** (d1 + ... + dn)^2 <= (d1^2 + ... + dn^2) n. */
  lemma {:induction false} DeviationSquared(xs: seq<real>, m: real, n: nat)
    requires n <= |xs|
    ensures Square(Deviation(xs, m, n)) <= Times(Spread(xs, m, n), n as real)
  {
    if n == 0 {
      assert Square(0.0) == 0.0 == Times(0.0, 0.0);
    } else {
      DeviationSquared(xs, m, n - 1);
      var d := xs[n - 1] - m;
      assert Times(d, 1.0) == d && Square(1.0) == 1.0;
      CauchyStep(
        Deviation(xs, m, n - 1), Spread(xs, m, n - 1), (n - 1) as real, d, 1.0,
        Deviation(xs, m, n), Spread(xs, m, n), n as real);
    }
  }

  lemma {:induction false} SamuelsonScalar(latest: real, spread: real, n: real)
    requires n >= 1.0 && Square(latest) <= Times(spread - Square(latest), n - 1.0)
    ensures Times(Square(latest), n) <= Times(spread, n - 1.0)
  {
    var s := Square(latest);
    assert Times(spread - s, n - 1.0) == Times(spread, n - 1.0) - Times(s, n) + s;
  }

  /** Samuelson: the latest value lies within sqrt(n - 1) standard deviations of its own sample's mean. */
  lemma {:induction false} Samuelson(xs: seq<real>)
    requires |xs| > 0
    ensures Square(xs[|xs| - 1] - Mean(xs)) <= Times(Variance(xs), (|xs| - 1) as real)
  {
    var n, m := |xs|, Mean(xs);
    var latest, spread := xs[n - 1] - m, Spread(xs, m, n);
    DeviationsCancel(xs);
    DeviationSquared(xs, m, n - 1);
    assert Deviation(xs, m, n - 1) == -latest && Square(-latest) == Square(latest);
    SamuelsonScalar(latest, spread, n as real);
    DivideThrough(Square(latest), spread, n as real, Variance(xs), (n - 1) as real);
  }

  lemma {:induction false} DivideThrough(s: real, spread: real, n: real, variance: real, k: real)
    requires n > 0.0 && variance == Over(spread, n) && Times(s, n) <= Times(spread, k)
    ensures s <= Times(variance, k)
  {
    assert variance * n == spread;
    assert Times(spread, k) == n * (variance * k);
    ScaleOrder(n, s, variance * k);
  }

  /** So the square of any z-score is at most the sample size minus one. */
  lemma {:induction false} ScoreBounded(sqrt: real -> real, xs: seq<real>)
    requires IsSqrt(sqrt) && |xs| > 0
    ensures Score(sqrt, xs).Some? ==> Square(Score(sqrt, xs).value) <= (|xs| - 1) as real
  {
    if Score(sqrt, xs).Some? {
      Samuelson(xs);
      var std := sqrt(Variance(xs));
      SquareZero(std);
      ScoreSquared(xs[|xs| - 1] - Mean(xs), std, Variance(xs), Score(sqrt, xs).value);
      CancelVariance(Variance(xs), Square(Score(sqrt, xs).value), (|xs| - 1) as real);
    }
  }

  lemma {:induction false} CancelVariance(variance: real, s: real, bound: real)
    requires variance > 0.0 && Times(variance, s) <= Times(variance, bound)
    ensures s <= bound
  {
    ScaleOrder(variance, s, bound);
  }

  /** What a z-score says: so many deviations above the mean, where the squared deviation is the mean of the squares. */
  lemma {:induction false} ScoreInDeviations(sqrt: real -> real, xs: seq<real>)
    requires IsSqrt(sqrt) && |xs| > 0
    ensures Score(sqrt, xs) == None <==> Flat(xs)
    ensures Score(sqrt, xs).Some? ==>
      var std := sqrt(Over(Sum(Products(xs, xs), |xs|), |xs| as real));
      && std > 0.0
      && Times(Score(sqrt, xs).value, std) == xs[|xs| - 1] - Over(Sum(xs, |xs|), |xs| as real)
  {
    var std := sqrt(Variance(xs));
    SpreadIsCoMoment(xs, Mean(xs), |xs|);
    CoMomentIsSum(xs, xs, |xs|);
    SpreadlessExactlyWhenFlat(xs);
    Quotient(Spread(xs, Mean(xs), |xs|), |xs| as real);
    SquareZero(std);
    if std != 0.0 {
      TimesOver(xs[|xs| - 1] - Mean(xs), std);
    }
  }

  lemma {:induction false} ScoreSquared(d: real, std: real, variance: real, z: real)
    requires std != 0.0 && Square(std) == variance && z == Over(d, std)
    ensures Times(variance, Square(z)) == Square(d)
  {
    assert z * std == d;
    SquareProduct(z, std);
  }

  // ----- The two methods -----

  method MeanAndDeviation(sqrt: real -> real, sample: seq<real>) returns (mean: real, std: real)
    requires IsSqrt(sqrt) && |sample| > 0
    ensures mean == Mean(sample) && std == sqrt(Variance(sample)) && std >= 0.0
  {
    var n := |sample|;
    var sum := 0.0;
    for i := 0 to n
      invariant sum == Sum(sample, i)
    {
      sum := sum + sample[i];
    }
    mean := sum / n as real;
    var variance := 0.0;
    for i := 0 to n
      invariant variance == Spread(sample, mean, i)
    {
      var d := sample[i] - mean;
      variance := variance + d * d;
      assert d * d == Square(d);
    }
    variance := variance / n as real;
    assert variance == Variance(sample);
    std := sqrt(variance);
  }

  method ZScore(sqrt: real -> real, values: seq<real>, window: int) returns (z: real)
    requires IsSqrt(sqrt)
    ensures z == ZScoreOf(sqrt, values, window)
    ensures window > 0 ==> Square(z) <= (window - 1) as real
  {
    if window <= 0 || |values| < window {
      SquareZero(0.0);
      return 0.0;
    }
    var sample := values[|values| - window..];
    ScoreBounded(sqrt, sample);
    var mean, std := MeanAndDeviation(sqrt, sample);
    if std == 0.0 {
      SquareZero(0.0);
      return 0.0;
    }
    z := (values[|values| - 1] - mean) / std;
    assert z == Over(sample[window - 1] - mean, std);
  }

  ghost function ZScoreOf(sqrt: real -> real, values: seq<real>, window: int): real
    requires IsSqrt(sqrt)
  {
    if window <= 0 || |values| < window then 0.0
    else
      match Score(sqrt, values[|values| - window..])
      case Some(z) => z
      case None => 0.0
  }

  // ----- Shock detection -----

  datatype Severity = Normal | Elevated | Shock | Extreme
  datatype Heading = Unset | Neutral | Up | Down
  datatype ShockResult = ShockResult(state: Severity, score: real, direction: Heading, confidence: real, zScore: real)

  function Rank(s: Severity): nat {
    match s
    case Normal => 0
    case Elevated => 1
    case Shock => 2
    case Extreme => 3
  }

  function Lookback(lookback: int): nat {
    if lookback <= 0 then 50 else lookback
  }

  function Classify(z: real): Severity {
    if Abs(z) > 4.0 then Extreme
    else if Abs(z) > 3.0 then Shock
    else if Abs(z) > 2.0 then Elevated
    else Normal
  }

  /** The state a return series is classified into. */
  ghost function StateOf(sqrt: real -> real, returns_: seq<real>, lookback: int): Severity
    requires IsSqrt(sqrt)
  {
    var n := Lookback(lookback);
    if |returns_| < n then Normal
    else
      match Score(sqrt, returns_[|returns_| - n..])
      case Some(z) => Classify(z)
      case None => Normal
  }

  /** The score of a normal reading: ten times the latest move in deviations, at most 25. */
  ghost function QuietScore(sqrt: real -> real, sample: seq<real>): real
    requires IsSqrt(sqrt) && |sample| > 0 && Score(sqrt, sample).Some?
  {
    var move := Over(Abs(sample[|sample| - 1]), sqrt(Variance(sample))) * 10.0;
    if move < 25.0 then move else 25.0
  }

  method DetectBTCShock(sqrt: real -> real, btcReturns: seq<real>, lookback: int) returns (r: ShockResult)
    requires IsSqrt(sqrt)
    ensures r.state == StateOf(sqrt, btcReturns, lookback)
    ensures |btcReturns| >= Lookback(lookback) ==>
      var sample := btcReturns[|btcReturns| - Lookback(lookback)..];
      r.zScore == (if Score(sqrt, sample).Some? then Score(sqrt, sample).value else 0.0)
    ensures |btcReturns| >= Lookback(lookback) ==>
      var sample := btcReturns[|btcReturns| - Lookback(lookback)..];
      if Score(sqrt, sample).None? then r == ShockResult(Normal, 0.0, Unset, 0.0, 0.0)
      else
        && (r.state == Normal ==> r.score == QuietScore(sqrt, sample))
        && (r.zScore == 0.0 ==> r.direction == Neutral)
    ensures |btcReturns| < Lookback(lookback) ==> r == ShockResult(Normal, 0.0, Unset, 0.0, 0.0)
    ensures Square(r.zScore) <= (Lookback(lookback) - 1) as real
    ensures r.confidence == if Abs(r.zScore) >= 5.0 then 1.0 else Abs(r.zScore) / 5.0
    ensures match r.state
            case Extreme => r.score == 100.0
            case Shock => r.score == 75.0
            case Elevated => r.score == 50.0
            case Normal => 0.0 <= r.score <= 25.0
    ensures r.state == Extreme <==> r.zScore > 4.0 || r.zScore < -4.0
    ensures r.state == Shock <==> 3.0 < r.zScore <= 4.0 || -4.0 <= r.zScore < -3.0
    ensures r.state == Elevated <==> 2.0 < r.zScore <= 3.0 || -3.0 <= r.zScore < -2.0
    ensures r.state == Normal <==> -2.0 <= r.zScore <= 2.0
    ensures r.zScore > 0.0 ==> r.direction == Up
    ensures r.zScore < 0.0 ==> r.direction == Down
  {
    var n := if lookback <= 0 then 50 else lookback;
    SquareZero(0.0);
    if |btcReturns| < n {
      return ShockResult(Normal, 0.0, Unset, 0.0, 0.0);
    }
    var sample := btcReturns[|btcReturns| - n..];
    ScoreBounded(sqrt, sample);
    var mean, std := MeanAndDeviation(sqrt, sample);
    if std == 0.0 {
      return ShockResult(Normal, 0.0, Unset, 0.0, 0.0);
    }
    var latest := btcReturns[|btcReturns| - 1];
    var z := (latest - mean) / std;
    assert z == Over(sample[n - 1] - mean, std);
    var atrNormMove := Abs(latest) / std;
    assert atrNormMove >= 0.0;
    var state, score;
    if Abs(z) > 4.0 {
      state, score := Extreme, 100.0;
    } else if Abs(z) > 3.0 {
      state, score := Shock, 75.0;
    } else if Abs(z) > 2.0 {
      state, score := Elevated, 50.0;
    } else {
      state := Normal;
      score := if atrNormMove * 10.0 < 25.0 then atrNormMove * 10.0 else 25.0;
    }
    var direction := Neutral;
    if z > 0.0 {
      direction := Up;
    } else if z < 0.0 {
      direction := Down;
    }
    var confidence := if 1.0 < Abs(z) / 5.0 then 1.0 else Abs(z) / 5.0;
    r := ShockResult(state, score, direction, confidence, z);
  }

  // ----- Which severities a window can produce at all -----

  /** All zeros but the last value: the series that attains the bound. */
  function Spike(n: nat): (xs: seq<real>)
    requires n > 0
    ensures |xs| == n
  {
    seq(n, i => if i == n - 1 then 1.0 else 0.0)
  }

  lemma {:induction false} SpikeSum(n: nat, k: nat)
    requires k <= n && n > 0
    ensures Sum(Spike(n), k) == if k == n then 1.0 else 0.0
  {
    if k > 0 {
      SpikeSum(n, k - 1);
    }
  }

  lemma {:induction false} SpikeSpread(n: nat, m: real, k: nat)
    requires k <= n && n > 0
    ensures Spread(Spike(n), m, k) ==
      if k == n then Times((n - 1) as real, Square(m)) + Square(1.0 - m) else Times(k as real, Square(m))
  {
    if k > 0 {
      SpikeSpread(n, m, k - 1);
      assert Square(0.0 - m) == Square(m);
      assert Times((k - 1) as real, Square(m)) + Square(m) == Times(k as real, Square(m));
    }
  }

  /** The spike's z-score is positive and its square is exactly n - 1. */
  lemma {:induction false} SpikeAttains(sqrt: real -> real, n: nat)
    requires IsSqrt(sqrt) && n > 1
    ensures var s := Score(sqrt, Spike(n));
      s.Some? && s.value > 0.0 && Square(s.value) == (n - 1) as real
  {
    var xs := Spike(n);
    var m, size := Mean(xs), n as real;
    SpikeSum(n, n);
    assert m * size == 1.0;
    SpikeSpread(n, m, n);
    SpikeScalar(size, m, Spread(xs, m, n), Variance(xs));
    var std := sqrt(Variance(xs));
    SquareZero(std);
    var z := Over(1.0 - m, std);
    ScoreSquared(1.0 - m, std, Variance(xs), z);
    assert 1.0 - m > 0.0 && std > 0.0;
    Quotient(1.0 - m, std);
    CancelFactor(Variance(xs), Square(z), size - 1.0);
  }

  lemma {:induction false} SpikeScalar(n: real, m: real, spread: real, variance: real)
    requires n > 1.0 && m * n == 1.0
    requires spread == Times(n - 1.0, Square(m)) + Square(1.0 - m) && variance == Over(spread, n)
    ensures m < 1.0 && variance > 0.0
    ensures Square(1.0 - m) == Times(variance, n - 1.0)
  {
    var k := n - 1.0;
    assert m > 0.0;
    assert k * m == 1.0 - m;
    assert k * m > 0.0;
    SquareProduct(k, m);
    var q := Square(m);
    assert q > 0.0 by {
      SquareZero(m);
    }
    assert spread == k * q + k * k * q == (k * q) * n;
    QuotientIs(spread, n, k * q);
    assert variance == k * q;
    assert k * q > 0.0;
    assert Square(1.0 - m) == Square(k) * q == (k * q) * k;
  }

  lemma {:induction false} CancelFactor(k: real, a: real, b: real)
    requires k > 0.0 && Times(k, a) == Times(k, b)
    ensures a == b
  {
    ScaleOrder(k, a, b);
    ScaleOrder(k, b, a);
  }

  /** A severity level needs a z-score above level + 1, hence a window of more than (level + 1)^2 + 1 samples;
      and every window that large can produce it. */
  lemma {:induction false} SeverityReachable(sqrt: real -> real, lookback: nat, level: nat)
    requires IsSqrt(sqrt) && lookback > 0 && 1 <= level <= 3
    ensures (exists rs: seq<real> :: Rank(StateOf(sqrt, rs, lookback)) >= level)
            <==> lookback >= (level + 1) * (level + 1) + 2
  {
    if lookback >= (level + 1) * (level + 1) + 2 {
      SpikeSeverity(sqrt, lookback, level);
    }
    forall rs: seq<real> | Rank(StateOf(sqrt, rs, lookback)) >= level
      ensures lookback >= (level + 1) * (level + 1) + 2
    {
      SeverityNeeds(sqrt, rs, lookback, level);
    }
  }

  lemma {:induction false} SpikeSeverity(sqrt: real -> real, n: nat, level: nat)
    requires IsSqrt(sqrt) && 1 <= level <= 3 && n >= (level + 1) * (level + 1) + 2
    ensures Rank(StateOf(sqrt, Spike(n), n)) >= level
  {
    SpikeAttains(sqrt, n);
    assert Spike(n)[0..] == Spike(n);
    var z := Score(sqrt, Spike(n)).value;
    var t := (level + 1) as real;
    SquareOrder(t, z);
    assert Square(t) == ((level + 1) * (level + 1)) as real;
    assert z > t;
  }

  lemma {:induction false} SeverityNeeds(sqrt: real -> real, rs: seq<real>, lookback: nat, level: nat)
    requires IsSqrt(sqrt) && lookback > 0 && 1 <= level <= 3
    requires Rank(StateOf(sqrt, rs, lookback)) >= level
    ensures lookback >= (level + 1) * (level + 1) + 2
  {
    var sample := rs[|rs| - lookback..];
    ScoreBounded(sqrt, sample);
    var z := Score(sqrt, sample).value;
    var t := (level + 1) as real;
    assert Abs(z) > t;
    SquareOrder(Abs(z), t);
    assert Square(Abs(z)) == Square(z);
    assert Square(t) == ((level + 1) * (level + 1)) as real;
  }
}
