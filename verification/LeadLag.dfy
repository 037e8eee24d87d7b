/** Lead/lag analysis: the lag with the strongest correlation, over all lags up to a maximum. */
module LeadLag {
  import opened Options
  import opened Reals
  import opened Statistics

  datatype Relation = Unset | Direct | Inverse | Unrelated

  datatype LagResult = LagResult(lag: int, direction: Relation, coefficient: real, confidence: real, sampleCount: int)

  function Size(lag: int): nat {
    if lag < 0 then -lag else lag
  }

  function Shorter(xau: seq<real>, asset: seq<real>): nat {
    if |asset| < |xau| then |asset| else |xau|
  }

  /** The two slices compared at one lag. */
  function XauSlice(xau: seq<real>, asset: seq<real>, lag: int): seq<real>
    requires Size(lag) < Shorter(xau, asset)
  {
    if lag >= 0 then xau[lag..] else xau[..Shorter(xau, asset) + lag]
  }

  function AssetSlice(xau: seq<real>, asset: seq<real>, lag: int): seq<real>
    requires Size(lag) < Shorter(xau, asset)
  {
    if lag >= 0 then asset[..Shorter(xau, asset) - lag] else asset[-lag..]
  }

  /** The correlation the analysis looks at for one lag; None if the lag is too long or the value undefined. */
  ghost function AtLag(sqrt: real -> real, xau: seq<real>, asset: seq<real>, lag: int): Option<real>
    requires IsSqrt(sqrt)
  {
    if Size(lag) >= Shorter(xau, asset) then None
    else Correlation(sqrt, XauSlice(xau, asset, lag), AssetSlice(xau, asset, lag))
  }

  function RelationOf(coefficient: real): Relation {
    if coefficient > 0.3 then Direct else if coefficient < -0.3 then Inverse else Unrelated
  }

  /** `coefficient` is the strongest defined correlation among the lags in [from, to), found first at `lag`;
      if none of them is defined and non-zero, both are zero. */
  ghost predicate Strongest(sqrt: real -> real, xau: seq<real>, asset: seq<real>, from: int, to: int, coefficient: real, lag: int)
    requires IsSqrt(sqrt)
  {
    && (forall l :: from <= l < to ==> AtMost(AtLag(sqrt, xau, asset, l), Abs(coefficient)))
    && (if coefficient == 0.0 then lag == 0
        else
          && from <= lag < to
          && AtLag(sqrt, xau, asset, lag) == Some(coefficient)
          && forall l :: from <= l < lag ==> Below(AtLag(sqrt, xau, asset, l), Abs(coefficient)))
  }

  predicate AtMost(c: Option<real>, bound: real) {
    c.Some? ==> Abs(c.value) <= bound
  }

  predicate Below(c: Option<real>, bound: real) {
    c.Some? ==> Abs(c.value) < bound
  }

  /** The next lag replaces the best one exactly if its correlation is strictly stronger. */
  lemma {:induction false} OneMoreLag(sqrt: real -> real, xau: seq<real>, asset: seq<real>, from: int, to: int, coefficient: real, lag: int)
    requires IsSqrt(sqrt) && from <= to && Strongest(sqrt, xau, asset, from, to, coefficient, lag)
    ensures var c := AtLag(sqrt, xau, asset, to);
      if c.Some? && Abs(c.value) > Abs(coefficient) then Strongest(sqrt, xau, asset, from, to + 1, c.value, to)
      else Strongest(sqrt, xau, asset, from, to + 1, coefficient, lag)
  {
    var c := AtLag(sqrt, xau, asset, to);
    if c.Some? && Abs(c.value) > Abs(coefficient) {
      forall l | from <= l < to
        ensures AtMost(AtLag(sqrt, xau, asset, l), Abs(c.value)) && Below(AtLag(sqrt, xau, asset, l), Abs(c.value))
      {
        assert AtMost(AtLag(sqrt, xau, asset, l), Abs(coefficient));
      }
    }
  }

  class LeadLagDetector {
    const maxLag: int

    constructor (maxLag: int)
      ensures this.maxLag == if maxLag <= 0 then 10 else maxLag
    {
      this.maxLag := if maxLag <= 0 then 10 else maxLag;
    }

    method Analyze(sqrt: real -> real, xau: seq<real>, asset: seq<real>) returns (r: LagResult)
      requires IsSqrt(sqrt) && maxLag > 0
      ensures |xau| < 20 || |asset| < 20 ==> r == LagResult(0, Unset, 0.0, 0.0, |xau|)
      ensures |xau| >= 20 && |asset| >= 20 ==>
        && Strongest(sqrt, xau, asset, -maxLag, maxLag + 1, r.coefficient, r.lag)
        && r.sampleCount == Shorter(xau, asset)
        && (r.direction == Direct <==> r.coefficient > 0.3)
        && (r.direction == Inverse <==> r.coefficient < -0.3)
        && (r.direction == Unrelated <==> -0.3 <= r.coefficient <= 0.3)
        && r.confidence == (if Abs(r.coefficient) > 0.5 && r.sampleCount > 30 then Abs(r.coefficient) * 0.8
                            else if Abs(r.coefficient) > 0.3 then Abs(r.coefficient) * 0.5 else 0.0)
      ensures -1.0 <= r.coefficient <= 1.0 && 0.0 <= r.confidence <= 0.8
      ensures r.confidence > 0.0 <==> Abs(r.coefficient) > 0.3
      ensures |xau| > |asset| && r.coefficient != 0.0 ==> r.lag < 0
      ensures |xau| < |asset| && r.coefficient != 0.0 ==> r.lag >= 0
    {
      if |xau| < 20 || |asset| < 20 {
        return LagResult(0, Unset, 0.0, 0.0, |xau|);
      }
      var minLen := |xau|;
      if |asset| < minLen {
        minLen := |asset|;
      }
      var bestCoeff, bestLag, bestDir := Search(sqrt, xau, asset, minLen);
      LagBounded(sqrt, xau, asset, bestLag);
      var confidence := Confidence(bestCoeff, minLen);
      r := LagResult(bestLag, bestDir, bestCoeff, confidence, minLen);
    }

    /** The loop over all lags from -maxLag to maxLag. */
    method Search(sqrt: real -> real, xau: seq<real>, asset: seq<real>, minLen: int)
      returns (bestCoeff: real, bestLag: int, bestDir: Relation)
      requires IsSqrt(sqrt) && maxLag > 0 && minLen == Shorter(xau, asset)
      ensures Strongest(sqrt, xau, asset, -maxLag, maxLag + 1, bestCoeff, bestLag)
      ensures bestDir == RelationOf(bestCoeff)
    {
      bestCoeff, bestLag, bestDir := 0.0, 0, Unrelated;
      var lag := -maxLag;
      while lag <= maxLag
        invariant -maxLag <= lag <= maxLag + 1
        invariant Strongest(sqrt, xau, asset, -maxLag, lag, bestCoeff, bestLag)
        invariant bestDir == RelationOf(bestCoeff)
        decreases maxLag - lag
      {
        var coeff := LagCorrelation(sqrt, xau, asset, minLen, lag);
        OneMoreLag(sqrt, xau, asset, -maxLag, lag, bestCoeff, bestLag);
        if coeff.Some? && Abs(coeff.value) > Abs(bestCoeff) {
          bestCoeff, bestLag := coeff.value, lag;
          if bestCoeff > 0.3 {
            bestDir := Direct;
          } else if bestCoeff < -0.3 {
            bestDir := Inverse;
          } else {
            bestDir := Unrelated;
          }
        }
        lag := lag + 1;
      }
    }

    method LagCorrelation(sqrt: real -> real, xau: seq<real>, asset: seq<real>, minLen: int, lag: int) returns (c: Option<real>)
      requires IsSqrt(sqrt) && minLen == Shorter(xau, asset)
      ensures c == AtLag(sqrt, xau, asset, lag)
    {
      if lag >= 0 {
        if lag >= minLen {
          return None;
        }
        c := PearsonCorrelation(sqrt, xau[lag..], asset[..minLen - lag]);
      } else {
        var absLag := -lag;
        if absLag >= minLen {
          return None;
        }
        c := PearsonCorrelation(sqrt, xau[..minLen - absLag], asset[absLag..]);
      }
    }

    method Confidence(best: real, minLen: int) returns (confidence: real)
      requires -1.0 <= best <= 1.0
      ensures 0.0 <= confidence <= 0.8 && (confidence > 0.0 <==> Abs(best) > 0.3)
      ensures confidence == if Abs(best) > 0.5 && minLen > 30 then Abs(best) * 0.8
                            else if Abs(best) > 0.3 then Abs(best) * 0.5 else 0.0
    {
      confidence := 0.0;
      if Abs(best) > 0.5 && minLen > 30 {
        confidence := Abs(best) * 0.8;
      } else if Abs(best) > 0.3 {
        confidence := Abs(best) * 0.5;
      }
      if confidence > 1.0 {
        confidence := 1.0;
      }
    }
  }

  /** The lag lies on the side of zero on which the slices come out equally long. */
  predicate OnComparedSide(xau: seq<real>, asset: seq<real>, lag: int) {
    if lag >= 0 then |xau| <= |asset| else |asset| <= |xau|
  }

  /** A lag is given a correlation exactly if it is shorter than the shorter series, lies on the compared side,
      and leaves two slices of at least two values that are not flat; the correlation is then in [-1, 1]. */
  lemma {:induction false} LagBounded(sqrt: real -> real, xau: seq<real>, asset: seq<real>, lag: int)
    requires IsSqrt(sqrt)
    ensures AtLag(sqrt, xau, asset, lag).Some? <==>
      && Size(lag) < Shorter(xau, asset) && OnComparedSide(xau, asset, lag)
      && |XauSlice(xau, asset, lag)| >= 2
      && !Flat(XauSlice(xau, asset, lag)) && !Flat(AssetSlice(xau, asset, lag))
    ensures AtLag(sqrt, xau, asset, lag).Some? ==> -1.0 <= AtLag(sqrt, xau, asset, lag).value <= 1.0
  {
    if Size(lag) < Shorter(xau, asset) {
      SlicesAlign(xau, asset, lag);
      DefinedExactlyWhen(sqrt, XauSlice(xau, asset, lag), AssetSlice(xau, asset, lag));
      CorrelationBounded(sqrt, XauSlice(xau, asset, lag), AssetSlice(xau, asset, lag));
    }
  }

  /** The two slices of a lag are equally long exactly on the compared side. */
  lemma {:induction false} SlicesAlign(xau: seq<real>, asset: seq<real>, lag: int)
    requires Size(lag) < Shorter(xau, asset)
    ensures |XauSlice(xau, asset, lag)| == |AssetSlice(xau, asset, lag)| <==> OnComparedSide(xau, asset, lag)
  {
  }

  /** Every lag short enough is compared, as the description promises, exactly when the series are equally long:
      otherwise all lags on one side of zero, or zero itself, are skipped. */
  lemma {:induction false} EveryLagAlignsExactlyWhen(xau: seq<real>, asset: seq<real>)
    requires Shorter(xau, asset) > 1
    ensures (forall lag :: Size(lag) < Shorter(xau, asset) ==>
               |XauSlice(xau, asset, lag)| == |AssetSlice(xau, asset, lag)|)
            <==> |xau| == |asset|
  {
    SlicesAlign(xau, asset, 0);
    SlicesAlign(xau, asset, -1);
    forall lag | Size(lag) < Shorter(xau, asset)
      ensures |XauSlice(xau, asset, lag)| == |AssetSlice(xau, asset, lag)| <==> OnComparedSide(xau, asset, lag)
    {
      SlicesAlign(xau, asset, lag);
    }
  }

  function Ramp(n: nat): (r: seq<real>)
    ensures |r| == n && forall i :: 0 <= i < n ==> r[i] == i as real
  {
    seq(n, i => i as real)
  }

  /** Twenty-one gold returns against the twenty that the asset has in common with them: the two move as one, but
      no lag from zero up has a correlation, while lag -1 has one. */
  lemma {:induction false} SkippedSideWitness(sqrt: real -> real, lag: nat)
    requires IsSqrt(sqrt)
    ensures AtLag(sqrt, Ramp(21), Ramp(20), lag) == None
    ensures AtLag(sqrt, Ramp(21), Ramp(20), -1).Some?
  {
    var xau, asset := Ramp(21), Ramp(20);
    LagBounded(sqrt, xau, asset, lag);
    LagBounded(sqrt, xau, asset, -1);
    assert XauSlice(xau, asset, -1)[0] != XauSlice(xau, asset, -1)[1];
    assert AssetSlice(xau, asset, -1)[0] != AssetSlice(xau, asset, -1)[1];
  }

  /** At lag k from zero up, the asset's value at i meets gold's k bars later; at lag -k gold's value at i meets the
      asset's k bars later. */
  lemma {:induction false} PairedAtLag(xau: seq<real>, asset: seq<real>, lag: int, i: nat)
    requires Size(lag) < Shorter(xau, asset)
    requires i < |XauSlice(xau, asset, lag)| && i < |AssetSlice(xau, asset, lag)|
    ensures if lag >= 0 then i + lag < |xau| && XauSlice(xau, asset, lag)[i] == xau[i + lag] && AssetSlice(xau, asset, lag)[i] == asset[i]
            else i - lag < |asset| && XauSlice(xau, asset, lag)[i] == xau[i] && AssetSlice(xau, asset, lag)[i] == asset[i - lag]
  {
  }

  /** `later` repeats `earlier` with a delay of `k`. */
  ghost predicate Repeats(later: seq<real>, earlier: seq<real>, k: nat) {
    |later| == |earlier| && forall i :: 0 <= i < |earlier| - k ==> later[i + k] == earlier[i]
  }

  /** Gold that repeats the asset k bars later correlates perfectly at lag k. */
  lemma {:induction false} DelayFound(sqrt: real -> real, xau: seq<real>, asset: seq<real>, k: int)
    requires IsSqrt(sqrt) && |xau| == |asset| && 0 <= k && k + 2 <= |xau|
    requires Repeats(xau, asset, k) && !Flat(asset[..|asset| - k])
    ensures AtLag(sqrt, xau, asset, k) == Some(1.0)
  {
    SelfCorrelation(sqrt, asset[..|asset| - k]);
    assert AssetSlice(xau, asset, k) == asset[..|asset| - k];
    assert XauSlice(xau, asset, k) == asset[..|asset| - k];
  }

  /** An asset that repeats gold k bars later does so at lag -k. */
  lemma {:induction false} LeadFound(sqrt: real -> real, xau: seq<real>, asset: seq<real>, k: int)
    requires IsSqrt(sqrt) && |xau| == |asset| && 0 < k && k + 2 <= |xau|
    requires Repeats(asset, xau, k) && !Flat(xau[..|xau| - k])
    ensures AtLag(sqrt, xau, asset, -k) == Some(1.0)
  {
    SelfCorrelation(sqrt, xau[..|xau| - k]);
    assert XauSlice(xau, asset, -k) == xau[..|xau| - k];
    assert AssetSlice(xau, asset, -k) == xau[..|xau| - k];
  }

  /** A lag with a perfect correlation within the range makes the answer's strength 1. */
  lemma {:induction false} PerfectLagWins(sqrt: real -> real, xau: seq<real>, asset: seq<real>, from: int, to: int,
                                         coefficient: real, lag: int, k: int)
    requires IsSqrt(sqrt) && Strongest(sqrt, xau, asset, from, to, coefficient, lag)
    requires from <= k < to && AtLag(sqrt, xau, asset, k) == Some(1.0)
    ensures (coefficient == 1.0 || coefficient == -1.0) && lag <= k
  {
    assert AtMost(AtLag(sqrt, xau, asset, k), Abs(coefficient));
    LagBounded(sqrt, xau, asset, lag);
  }

  /** The answer is determined: no two results both satisfy the description. */
  lemma {:induction false} StrongestUnique(sqrt: real -> real, xau: seq<real>, asset: seq<real>, from: int, to: int,
                                          c: real, lag: int, c': real, lag': int)
    requires IsSqrt(sqrt)
    requires Strongest(sqrt, xau, asset, from, to, c, lag) && Strongest(sqrt, xau, asset, from, to, c', lag')
    ensures c == c' && lag == lag'
  {
    if c != 0.0 {
      assert AtMost(AtLag(sqrt, xau, asset, lag), Abs(c'));
    }
    if c' != 0.0 {
      assert AtMost(AtLag(sqrt, xau, asset, lag'), Abs(c));
    }
  }
}
