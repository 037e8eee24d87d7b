/** The rank-based (Mann-Whitney) AUC of a score against binary labels. */
module RankStatistic {
  import opened Reals

  predicate Positive(y: real) {
    y > 0.5
  }

  /** The scores among the first `n` whose label is positive (or not), in order. */
  function Select(xs: seq<real>, labels: seq<real>, n: nat, positive: bool): (r: seq<real>)
    requires n <= |xs| && n <= |labels|
    ensures |r| <= n
  {
    if n == 0 then []
    else if Positive(labels[n - 1]) == positive then Select(xs, labels, n - 1, positive) + [xs[n - 1]]
    else Select(xs, labels, n - 1, positive)
  }

  /** One comparison: a win for `a`, a tie, or a loss. */
  function Versus(a: real, b: real): real {
    if a > b then 1.0 else if a == b then 0.5 else 0.0
  }

  /** `x` against the first `n` of `bs`. */
  function Row(x: real, bs: seq<real>, n: nat): real
    requires n <= |bs|
  {
    if n == 0 then 0.0 else Row(x, bs, n - 1) + Versus(x, bs[n - 1])
  }

  /** The first `m` of `cs` against the first `n` of `bs`. */
  function Pairs(cs: seq<real>, m: nat, bs: seq<real>, n: nat): real
    requires m <= |cs| && n <= |bs|
  {
    if m == 0 then 0.0 else Pairs(cs, m - 1, bs, n) + Row(cs[m - 1], bs, n)
  }

  function AucOf(pos: seq<real>, neg: seq<real>): real {
    if pos == [] || neg == [] then 0.5
    else Over(Pairs(pos, |pos|, neg, |neg|), Times(|pos| as real, |neg| as real))
  }

  function AucSpec(xs: seq<real>, labels: seq<real>): real
    requires |labels| >= |xs|
  {
    AucOf(Select(xs, labels, |xs|, true), Select(xs, labels, |xs|, false))
  }

  method Auc(xs: seq<real>, labels: seq<real>) returns (r: real)
    requires |labels| >= |xs|
    ensures r == AucSpec(xs, labels)
    ensures 0.0 <= r <= 1.0
  {
    AucInUnit(xs, labels);
    var pos: seq<real>, neg: seq<real> := [], [];
    for i := 0 to |xs|
      invariant pos == Select(xs, labels, i, true) && neg == Select(xs, labels, i, false)
    {
      if labels[i] > 0.5 {
        pos := pos + [xs[i]];
      } else {
        neg := neg + [xs[i]];
      }
    }
    if |pos| == 0 || |neg| == 0 {
      return 0.5;
    }
    var score := Compare(pos, neg);
    assert (|pos| * |neg|) as real == Times(|pos| as real, |neg| as real);
    r := score / (|pos| * |neg|) as real;
  }

  /** The nested loops over all positive-negative pairs. */
  method Compare(pos: seq<real>, neg: seq<real>) returns (score: real)
    ensures score == Pairs(pos, |pos|, neg, |neg|)
  {
    var concordant, ties := 0.0, 0.0;
    for i := 0 to |pos|
      invariant concordant + ties == Pairs(pos, i, neg, |neg|)
    {
      var xp := pos[i];
      for j := 0 to |neg|
        invariant concordant + ties == Pairs(pos, i, neg, |neg|) + Row(xp, neg, j)
      {
        var xn := neg[j];
        if xp > xn {
          concordant := concordant + 1.0;
        } else if xp == xn {
          ties := ties + 0.5;
        }
      }
    }
    score := concordant + ties;
  }

  // ----- Range and orientation -----

  predicate AllAbove(x: real, bs: seq<real>, n: nat)
    requires n <= |bs|
  {
    forall j :: 0 <= j < n ==> x > bs[j]
  }

  lemma {:induction false} RowRange(x: real, bs: seq<real>, n: nat)
    requires n <= |bs|
    ensures 0.0 <= Row(x, bs, n) <= n as real
    ensures Row(x, bs, n) == n as real <==> AllAbove(x, bs, n)
  {
    if n > 0 {
      RowRange(x, bs, n - 1);
    }
  }

  predicate Separated(cs: seq<real>, m: nat, bs: seq<real>, n: nat)
    requires m <= |cs| && n <= |bs|
  {
    forall i :: 0 <= i < m ==> AllAbove(cs[i], bs, n)
  }

  lemma {:induction false} PairsRange(cs: seq<real>, m: nat, bs: seq<real>, n: nat)
    requires m <= |cs| && n <= |bs|
    ensures 0.0 <= Pairs(cs, m, bs, n) <= Times(m as real, n as real)
    ensures Pairs(cs, m, bs, n) == Times(m as real, n as real) <==> Separated(cs, m, bs, n)
  {
    if m > 0 {
      PairsRange(cs, m - 1, bs, n);
      RowRange(cs[m - 1], bs, n);
      OneMoreRow(m, n);
    } else {
      assert Times(0.0, n as real) == 0.0;
    }
  }

  lemma {:induction false} OneMoreRow(m: nat, n: nat)
    requires m > 0
    ensures Times(m as real, n as real) == Times((m - 1) as real, n as real) + n as real
  {
  }

  lemma {:induction false} AreaPositive(pos: seq<real>, neg: seq<real>)
    requires pos != [] && neg != []
    ensures Times(|pos| as real, |neg| as real) > 0.0
  {
    var p, q := |pos| as real, |neg| as real;
    assert p > 0.0 && q > 0.0;
  }

  /** The AUC lies in [0, 1]. */
  lemma {:induction false} AucInUnit(xs: seq<real>, labels: seq<real>)
    requires |labels| >= |xs|
    ensures 0.0 <= AucSpec(xs, labels) <= 1.0
  {
    var pos, neg := Select(xs, labels, |xs|, true), Select(xs, labels, |xs|, false);
    if pos != [] && neg != [] {
      PairsRange(pos, |pos|, neg, |neg|);
      AreaPositive(pos, neg);
      Quotient(Pairs(pos, |pos|, neg, |neg|), Times(|pos| as real, |neg| as real));
    }
  }

  /** With one class only, every label above one half or none, the AUC is one half. */
  lemma {:induction false} OneClassHalf(xs: seq<real>, labels: seq<real>)
    requires |labels| >= |xs|
    requires (forall i :: 0 <= i < |xs| ==> labels[i] > 0.5) || (forall i :: 0 <= i < |xs| ==> labels[i] <= 0.5)
    ensures AucSpec(xs, labels) == 0.5
  {
    if forall i :: 0 <= i < |xs| ==> labels[i] > 0.5 {
      NoneSelected(xs, labels, |xs|, false);
    } else {
      NoneSelected(xs, labels, |xs|, true);
    }
  }

  lemma {:induction false} NoneSelected(xs: seq<real>, labels: seq<real>, n: nat, positive: bool)
    requires n <= |xs| && n <= |labels| && forall i :: 0 <= i < n ==> (labels[i] > 0.5) != positive
    ensures Select(xs, labels, n, positive) == []
  {
    if n > 0 {
      NoneSelected(xs, labels, n - 1, positive);
    }
  }

  /** With both classes present the AUC is 1 exactly when every positive scores above every negative. */
  lemma {:induction false} PerfectExactlyWhenSeparated(xs: seq<real>, labels: seq<real>)
    requires |labels| >= |xs|
    requires Select(xs, labels, |xs|, true) != [] && Select(xs, labels, |xs|, false) != []
    ensures var pos, neg := Select(xs, labels, |xs|, true), Select(xs, labels, |xs|, false);
      AucSpec(xs, labels) == 1.0 <==> Separated(pos, |pos|, neg, |neg|)
  {
    var pos, neg := Select(xs, labels, |xs|, true), Select(xs, labels, |xs|, false);
    PairsRange(pos, |pos|, neg, |neg|);
    AreaPositive(pos, neg);
    UnitQuotient(Pairs(pos, |pos|, neg, |neg|), Times(|pos| as real, |neg| as real));
  }

  lemma {:induction false} UnitQuotient(a: real, b: real)
    requires b > 0.0
    ensures Over(a, b) == 1.0 <==> a == b
  {
    var q := a / b;
    assert q * b == a;
  }

  // ----- Flipping the labels -----

  function Flip(labels: seq<real>): (r: seq<real>)
    ensures |r| == |labels| && forall i :: 0 <= i < |labels| ==> r[i] == 1.0 - labels[i]
  {
    seq(|labels|, i requires 0 <= i < |labels| => 1.0 - labels[i])
  }

  lemma {:induction false} FlipSwapsClasses(xs: seq<real>, labels: seq<real>, n: nat, positive: bool)
    requires n <= |xs| && n <= |labels|
    requires forall i :: 0 <= i < n ==> labels[i] != 0.5
    ensures Select(xs, Flip(labels), n, positive) == Select(xs, labels, n, !positive)
  {
    if n > 0 {
      FlipSwapsClasses(xs, labels, n - 1, positive);
    }
  }

  /** Adding one opponent adds one column of comparisons. */
  lemma {:induction false} AddColumn(cs: seq<real>, m: nat, bs: seq<real>, n: nat)
    requires m <= |cs| && 0 < n <= |bs|
    ensures Pairs(cs, m, bs, n) == Pairs(cs, m, bs, n - 1) + (m as real - Row(bs[n - 1], cs, m))
  {
    if m > 0 {
      AddColumn(cs, m - 1, bs, n);
    }
  }

  /** Every pair is counted once from either side. */
  lemma {:induction false} PairsComplement(cs: seq<real>, m: nat, bs: seq<real>, n: nat)
    requires m <= |cs| && n <= |bs|
    ensures Pairs(cs, m, bs, n) + Pairs(bs, n, cs, m) == Times(m as real, n as real)
  {
    if n == 0 {
      NoOpponents(cs, m, bs);
    } else {
      PairsComplement(cs, m, bs, n - 1);
      AddColumn(cs, m, bs, n);
      OneMoreRow(n, m);
      assert Times(m as real, n as real) == Times(n as real, m as real);
      assert Times(m as real, (n - 1) as real) == Times((n - 1) as real, m as real);
    }
  }

  lemma {:induction false} NoOpponents(cs: seq<real>, m: nat, bs: seq<real>)
    requires m <= |cs|
    ensures Pairs(cs, m, bs, 0) == 0.0 == Times(m as real, 0.0)
  {
    if m > 0 {
      NoOpponents(cs, m - 1, bs);
    }
  }

  /** Swapping wins and losses reflects the AUC about one half, also when only one class is present. */
  lemma {:induction false} FlippedLabels(xs: seq<real>, labels: seq<real>)
    requires |labels| >= |xs| && forall i :: 0 <= i < |labels| ==> labels[i] != 0.5
    ensures AucSpec(xs, labels) + AucSpec(xs, Flip(labels)) == 1.0
  {
    FlipSwapsClasses(xs, labels, |xs|, true);
    FlipSwapsClasses(xs, labels, |xs|, false);
    var pos, neg := Select(xs, labels, |xs|, true), Select(xs, labels, |xs|, false);
    if pos != [] && neg != [] {
      PairsComplement(pos, |pos|, neg, |neg|);
      AreaPositive(pos, neg);
      assert Times(|neg| as real, |pos| as real) == Times(|pos| as real, |neg| as real);
      SharesAddUp(Pairs(pos, |pos|, neg, |neg|), Pairs(neg, |neg|, pos, |pos|), Times(|pos| as real, |neg| as real));
    }
  }

  lemma {:induction false} SharesAddUp(a: real, b: real, total: real)
    requires total > 0.0 && a + b == total
    ensures Over(a, total) + Over(b, total) == 1.0
  {
    assert Over(a, total) + Over(b, total) == Over(a + b, total);
    UnitQuotient(a + b, total);
  }

  // ----- Only the order of the scores matters -----

  ghost predicate StrictlyIncreasing(f: real -> real) {
    forall x, y :: x < y ==> f(x) < f(y)
  }

  function Map(f: real -> real, xs: seq<real>): (r: seq<real>)
    ensures |r| == |xs| && forall i :: 0 <= i < |xs| ==> r[i] == f(xs[i])
  {
    seq(|xs|, i requires 0 <= i < |xs| => f(xs[i]))
  }

  lemma {:induction false} SelectMapped(f: real -> real, xs: seq<real>, labels: seq<real>, n: nat, positive: bool)
    requires n <= |xs| && n <= |labels|
    ensures Select(Map(f, xs), labels, n, positive) == Map(f, Select(xs, labels, n, positive))
  {
    if n > 0 {
      SelectMapped(f, xs, labels, n - 1, positive);
    }
  }

  lemma {:induction false} RowMapped(f: real -> real, x: real, bs: seq<real>, n: nat)
    requires StrictlyIncreasing(f) && n <= |bs|
    ensures Row(f(x), Map(f, bs), n) == Row(x, bs, n)
  {
    if n > 0 {
      RowMapped(f, x, bs, n - 1);
      assert Versus(f(x), f(bs[n - 1])) == Versus(x, bs[n - 1]);
    }
  }

  lemma {:induction false} PairsMapped(f: real -> real, cs: seq<real>, m: nat, bs: seq<real>, n: nat)
    requires StrictlyIncreasing(f) && m <= |cs| && n <= |bs|
    ensures Pairs(Map(f, cs), m, Map(f, bs), n) == Pairs(cs, m, bs, n)
  {
    if m > 0 {
      PairsMapped(f, cs, m - 1, bs, n);
      RowMapped(f, cs[m - 1], bs, n);
    }
  }

  /** Any strictly increasing transform of the scores leaves the AUC unchanged. */
  lemma {:induction false} AucRankInvariant(f: real -> real, xs: seq<real>, labels: seq<real>)
    requires |labels| >= |xs| && StrictlyIncreasing(f)
    ensures AucSpec(Map(f, xs), labels) == AucSpec(xs, labels)
  {
    SelectMapped(f, xs, labels, |xs|, true);
    SelectMapped(f, xs, labels, |xs|, false);
    var pos, neg := Select(xs, labels, |xs|, true), Select(xs, labels, |xs|, false);
    PairsMapped(f, pos, |pos|, neg, |neg|);
  }

  // ----- The normalisation applied before the AUC is taken -----

  function Normalize(score: real): real {
    if score / 100.0 < 0.0 then 0.0 else if score / 100.0 > 1.0 then 1.0 else score / 100.0
  }

  /** The clamp maps both scores to the same end of the scale. */
  predicate Merged(a: real, b: real) {
    (a >= 100.0 && b >= 100.0) || (a <= 0.0 && b <= 0.0)
  }

  /** The clamp changes a comparison exactly when it merges two different scores. */
  lemma {:induction false} ComparisonKeptExactlyWhen(a: real, b: real)
    ensures Versus(Normalize(a), Normalize(b)) == Versus(a, b) <==> a == b || !Merged(a, b)
  {
  }

  /** The comparison of two scores counts among the merged ones, as a win for the first or as a loss. */
  predicate Counts(a: real, b: real, won: bool) {
    Merged(a, b) && if won then a > b else a < b
  }

  function MergedInRow(x: real, bs: seq<real>, n: nat, won: bool): nat
    requires n <= |bs|
  {
    if n == 0 then 0 else MergedInRow(x, bs, n - 1, won) + if Counts(x, bs[n - 1], won) then 1 else 0
  }

  /** How many pairs are merged by the clamp although the first score won (or although it lost). */
  function MergedPairs(cs: seq<real>, m: nat, bs: seq<real>, n: nat, won: bool): nat
    requires m <= |cs| && n <= |bs|
  {
    if m == 0 then 0 else MergedPairs(cs, m - 1, bs, n, won) + MergedInRow(cs[m - 1], bs, n, won)
  }

  lemma {:induction false} RowClamped(x: real, bs: seq<real>, n: nat)
    requires n <= |bs|
    ensures 2.0 * (Row(x, bs, n) - Row(Normalize(x), Map(Normalize, bs), n))
            == MergedInRow(x, bs, n, true) as real - MergedInRow(x, bs, n, false) as real
  {
    if n > 0 {
      RowClamped(x, bs, n - 1);
      ComparisonKeptExactlyWhen(x, bs[n - 1]);
    }
  }

  /** The clamp costs half a point for every merged win and gains half a point for every merged loss. */
  lemma {:induction false} PairsClamped(cs: seq<real>, m: nat, bs: seq<real>, n: nat)
    requires m <= |cs| && n <= |bs|
    ensures 2.0 * (Pairs(cs, m, bs, n) - Pairs(Map(Normalize, cs), m, Map(Normalize, bs), n))
            == MergedPairs(cs, m, bs, n, true) as real - MergedPairs(cs, m, bs, n, false) as real
  {
    if m > 0 {
      PairsClamped(cs, m - 1, bs, n);
      RowClamped(cs[m - 1], bs, n);
    }
  }

  /** The published AUC is the AUC of the raw scores exactly when, among the pairs of a win and a loss that the
      clamp merges, the win had the higher score as often as the lower one. */
  lemma {:induction false} NormalizedAuc(scores: seq<real>, labels: seq<real>)
    requires |labels| >= |scores|
    ensures var pos, neg := Select(scores, labels, |scores|, true), Select(scores, labels, |scores|, false);
      AucSpec(Map(Normalize, scores), labels) == AucSpec(scores, labels)
      <==> MergedPairs(pos, |pos|, neg, |neg|, true) == MergedPairs(pos, |pos|, neg, |neg|, false)
  {
    SelectMapped(Normalize, scores, labels, |scores|, true);
    SelectMapped(Normalize, scores, labels, |scores|, false);
    var pos, neg := Select(scores, labels, |scores|, true), Select(scores, labels, |scores|, false);
    PairsClamped(pos, |pos|, neg, |neg|);
    if neg == [] {
      NothingMerged(pos, |pos|, neg, true);
      NothingMerged(pos, |pos|, neg, false);
    } else if pos != [] {
      AreaPositive(pos, neg);
      SameShareExactlyWhen(
        Pairs(Map(Normalize, pos), |pos|, Map(Normalize, neg), |neg|), Pairs(pos, |pos|, neg, |neg|),
        Times(|pos| as real, |neg| as real));
    }
  }

  lemma {:induction false} NothingMerged(cs: seq<real>, m: nat, bs: seq<real>, won: bool)
    requires m <= |cs|
    ensures MergedPairs(cs, m, bs, 0, won) == 0
  {
    if m > 0 {
      NothingMerged(cs, m - 1, bs, won);
    }
  }

  lemma {:induction false} SameShareExactlyWhen(a: real, b: real, total: real)
    requires total > 0.0
    ensures Over(a, total) == Over(b, total) <==> a == b
  {
    var p, q := a / total, b / total;
    assert p * total == a && q * total == b;
  }

  /** In particular it is unchanged for scores on the designed 0-100 scale. */
  lemma {:induction false} DesignedScaleKept(scores: seq<real>, labels: seq<real>)
    requires |labels| >= |scores|
    requires forall i :: 0 <= i < |scores| ==> 0.0 <= scores[i] <= 100.0
    ensures AucSpec(Map(Normalize, scores), labels) == AucSpec(scores, labels)
  {
    var f := (x: real) => x / 100.0;
    assert Map(Normalize, scores) == Map(f, scores);
    AucRankInvariant(f, scores, labels);
  }

  /** Above 100 the clamp merges ranks: a win at 200 and a loss at 150 separate perfectly, but publish one half. */
  lemma {:induction false} ClampMergesRanks()
    ensures AucSpec([200.0, 150.0], [1.0, 0.0]) == 1.0
    ensures AucSpec(Map(Normalize, [200.0, 150.0]), [1.0, 0.0]) == 0.5
  {
    TwoScores(200.0, 150.0);
    TwoScores(1.0, 1.0);
    assert Map(Normalize, [200.0, 150.0]) == [1.0, 1.0];
  }

  lemma {:induction false} TwoScores(a: real, b: real)
    ensures AucSpec([a, b], [1.0, 0.0]) == Versus(a, b)
  {
    var xs, labels := [a, b], [1.0, 0.0];
    assert Select(xs, labels, 1, true) == [a] && Select(xs, labels, 2, true) == [a];
    assert Select(xs, labels, 1, false) == [] && Select(xs, labels, 2, false) == [b];
    assert Row(a, [b], 1) == Row(a, [b], 0) + Versus(a, b);
    assert Pairs([a], 1, [b], 1) == Pairs([a], 0, [b], 1) + Row(a, [b], 1);
    assert Times(1.0, 1.0) == 1.0;
  }
}
