/** The calibration protocol's multiple-testing step and the recommendations that follow from it. */
module FalseDiscovery {
  import opened Options
  import opened Reals

  const GATE_MIN_N: int := 300
  const EFFECT_MIN_R: real := 0.10
  const FDR_Q: real := 0.10

  datatype Hypothesis = Hypothesis(name: string, p: real)

  /** Ascending p-values, one entry per name: the order in which the loop sees a p-value map. */
  ghost predicate Ranked(items: seq<Hypothesis>) {
    && (forall i, j :: 0 <= i <= j < |items| ==> items[i].p <= items[j].p)
    && forall i, j :: 0 <= i < j < |items| ==> items[i].name != items[j].name
  }

  /** The threshold of rank `i`, counted from 1. */
  function Threshold(i: nat, m: nat, q: real): real
    requires m > 0
  {
    Over(Times(i as real, q), m as real)
  }

  /** The hypothesis at index `i` meets its own threshold. */
  predicate Meets(items: seq<Hypothesis>, q: real, i: nat)
    requires i < |items|
  {
    items[i].p <= Threshold(i + 1, |items|, q)
  }

  // ----- The procedure it is named after -----

  /** The largest number of hypotheses k such that the k-th smallest p-value meets its threshold. */
  function Cutoff(items: seq<Hypothesis>, q: real, n: nat): (k: nat)
    requires n <= |items|
    ensures k <= n
    ensures k > 0 ==> Meets(items, q, k - 1)
    ensures forall i :: k <= i < n ==> !Meets(items, q, i)
  {
    if n == 0 then 0 else if Meets(items, q, n - 1) then n else Cutoff(items, q, n - 1)
  }

  /** Benjamini-Hochberg is a step-up procedure: everything ranked at or below the cutoff is rejected. */
  predicate StepUpRejects(items: seq<Hypothesis>, q: real, i: nat)
    requires i < |items|
  {
    i < Cutoff(items, q, |items|)
  }

  // ----- The loop -----

  lemma {:induction false} ThresholdsRise(i: nat, j: nat, m: nat, q: real)
    requires m > 0 && q >= 0.0 && i <= j
    ensures Threshold(i, m, q) <= Threshold(j, m, q)
    ensures Threshold(i, m, q) >= 0.0
  {
    var a, b := i as real, j as real;
    Product(b - a, q);
    Product(a, q);
    assert Times(b, q) == Times(a, q) + Times(b - a, q);
    assert Times(a, q) / m as real <= Times(b, q) / m as real;
  }

  /** A hypothesis meets its threshold if its p-value times the number of hypotheses is at most its rank times q. */
  lemma {:induction false} MeetsInProducts(items: seq<Hypothesis>, q: real, i: nat)
    requires i < |items|
    ensures Meets(items, q, i) <==> Times(items[i].p, |items| as real) <= Times((i + 1) as real, q)
  {
    var m, t := |items| as real, Threshold(i + 1, |items|, q);
    assert t * m == Times((i + 1) as real, q);
    ScaleOrder(m, items[i].p, t);
    assert m * items[i].p == Times(items[i].p, m) && m * t == t * m;
  }

  lemma {:induction false} Product(x: real, y: real)
    requires x >= 0.0 && y >= 0.0
    ensures Times(x, y) >= 0.0
  {
  }

  /** The loop marks exactly the hypotheses that meet their own threshold: remembering the previous threshold
      never changes a decision. */
  method BenjaminiHochberg(items: seq<Hypothesis>, q: real) returns (sig: map<string, bool>)
    requires Ranked(items) && q >= 0.0
    ensures forall i :: 0 <= i < |items| ==> items[i].name in sig && sig[items[i].name] == Meets(items, q, i)
    ensures forall i :: 0 <= i < |items| && sig[items[i].name] ==> Times(items[i].p, |items| as real) <= Times((i + 1) as real, q)
    ensures forall i :: 0 <= i < |items| && !sig[items[i].name] ==> Times(items[i].p, |items| as real) > Times((i + 1) as real, q)
    ensures forall name :: name in sig ==> exists i :: 0 <= i < |items| && items[i].name == name
  {
    forall i | 0 <= i < |items|
      ensures Meets(items, q, i) <==> Times(items[i].p, |items| as real) <= Times((i + 1) as real, q)
    {
      MeetsInProducts(items, q, i);
    }
    var m := |items|;
    sig := map[];
    var prev := 0.0;
    for i := 0 to m
      invariant 0.0 <= prev && (i > 0 ==> prev <= Threshold(i, m, q)) && (i == 0 ==> prev == 0.0)
      invariant forall k :: 0 <= k < i ==> items[k].name in sig && sig[items[k].name] == Meets(items, q, k)
      invariant forall name :: name in sig ==> exists k :: 0 <= k < i && items[k].name == name
    {
      ThresholdsRise(i, i + 1, m, q);
      var thresh := Threshold(i + 1, m, q);
      assert prev <= thresh;
      if items[i].p <= if thresh > prev then thresh else prev {
        sig := sig[items[i].name := true];
        prev := thresh;
      } else {
        sig := sig[items[i].name := false];
      }
    }
  }

  /** Marked hypotheses are a subset of the step-up rejections, and both have the same largest rank;
      in particular one is empty exactly if the other is. */
  lemma {:induction false} MarkedWithinStepUp(items: seq<Hypothesis>, q: real)
    ensures forall i :: 0 <= i < |items| && Meets(items, q, i) ==> StepUpRejects(items, q, i)
    ensures var k := Cutoff(items, q, |items|);
      k > 0 ==> Meets(items, q, k - 1) && StepUpRejects(items, q, k - 1)
    ensures (exists i :: 0 <= i < |items| && Meets(items, q, i)) <==> (exists i :: 0 <= i < |items| && StepUpRejects(items, q, i))
  {
    var k := Cutoff(items, q, |items|);
    if k > 0 {
      assert Meets(items, q, k - 1) && StepUpRejects(items, q, k - 1);
    }
  }

  /** The loop agrees with the step-up procedure exactly when no hypothesis misses its threshold while a larger
      p-value meets its own. */
  lemma {:induction false} AgreesExactlyWhen(items: seq<Hypothesis>, q: real)
    ensures (forall i :: 0 <= i < |items| ==> (Meets(items, q, i) <==> StepUpRejects(items, q, i)))
            <==> (forall i, j :: 0 <= i < j < |items| && Meets(items, q, j) ==> Meets(items, q, i))
  {
    MarkedWithinStepUp(items, q);
    var k := Cutoff(items, q, |items|);
    if forall i :: 0 <= i < |items| ==> (Meets(items, q, i) <==> StepUpRejects(items, q, i)) {
      forall i, j | 0 <= i < j < |items| && Meets(items, q, j)
        ensures Meets(items, q, i)
      {
        assert StepUpRejects(items, q, j) && StepUpRejects(items, q, i);
      }
    }
  }

  /** Two strategies with p = 0.06 and p = 0.07: step-up rejects both, the loop only the weaker one. */
  lemma {:induction false} NotStepUpWitness()
    ensures var items := [Hypothesis("A", 0.06), Hypothesis("B", 0.07)];
      && Ranked(items)
      && !Meets(items, FDR_Q, 0) && Meets(items, FDR_Q, 1)
      && StepUpRejects(items, FDR_Q, 0) && StepUpRejects(items, FDR_Q, 1)
  {
    var items := [Hypothesis("A", 0.06), Hypothesis("B", 0.07)];
    assert Times(1.0, FDR_Q) == 0.10 && Times(2.0, FDR_Q) == 0.20;
    assert Threshold(1, 2, FDR_Q) == 0.05 && Threshold(2, 2, FDR_Q) == 0.10;
    assert Meets(items, FDR_Q, 1);
    assert Cutoff(items, FDR_Q, 2) == 2;
  }

  // ----- Recommendations -----

  datatype Decision = Refused | Pending | Promote | Rollback | Hold

  datatype StrategyResult = StrategyResult(
    strategy: string,
    gatePassed: bool,
    nLinked: nat,
    effect: Option<real>,
    pValue: Option<real>,
    significant: bool,
    decision: Decision)

  predicate GatePasses(n: nat) {
    n >= GATE_MIN_N
  }

  /** One strategy's evaluation; the effect and the p-value of its samples come from the statistics library. */
  function Evaluate(name: string, n: nat, gate: bool, effect: real, p: real): StrategyResult {
    if !gate || n < GATE_MIN_N then StrategyResult(name, gate, n, None, None, false, Refused)
    else StrategyResult(name, gate, n, Some(effect), Some(p), false, Pending)
  }

  function Decide(r: StrategyResult): StrategyResult {
    if r.decision == Refused || r.effect.None? then r
    else if r.effect.value >= EFFECT_MIN_R && r.significant then r.(decision := Promote)
    else if r.effect.value < -EFFECT_MIN_R && r.significant then r.(decision := Rollback)
    else r.(decision := Hold)
  }

  /** The inputs of one report: per strategy its sample count, effect and p-value. */
  datatype Sample = Sample(name: string, n: nat, effect: real, p: real)

  /** `items` ranks exactly the strategies that were tested. */
  ghost predicate RanksTested(items: seq<Hypothesis>, samples: seq<Sample>) {
    && Ranked(items)
    && (forall s :: s in samples && GatePasses(s.n) ==> Hypothesis(s.name, s.p) in items)
    && forall h :: h in items ==> exists s :: s in samples && GatePasses(s.n) && s.name == h.name && s.p == h.p
  }

  /** The verdict on a sample: refused below the gate; otherwise fixed by its effect and by whether its own
      p-value meets the threshold of its rank. */
  ghost predicate Decided(r: StrategyResult, s: Sample, items: seq<Hypothesis>) {
    if !GatePasses(s.n) then r.decision == Refused
    else forall k :: 0 <= k < |items| && items[k].name == s.name ==>
      r.decision == (if s.effect >= EFFECT_MIN_R && Meets(items, FDR_Q, k) then Promote
                     else if s.effect < -EFFECT_MIN_R && Meets(items, FDR_Q, k) then Rollback
                     else Hold)
  }

  /** A recommendation other than HOLD is only made for a strategy with enough samples, a large enough effect, and
      a rejection that the step-up procedure confirms. */
  ghost predicate Justified(r: StrategyResult, items: seq<Hypothesis>) {
    (r.decision == Promote || r.decision == Rollback) ==>
      && r.gatePassed && r.nLinked >= GATE_MIN_N
      && r.effect.Some? && (if r.decision == Promote then r.effect.value >= EFFECT_MIN_R else r.effect.value < -EFFECT_MIN_R)
      && exists k :: 0 <= k < |items| && items[k].name == r.strategy && StepUpRejects(items, FDR_Q, k)
  }

  /** What the loop's marks say about the ranked hypotheses. */
  ghost predicate MarksMeeting(sig: map<string, bool>, items: seq<Hypothesis>) {
    forall i :: 0 <= i < |items| ==> items[i].name in sig && sig[items[i].name] == Meets(items, FDR_Q, i)
  }

  /** The recommendation for one strategy, given the marks. */
  method Recommend(s: Sample, ghost items: seq<Hypothesis>, sig: map<string, bool>) returns (d: StrategyResult)
    requires MarksMeeting(sig, items) && (GatePasses(s.n) ==> Hypothesis(s.name, s.p) in items)
    ensures d.strategy == s.name && Decided(d, s, items) && Justified(d, items)
  {
    var r := Evaluate(s.name, s.n, GatePasses(s.n), s.effect, s.p);
    if r.pValue.Some? {
      r := r.(significant := if s.name in sig then sig[s.name] else false);
    }
    d := Decide(r);
    if GatePasses(s.n) {
      ghost var k :| 0 <= k < |items| && items[k] == Hypothesis(s.name, s.p);
      MarkedWithinStepUp(items, FDR_Q);
      assert r.significant == Meets(items, FDR_Q, k);
    }
  }

  /** The report over all strategies. */
  method Report(samples: seq<Sample>, items: seq<Hypothesis>) returns (results: seq<StrategyResult>)
    requires RanksTested(items, samples)
    ensures |results| == |samples|
    ensures forall i :: 0 <= i < |samples| ==>
      && results[i].strategy == samples[i].name
      && Decided(results[i], samples[i], items)
      && Justified(results[i], items)
  {
    results := [];
    var sig := BenjaminiHochberg(items, FDR_Q);
    for i := 0 to |samples|
      invariant |results| == i
      invariant forall k :: 0 <= k < i ==>
        results[k].strategy == samples[k].name && Decided(results[k], samples[k], items) && Justified(results[k], items)
    {
      assert samples[i] in samples;
      var d := Recommend(samples[i], items, sig);
      results := results + [d];
    }
  }
}
