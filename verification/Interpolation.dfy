/** Isotonic calibration: linear interpolation over (x, p) knots, and the gate that admits a knot list. */
module Interpolation {
  import opened Reals

  datatype Bin = Bin(x: real, p: real)

  function ClampProb(p: real): real {
    if p < 0.0 then 0.0 else if p > 1.0 then 1.0 else p
  }

  /** The point at `x` on the line through two knots. */
  function Lerp(lo: Bin, hi: Bin, x: real): real
    requires lo.x != hi.x
  {
    lo.p + Times(Over(x - lo.x, hi.x - lo.x), hi.p - lo.p)
  }

  /** The search from knot `i` on for the segment ending at or beyond `x`. */
  function Segment(bins: seq<Bin>, x: real, i: nat): real
    requires 1 <= i && bins != []
    decreases |bins| - i
  {
    if i >= |bins| then ClampProb(bins[|bins| - 1].p)
    else if x <= bins[i].x then
      if bins[i].x == bins[i - 1].x then ClampProb(bins[i - 1].p)
      else ClampProb(Lerp(bins[i - 1], bins[i], x))
    else Segment(bins, x, i + 1)
  }

  function InterpBins(bins: seq<Bin>, x: real): (p: real)
    ensures 0.0 <= p <= 1.0
  {
    if bins == [] then 0.0
    else if x <= bins[0].x then ClampProb(bins[0].p)
    else if x >= bins[|bins| - 1].x then ClampProb(bins[|bins| - 1].p)
    else
      SegmentInUnit(bins, x, 1);
      Segment(bins, x, 1)
  }

  lemma {:induction false} SegmentInUnit(bins: seq<Bin>, x: real, i: nat)
    requires 1 <= i && bins != []
    ensures 0.0 <= Segment(bins, x, i) <= 1.0
    decreases |bins| - i
  {
    if i < |bins| && x > bins[i].x {
      SegmentInUnit(bins, x, i + 1);
    }
  }

  // ----- The gate -----

  ghost predicate Rising(bins: seq<Bin>) {
    bins != [] && forall i, j :: 0 <= i <= j < |bins| ==> bins[i].p <= bins[j].p
  }

  /** The gate accepts exactly the non-empty knot lists whose probabilities never fall. */
  method BinsMonotonic(bins: seq<Bin>) returns (ok: bool)
    ensures ok <==> Rising(bins)
  {
    if |bins| == 0 {
      return false;
    }
    var prev := bins[0].p;
    for i := 1 to |bins|
      invariant prev == bins[i - 1].p
      invariant forall j, k :: 0 <= j <= k < i ==> bins[j].p <= bins[k].p
    {
      if bins[i].p < prev {
        assert bins[i].p < bins[i - 1].p;
        return false;
      }
      prev := bins[i].p;
    }
    return true;
  }

  // ----- Where a score falls -----

  /** The first knot from `i` on that is not left of `x`. */
  function Seat(bins: seq<Bin>, x: real, i: nat): (k: nat)
    requires i <= |bins|
    ensures i <= k <= |bins|
    ensures k < |bins| ==> x <= bins[k].x
    ensures forall j :: i <= j < k ==> bins[j].x < x
    decreases |bins| - i
  {
    if i < |bins| && x > bins[i].x then Seat(bins, x, i + 1) else i
  }

  /** Inside the knots, the code interpolates on the segment that ends at the seat; both of its knots differ,
      because every knot before the seat lies strictly left of `x` even in an unsorted list. */
  lemma {:induction false} SegmentAtSeat(bins: seq<Bin>, x: real, i: nat)
    requires 1 <= i <= |bins| && bins[i - 1].x < x
    requires Seat(bins, x, i) < |bins|
    ensures var k := Seat(bins, x, i);
      bins[k - 1].x < x <= bins[k].x && Segment(bins, x, i) == ClampProb(Lerp(bins[k - 1], bins[k], x))
    decreases |bins| - i
  {
    if x > bins[i].x {
      SegmentAtSeat(bins, x, i + 1);
    }
  }

  lemma {:induction false} SeatMonotone(bins: seq<Bin>, x: real, y: real, i: nat)
    requires i <= |bins| && x <= y
    ensures Seat(bins, x, i) <= Seat(bins, y, i)
    decreases |bins| - i
  {
    if i < |bins| && x > bins[i].x {
      SeatMonotone(bins, x, y, i + 1);
    }
  }

  lemma {:induction false} LerpBetween(lo: Bin, hi: Bin, x: real)
    requires lo.x < x <= hi.x && lo.p <= hi.p
    ensures lo.p <= Lerp(lo, hi, x) <= hi.p
  {
    var t, rise := Over(x - lo.x, hi.x - lo.x), hi.p - lo.p;
    Quotient(x - lo.x, hi.x - lo.x);
    Scaled(t, 1.0, rise);
    Scaled(0.0, t, rise);
  }

  lemma {:induction false} Scaled(s: real, t: real, rise: real)
    requires s <= t && rise >= 0.0
    ensures Times(s, rise) <= Times(t, rise)
    ensures Times(0.0, rise) == 0.0 && Times(1.0, rise) == rise
  {
    if rise == 0.0 {
      assert Times(s, rise) == 0.0 == Times(t, rise);
    } else {
      ScaleOrder(rise, s, t);
      assert rise * s == Times(s, rise) && rise * t == Times(t, rise);
    }
  }

  lemma {:induction false} LerpMonotone(lo: Bin, hi: Bin, x: real, y: real)
    requires lo.x < x <= y <= hi.x && lo.p <= hi.p
    ensures Lerp(lo, hi, x) <= Lerp(lo, hi, y)
  {
    var w := hi.x - lo.x;
    assert w > 0.0;
    assert (x - lo.x) / w <= (y - lo.x) / w;
    Scaled(Over(x - lo.x, w), Over(y - lo.x, w), hi.p - lo.p);
  }

  /** The value at an interior score lies between the two knots around its seat. */
  lemma {:induction false} InteriorBetween(bins: seq<Bin>, x: real)
    requires Rising(bins) && bins[0].x < x < bins[|bins| - 1].x
    ensures var k := Seat(bins, x, 1);
      && 1 <= k < |bins|
      && bins[k - 1].x < x <= bins[k].x
      && InterpBins(bins, x) == ClampProb(Lerp(bins[k - 1], bins[k], x))
      && ClampProb(bins[k - 1].p) <= InterpBins(bins, x) <= ClampProb(bins[k].p)
  {
    var k := Seat(bins, x, 1);
    assert k <= |bins| - 1;
    SegmentAtSeat(bins, x, 1);
    LerpBetween(bins[k - 1], bins[k], x);
  }

  /** Inside the knots, between probabilities in [0, 1], the answer lies on the straight line through the two knots
      around the score. */
  lemma {:induction false} OnTheLine(bins: seq<Bin>, x: real)
    requires Rising(bins) && bins[0].x < x < bins[|bins| - 1].x
    requires forall i :: 0 <= i < |bins| ==> 0.0 <= bins[i].p <= 1.0
    ensures exists k :: 1 <= k < |bins| && OnSegment(bins[k - 1], bins[k], x, InterpBins(bins, x))
  {
    var k := Seat(bins, x, 1);
    InteriorBetween(bins, x);
    LerpBetween(bins[k - 1], bins[k], x);
    LerpOnSegment(bins[k - 1], bins[k], x);
    assert OnSegment(bins[k - 1], bins[k], x, InterpBins(bins, x));
  }

  predicate OnSegment(lo: Bin, hi: Bin, x: real, p: real) {
    lo.x < x <= hi.x && Times(p - lo.p, hi.x - lo.x) == Times(x - lo.x, hi.p - lo.p)
  }

  lemma {:induction false} LerpOnSegment(lo: Bin, hi: Bin, x: real)
    requires lo.x < x <= hi.x
    ensures OnSegment(lo, hi, x, Lerp(lo, hi, x))
  {
    var t, rise, width := Over(x - lo.x, hi.x - lo.x), hi.p - lo.p, hi.x - lo.x;
    assert t * width == x - lo.x;
    assert (t * rise) * width == (t * width) * rise;
  }

  /** Every knot list that passes the gate serves probabilities that never fall as the score rises,
      over all scores, whether or not the knots are sorted. */
  lemma {:induction false} GateImpliesMonotone(bins: seq<Bin>, x: real, y: real)
    requires Rising(bins) && x <= y
    ensures InterpBins(bins, x) <= InterpBins(bins, y)
  {
    var first, last := bins[0], bins[|bins| - 1];
    if first.x < x < last.x {
      InteriorBetween(bins, x);
    }
    if first.x < y < last.x {
      InteriorBetween(bins, y);
    }
    if first.x < x && y < last.x {
      var i, j := Seat(bins, x, 1), Seat(bins, y, 1);
      SeatMonotone(bins, x, y, 1);
      if i == j {
        LerpMonotone(bins[i - 1], bins[i], x, y);
      } else {
        assert bins[i].p <= bins[j - 1].p;
      }
    }
  }

  // ----- The knots themselves -----

  ghost predicate Sorted(bins: seq<Bin>) {
    forall i, j :: 0 <= i <= j < |bins| ==> bins[i].x <= bins[j].x
  }

  /** At a knot the answer is that knot's probability; where several knots share an x it is the first of them,
      except at the right end, where it is the last. */
  lemma {:induction false} KnotValue(bins: seq<Bin>, k: nat)
    requires Sorted(bins) && k < |bins|
    requires forall j :: 0 <= j < k ==> bins[j].x < bins[k].x
    ensures InterpBins(bins, bins[k].x) ==
      ClampProb(if k > 0 && bins[k].x == bins[|bins| - 1].x then bins[|bins| - 1].p else bins[k].p)
  {
    var x := bins[k].x;
    if k > 0 && x < bins[|bins| - 1].x {
      var seat := Seat(bins, x, 1);
      assert seat == k by {
        assert bins[k].x >= x;
      }
      SegmentAtSeat(bins, x, 1);
      LerpAtEnd(bins[k - 1], bins[k]);
    }
  }

  /** The answer at a knot is the first of those sharing its x, as everywhere inside, exactly unless they are the
      right-most ones and the last of them says something else. */
  lemma {:induction false} FirstKnotExactlyWhen(bins: seq<Bin>, k: nat)
    requires Sorted(bins) && k < |bins|
    requires forall j :: 0 <= j < k ==> bins[j].x < bins[k].x
    ensures InterpBins(bins, bins[k].x) == ClampProb(bins[k].p) <==>
      k == 0 || bins[k].x != bins[|bins| - 1].x || ClampProb(bins[|bins| - 1].p) == ClampProb(bins[k].p)
  {
    KnotValue(bins, k);
  }

  lemma {:induction false} LerpAtEnd(lo: Bin, hi: Bin)
    requires lo.x < hi.x
    ensures Lerp(lo, hi, hi.x) == hi.p
  {
    QuotientIs(hi.x - lo.x, hi.x - lo.x, 1.0);
    assert Times(1.0, hi.p - lo.p) == hi.p - lo.p;
  }

  /** Two knots at the right end: the answer there is the second one's 0.8, not the first one's 0.4. */
  lemma {:induction false} LastKnotWitness()
    ensures var bins := [Bin(0.0, 0.2), Bin(1.0, 0.4), Bin(1.0, 0.8)];
      Sorted(bins) && Rising(bins) && InterpBins(bins, 1.0) == 0.8
  {
    KnotValue([Bin(0.0, 0.2), Bin(1.0, 0.4), Bin(1.0, 0.8)], 1);
  }

  ghost predicate Distinct(bins: seq<Bin>) {
    forall i, j :: 0 <= i < j < |bins| ==> bins[i].x < bins[j].x
  }

  /** For distinct sorted knots with probabilities in [0, 1], the gate accepts exactly the lists that serve
      non-decreasing probabilities. */
  lemma {:induction false} GateExact(bins: seq<Bin>)
    requires Distinct(bins) && bins != []
    requires forall i :: 0 <= i < |bins| ==> 0.0 <= bins[i].p <= 1.0
    ensures Rising(bins) <==> forall x, y :: x <= y ==> InterpBins(bins, x) <= InterpBins(bins, y)
  {
    if Rising(bins) {
      forall x, y | x <= y
        ensures InterpBins(bins, x) <= InterpBins(bins, y)
      {
        GateImpliesMonotone(bins, x, y);
      }
    } else {
      var i, j :| 0 <= i <= j < |bins| && bins[i].p > bins[j].p;
      KnotValue(bins, i);
      KnotValue(bins, j);
      assert bins[i].x <= bins[j].x;
    }
  }
}
