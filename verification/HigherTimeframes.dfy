/** Higher-timeframe lookups: the incremental index and the history store, both free of look-ahead. */
module HigherTimeframes {
  import opened Options
  import opened BacktestTypes
  import opened Counting

  /** A candle is usable once it has fully closed. */
  predicate Closed(c: Candle, duration: int, now: int) {
    c.time + duration <= now
  }

  ghost predicate Sorted(cs: seq<Candle>) {
    forall i, j :: 0 <= i <= j < |cs| ==> cs[i].time <= cs[j].time
  }

  /** Where a scan starting at `from` stops: the first candle not yet closed. */
  function Scan(cs: seq<Candle>, duration: int, now: int, from: nat): (stop: nat)
    requires from <= |cs|
    ensures from <= stop <= |cs|
    ensures forall i :: from <= i < stop ==> Closed(cs[i], duration, now)
    ensures stop < |cs| ==> !Closed(cs[stop], duration, now)
    decreases |cs| - from
  {
    if from < |cs| && Closed(cs[from], duration, now) then Scan(cs, duration, now, from + 1) else from
  }

  /** The number of candles closed by `now`, wherever they stand. */
  function ClosedCount(cs: seq<Candle>, duration: int, now: int, n: nat): (count: nat)
    requires n <= |cs|
    ensures count <= n
  {
    if n == 0 then 0 else ClosedCount(cs, duration, now, n - 1) + if Closed(cs[n - 1], duration, now) then 1 else 0
  }

  class Lookup {
    const candles: seq<Candle>
    var idx: nat

    ghost predicate Valid()
      reads this
    {
      idx <= |candles|
    }

    constructor (candles: seq<Candle>)
      ensures Valid() && idx == 0 && this.candles == candles
    {
      this.candles, idx := candles, 0;
    }

    /** Move past every candle that has closed; the last one passed, if any, is the answer. */
    method Advance(duration: int, now: int) returns (mostRecent: Option<Candle>)
      requires Valid()
      modifies this
      ensures Valid() && idx == Scan(candles, duration, now, old(idx))
      ensures mostRecent == if idx > old(idx) then Some(candles[idx - 1]) else None
    {
      mostRecent := None;
      while idx < |candles|
        invariant old(idx) <= idx <= |candles|
        invariant Scan(candles, duration, now, idx) == Scan(candles, duration, now, old(idx))
        invariant mostRecent == if idx > old(idx) then Some(candles[idx - 1]) else None
        decreases |candles| - idx
      {
        var c := candles[idx];
        var closeTime := c.time + duration;
        if closeTime < now || closeTime == now {
          mostRecent := Some(c);
          idx := idx + 1;
        } else {
          break;
        }
      }
    }
  }

  ghost predicate Separate(lookups: seq<Lookup>) {
    forall i, j :: 0 <= i < j < |lookups| ==> lookups[i] != lookups[j]
  }

  /** One bar over all higher timeframes: entry `i` of the answer is the candle timeframe `i` contributes, if any. */
  method AdvanceAll(lookups: seq<Lookup>, durations: seq<int>, now: int) returns (handed: seq<Option<Candle>>)
    requires |durations| == |lookups| && Separate(lookups)
    requires forall i :: 0 <= i < |lookups| ==> lookups[i].Valid()
    modifies lookups
    ensures |handed| == |lookups|
    ensures forall i :: 0 <= i < |lookups| ==>
      && lookups[i].Valid() && old(lookups[i].idx) <= |lookups[i].candles|
      && lookups[i].idx == Scan(lookups[i].candles, durations[i], now, old(lookups[i].idx))
      && handed[i] == if lookups[i].idx > old(lookups[i].idx) then Some(lookups[i].candles[lookups[i].idx - 1]) else None
  {
    handed := [];
    for n := 0 to |lookups|
      invariant |handed| == n
      invariant forall i :: n <= i < |lookups| ==> lookups[i].idx == old(lookups[i].idx) && lookups[i].Valid()
      invariant forall i :: 0 <= i < n ==>
        && lookups[i].Valid() && old(lookups[i].idx) <= |lookups[i].candles|
        && lookups[i].idx == Scan(lookups[i].candles, durations[i], now, old(lookups[i].idx))
        && handed[i] == if lookups[i].idx > old(lookups[i].idx) then Some(lookups[i].candles[lookups[i].idx - 1]) else None
    {
      var mostRecent := lookups[n].Advance(durations[n], now);
      handed := handed + [mostRecent];
    }
  }

  // ----- The incremental index against the naive lookup -----

  /** The index after the bars at `times[..k]`. */
  function IndexAfter(cs: seq<Candle>, duration: int, times: seq<int>, k: nat): (i: nat)
    requires k <= |times|
    ensures i <= |cs|
  {
    if k == 0 then 0 else Scan(cs, duration, times[k - 1], IndexAfter(cs, duration, times, k - 1))
  }

  /** What the bar at `times[k]` is handed: the position of the candle, if the index moved. */
  function Handed(cs: seq<Candle>, duration: int, times: seq<int>, k: nat): Option<nat>
    requires k < |times|
  {
    var before, after := IndexAfter(cs, duration, times, k), IndexAfter(cs, duration, times, k + 1);
    if after > before then Some(after - 1) else None
  }

  /** The latest candle closed by `now`, found by counting from scratch. */
  function Naive(cs: seq<Candle>, duration: int, now: int): Option<nat> {
    var n := ClosedCount(cs, duration, now, |cs|);
    if n > 0 then Some(n - 1) else None
  }

  ghost predicate NonDecreasing(times: seq<int>) {
    forall i, j :: 0 <= i <= j < |times| ==> times[i] <= times[j]
  }

  /** In a sorted history the closed candles are a prefix. */
  lemma {:induction false} ClosedPrefix(cs: seq<Candle>, duration: int, now: int, stop: nat, n: nat)
    requires Sorted(cs) && stop <= |cs| && n <= |cs|
    requires forall i :: 0 <= i < stop ==> Closed(cs[i], duration, now)
    requires stop < |cs| ==> !Closed(cs[stop], duration, now)
    ensures ClosedCount(cs, duration, now, n) == if n <= stop then n else stop
  {
    if n > 0 {
      ClosedPrefix(cs, duration, now, stop, n - 1);
      if n > stop {
        assert cs[stop].time <= cs[n - 1].time;
      }
    }
  }

  /** The index always equals the number of candles closed by the bar's time. */
  lemma {:induction false} IndexIsClosedCount(cs: seq<Candle>, duration: int, times: seq<int>, k: nat)
    requires Sorted(cs) && NonDecreasing(times) && 0 < k <= |times|
    ensures IndexAfter(cs, duration, times, k) == ClosedCount(cs, duration, times[k - 1], |cs|)
    ensures forall i :: 0 <= i < IndexAfter(cs, duration, times, k) ==> Closed(cs[i], duration, times[k - 1])
  {
    if k > 1 {
      IndexIsClosedCount(cs, duration, times, k - 1);
      assert times[k - 2] <= times[k - 1];
    }
    var stop := IndexAfter(cs, duration, times, k);
    assert forall i :: 0 <= i < IndexAfter(cs, duration, times, k - 1) ==> Closed(cs[i], duration, times[k - 1]);
    ClosedPrefix(cs, duration, times[k - 1], stop, |cs|);
  }

  /** A bar is handed the naive answer exactly when the closed count grew on it, or nothing has closed yet;
      on every other bar it is handed nothing although a closed candle exists. */
  lemma {:induction false} HandedIsNaiveExactlyWhen(cs: seq<Candle>, duration: int, times: seq<int>, k: nat)
    requires Sorted(cs) && NonDecreasing(times) && k < |times|
    ensures var before := if k == 0 then 0 else ClosedCount(cs, duration, times[k - 1], |cs|);
      var now := ClosedCount(cs, duration, times[k], |cs|);
      && (Handed(cs, duration, times, k) == Naive(cs, duration, times[k]) <==> now > before || now == 0)
      && (Handed(cs, duration, times, k) == None <==> now == before)
  {
    if k > 0 {
      IndexIsClosedCount(cs, duration, times, k);
    }
    IndexIsClosedCount(cs, duration, times, k + 1);
  }

  /** One hourly candle and two bars after its close: the first bar is handed the candle, the second nothing. */
  lemma {:induction false} SecondBarWitness(c: Candle)
    requires c.time == 0
    ensures var cs, hour, times := [c], 3600, [3600, 3660];
      && Handed(cs, hour, times, 0) == Some(0)
      && Handed(cs, hour, times, 1) == None && Naive(cs, hour, times[1]) == Some(0)
  {
    var cs, hour, times := [c], 3600, [3600, 3660];
    assert Scan(cs, hour, 3600, 0) == 1 && Scan(cs, hour, 3660, 1) == 1;
    assert IndexAfter(cs, hour, times, 0) == 0;
    assert IndexAfter(cs, hour, times, 1) == 1;
    assert IndexAfter(cs, hour, times, 2) == 1;
    assert ClosedCount(cs, hour, 3660, 0) == 0;
  }

  /** No look-ahead: whatever is handed out has fully closed. */
  lemma {:induction false} HandedIsClosed(cs: seq<Candle>, duration: int, times: seq<int>, k: nat)
    requires Sorted(cs) && NonDecreasing(times) && k < |times|
    ensures Handed(cs, duration, times, k).Some? ==>
      Handed(cs, duration, times, k).value < |cs| && cs[Handed(cs, duration, times, k).value].time + duration <= times[k]
  {
    IndexIsClosedCount(cs, duration, times, k + 1);
  }

  lemma {:induction false} IndexMonotone(cs: seq<Candle>, duration: int, times: seq<int>, j: nat, k: nat)
    requires j <= k <= |times|
    ensures IndexAfter(cs, duration, times, j) <= IndexAfter(cs, duration, times, k)
    decreases k
  {
    if j < k {
      IndexMonotone(cs, duration, times, j, k - 1);
    }
  }

  /** A bar is handed the latest candle whose whole duration is over, if a further one ended since the bar before. */
  lemma {:induction false} HandedIsLatest(cs: seq<Candle>, duration: int, times: seq<int>, k: nat)
    requires Sorted(cs) && NonDecreasing(times) && k < |times|
    ensures match Handed(cs, duration, times, k)
            case Some(i) =>
              && i < |cs| && cs[i].time + duration <= times[k]
              && (i + 1 < |cs| ==> cs[i + 1].time + duration > times[k])
              && (k > 0 ==> cs[i].time + duration > times[k - 1])
            case None => forall i :: 0 <= i < |cs| && cs[i].time + duration <= times[k] ==> k > 0 && cs[i].time + duration <= times[k - 1]
  {
    var before, after := IndexAfter(cs, duration, times, k), IndexAfter(cs, duration, times, k + 1);
    assert after == Scan(cs, duration, times[k], before);
    if k > 0 {
      assert before == Scan(cs, duration, times[k - 1], IndexAfter(cs, duration, times, k - 1));
      IndexIsClosedCount(cs, duration, times, k);
    }
    IndexIsClosedCount(cs, duration, times, k + 1);
  }

  /** The closed count is the number of positions whose candle is over. */
  lemma {:induction false} ClosedCountIsSize(cs: seq<Candle>, duration: int, now: int, n: nat)
    requires n <= |cs|
    ensures ClosedCount(cs, duration, now, n) == |set i: nat | i < n && cs[i].time + duration <= now|
  {
    var closed := set i: nat | i < n && cs[i].time + duration <= now;
    if n > 0 {
      ClosedCountIsSize(cs, duration, now, n - 1);
      var before := set i: nat | i < n - 1 && cs[i].time + duration <= now;
      SetGrows(closed, before, n - 1, cs[n - 1].time + duration <= now);
    } else {
      assert closed == {};
    }
  }

  /** Candles are handed out in order and never twice, for any history and any bar times. */
  lemma {:induction false} HandedOnce(cs: seq<Candle>, duration: int, times: seq<int>, j: nat, k: nat)
    requires j < k < |times|
    requires Handed(cs, duration, times, j).Some? && Handed(cs, duration, times, k).Some?
    ensures Handed(cs, duration, times, j).value < Handed(cs, duration, times, k).value
  {
    IndexMonotone(cs, duration, times, j + 1, k);
  }

  // ----- The history store -----

  /** Up to `limit` candles of a history, the newest no later than `cur`, oldest first. */
  method Get(cs: seq<Candle>, cur: int, limit: int) returns (out: seq<Candle>)
    ensures Sorted(cs) ==> forall i :: 0 <= i < |out| ==> out[i].time <= cur
    ensures Sorted(cs) && limit >= 0 ==>
      var n := ClosedCount(cs, 0, cur, |cs|);
      out == cs[if n > limit then n - limit else 0..n]
    ensures limit <= 0 ==> out == []
  {
    if |cs| == 0 {
      return [];
    }
    var n := |cs|;
    var i := 0;
    while i < |cs|
      invariant 0 <= i <= |cs| && n == |cs|
      invariant forall j :: 0 <= j < i ==> cs[j].time <= cur
    {
      if cs[i].time > cur {
        n := i;
        break;
      }
      i := i + 1;
    }
    if Sorted(cs) {
      ClosedPrefix(cs, 0, cur, n, |cs|);
    }
    var start := n - limit;
    if start < 0 {
      start := 0;
    }
    if n <= start {
      return [];
    }
    out := cs[start..n];
  }
}
