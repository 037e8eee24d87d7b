/** Performance metrics: one pass over the closed trades, proved equal to the quantities it stands for. */
module Metrics {
  import opened BacktestTypes
  import opened Counting
  import Reals

  datatype Summary = Summary(
    totalTrades: int,
    wins: int,
    losses: int,
    winRate: real,
    netProfit: real,
    totalReturnPct: real,
    profitFactor: real,
    maxDrawdownPct: real,
    avgWin: real,
    avgLoss: real,
    expectancy: real,
    bestTrade: real,
    worstTrade: real,
    avgHoldingBars: int,
    buyCount: int,
    sellCount: int,
    finalBalance: real,
    maxConsecutiveWins: int,
    maxConsecutiveLosses: int)

  function Max(a: real, b: real): real { if a > b then a else b }
  function Min(a: real, b: real): real { if a < b then a else b }

  predicate IsWin(t: Trade) { t.realizedPnL > 0.0 }

  // ----- What the running totals stand for; every function looks at the first `n` trades -----

  function Net(ts: seq<Trade>, n: nat): real
    requires n <= |ts|
  {
    if n == 0 then 0.0 else Net(ts, n - 1) + ts[n - 1].realizedPnL
  }

  /** The profit of the winning trades, or of the others. */
  function NetOf(ts: seq<Trade>, n: nat, win: bool): real
    requires n <= |ts|
  {
    if n == 0 then 0.0
    else NetOf(ts, n - 1, win) + if IsWin(ts[n - 1]) == win then ts[n - 1].realizedPnL else 0.0
  }

  function CountOf(ts: seq<Trade>, n: nat, win: bool): nat
    requires n <= |ts|
  {
    if n == 0 then 0 else CountOf(ts, n - 1, win) + if IsWin(ts[n - 1]) == win then 1 else 0
  }

  function BuyCount(ts: seq<Trade>, n: nat): nat
    requires n <= |ts|
  {
    if n == 0 then 0 else BuyCount(ts, n - 1) + if ts[n - 1].direction == Buy then 1 else 0
  }

  function Holding(ts: seq<Trade>, n: nat): int
    requires n <= |ts|
  {
    if n == 0 then 0 else Holding(ts, n - 1) + ts[n - 1].holdingBars
  }

  /** The equity curve: the balance after each trade, preceded by `base`. */
  function Mark(base: real, initial: real, ts: seq<Trade>, i: nat): real
    requires i <= |ts|
  {
    if i == 0 then base else initial + Net(ts, i)
  }

  function Peak(base: real, initial: real, ts: seq<Trade>, n: nat): real
    requires n <= |ts|
  {
    if n == 0 then base else Max(Peak(base, initial, ts, n - 1), Mark(base, initial, ts, n))
  }

  function Drawdown(base: real, initial: real, ts: seq<Trade>, n: nat): real
    requires n <= |ts|
  {
    if n == 0 then 0.0
    else Max(Drawdown(base, initial, ts, n - 1), Peak(base, initial, ts, n) - Mark(base, initial, ts, n))
  }

  /** The lowest balance reached, counting the initial one. */
  function Lowest(initial: real, ts: seq<Trade>, n: nat): real
    requires n <= |ts|
  {
    if n == 0 then initial else Min(Lowest(initial, ts, n - 1), initial + Net(ts, n))
  }

  function CurrentRun(ts: seq<Trade>, n: nat, win: bool): nat
    requires n <= |ts|
  {
    if n == 0 || IsWin(ts[n - 1]) != win then 0 else CurrentRun(ts, n - 1, win) + 1
  }

  function LongestRun(ts: seq<Trade>, n: nat, win: bool): nat
    requires n <= |ts|
  {
    if n == 0 then 0
    else
      var run := CurrentRun(ts, n, win);
      if run > LongestRun(ts, n - 1, win) then run else LongestRun(ts, n - 1, win)
  }

  function Best(ts: seq<Trade>, n: nat): real
    requires n <= |ts|
  {
    if n == 0 then 0.0 else Max(Best(ts, n - 1), ts[n - 1].realizedPnL)
  }

  function Worst(ts: seq<Trade>, n: nat): real
    requires n <= |ts|
  {
    if n == 0 then 0.0 else Min(Worst(ts, n - 1), ts[n - 1].realizedPnL)
  }

  /** Integer division that truncates toward zero. */
  function Quotient(a: int, b: int): int
    requires b > 0
  {
    if a >= 0 then a / b else -(-a / b)
  }

  // ----- The metrics, in terms of those quantities -----

  function Percent(part: real, whole: real): real {
    if whole == 0.0 then 0.0 else part / whole * 100.0
  }

  function Ratio(part: real, whole: real): real {
    if whole == 0.0 then 0.0 else part / whole
  }

  ghost predicate Summarizes(m: Summary, ts: seq<Trade>, initial: real) {
    var n := |ts|;
    var wins, losses := CountOf(ts, n, true), CountOf(ts, n, false);
    && m.totalTrades == n
    && m.finalBalance == initial + Net(ts, n)
    && m.netProfit == Net(ts, n)
    && m.wins == wins && m.losses == losses
    && m.buyCount == BuyCount(ts, n) && m.sellCount == n - BuyCount(ts, n)
    && m.maxConsecutiveWins == LongestRun(ts, n, true)
    && m.maxConsecutiveLosses == LongestRun(ts, n, false)
    && m.bestTrade == Best(ts, n) && m.worstTrade == Worst(ts, n)
    && m.winRate == Percent(wins as real, n as real)
    && m.avgWin == Ratio(NetOf(ts, n, true), wins as real)
    && m.avgLoss == Ratio(NetOf(ts, n, false), losses as real)
    && m.profitFactor == Ratio(NetOf(ts, n, true), -NetOf(ts, n, false))
    && m.expectancy == Ratio(Net(ts, n), n as real)
    && m.totalReturnPct == Percent(Net(ts, n), initial)
    && m.maxDrawdownPct == Percent(Drawdown(0.0, initial, ts, n), Peak(0.0, initial, ts, n))
    && m.avgHoldingBars == if n == 0 then 0 else Quotient(Holding(ts, n), n)
  }

  method ComputeMetrics(trades: seq<Trade>, initialBalance: real) returns (m: Summary)
    ensures Summarizes(m, trades, initialBalance)
  {
    var n := |trades|;
    m := Summary(n, 0, 0, 0.0, 0.0, 0.0, 0.0, 0.0, 0.0, 0.0, 0.0, 0.0, 0.0, 0, 0, 0, initialBalance, 0, 0);
    if n == 0 {
      return;
    }
    var totalWin, totalLoss, grossProfit, grossLoss := 0.0, 0.0, 0.0, 0.0;
    var netProfit, best, worst := 0.0, 0.0, 0.0;
    var peakBalance, maxDD, currentBalance := 0.0, 0.0, initialBalance;
    var wins, losses, buys, sells, totalHoldingBars := 0, 0, 0, 0, 0;
    var winRun, lossRun, maxWinRun, maxLossRun := 0, 0, 0, 0;
    for i := 0 to n
      invariant netProfit == Net(trades, i) && currentBalance == initialBalance + Net(trades, i)
      invariant totalWin == grossProfit == NetOf(trades, i, true)
      invariant totalLoss == -grossLoss == NetOf(trades, i, false)
      invariant wins == CountOf(trades, i, true) && losses == CountOf(trades, i, false)
      invariant buys == BuyCount(trades, i) && sells == i - buys
      invariant totalHoldingBars == Holding(trades, i)
      invariant winRun == CurrentRun(trades, i, true) && lossRun == CurrentRun(trades, i, false)
      invariant maxWinRun == LongestRun(trades, i, true) && maxLossRun == LongestRun(trades, i, false)
      invariant best == Best(trades, i) && worst == Worst(trades, i)
      invariant peakBalance == Peak(0.0, initialBalance, trades, i)
      invariant maxDD == Drawdown(0.0, initialBalance, trades, i)
    {
      var t := trades[i];
      currentBalance := currentBalance + t.realizedPnL;
      netProfit := netProfit + t.realizedPnL;
      if t.direction == Buy {
        buys := buys + 1;
      } else {
        sells := sells + 1;
      }
      totalHoldingBars := totalHoldingBars + t.holdingBars;
      if t.realizedPnL > 0.0 {
        wins := wins + 1;
        totalWin := totalWin + t.realizedPnL;
        grossProfit := grossProfit + t.realizedPnL;
        winRun, lossRun := winRun + 1, 0;
        if winRun > maxWinRun {
          maxWinRun := winRun;
        }
      } else {
        losses := losses + 1;
        totalLoss := totalLoss + t.realizedPnL;
        grossLoss := grossLoss + if t.realizedPnL < 0.0 then -t.realizedPnL else t.realizedPnL;
        winRun, lossRun := 0, lossRun + 1;
        if lossRun > maxLossRun {
          maxLossRun := lossRun;
        }
      }
      if t.realizedPnL > best {
        best := t.realizedPnL;
      }
      if t.realizedPnL < worst {
        worst := t.realizedPnL;
      }
      if currentBalance > peakBalance {
        peakBalance := currentBalance;
      }
      var dd := peakBalance - currentBalance;
      if dd > maxDD {
        maxDD := dd;
      }
    }
    var winRate, avgWin, avgLoss, profitFactor, totalReturnPct, maxDrawdownPct := 0.0, 0.0, 0.0, 0.0, 0.0, 0.0;
    winRate := wins as real / n as real * 100.0;
    if wins > 0 {
      avgWin := totalWin / wins as real;
    }
    if losses > 0 {
      avgLoss := totalLoss / losses as real;
    }
    if grossLoss != 0.0 {
      profitFactor := grossProfit / grossLoss;
    }
    if initialBalance != 0.0 {
      totalReturnPct := netProfit / initialBalance * 100.0;
    }
    if peakBalance != 0.0 {
      maxDrawdownPct := maxDD / peakBalance * 100.0;
    }
    m := Summary(
      n, wins, losses, winRate, netProfit, totalReturnPct, profitFactor, maxDrawdownPct, avgWin, avgLoss,
      netProfit / n as real, best, worst, Quotient(totalHoldingBars, n), buys, sells, currentBalance,
      maxWinRun, maxLossRun);
  }

  // ----- What the recursive quantities mean -----

  /** The recorded drawdown is the worst fall between two points of the curve, in time order. */
  lemma {:induction false} DrawdownIsWorstFall(base: real, initial: real, ts: seq<Trade>, n: nat)
    requires n <= |ts|
    ensures forall i, j :: 0 <= i <= j <= n ==>
      Mark(base, initial, ts, i) - Mark(base, initial, ts, j) <= Drawdown(base, initial, ts, n)
    ensures exists i, j ::
      0 <= i <= j <= n && Mark(base, initial, ts, i) - Mark(base, initial, ts, j) == Drawdown(base, initial, ts, n)
  {
    if n == 0 {
      assert Mark(base, initial, ts, 0) - Mark(base, initial, ts, 0) == Drawdown(base, initial, ts, 0);
    } else {
      DrawdownIsWorstFall(base, initial, ts, n - 1);
      PeakIsHighest(base, initial, ts, n);
      if Drawdown(base, initial, ts, n) == Drawdown(base, initial, ts, n - 1) {
        var i, j :| 0 <= i <= j <= n - 1 &&
          Mark(base, initial, ts, i) - Mark(base, initial, ts, j) == Drawdown(base, initial, ts, n - 1);
      } else {
        var i :| 0 <= i <= n && Mark(base, initial, ts, i) == Peak(base, initial, ts, n);
        assert Mark(base, initial, ts, i) - Mark(base, initial, ts, n) == Drawdown(base, initial, ts, n);
      }
    }
  }

  lemma {:induction false} PeakIsHighest(base: real, initial: real, ts: seq<Trade>, n: nat)
    requires n <= |ts|
    ensures forall i :: 0 <= i <= n ==> Mark(base, initial, ts, i) <= Peak(base, initial, ts, n)
    ensures exists i :: 0 <= i <= n && Mark(base, initial, ts, i) == Peak(base, initial, ts, n)
  {
    if n == 0 {
      assert Mark(base, initial, ts, 0) == Peak(base, initial, ts, 0);
    } else {
      PeakIsHighest(base, initial, ts, n - 1);
      assert Mark(base, initial, ts, n) <= Peak(base, initial, ts, n);
    }
  }

  /** All of `ts[from..to]` are wins, or all are not. */
  predicate Uniform(ts: seq<Trade>, from: nat, to: nat, win: bool)
    requires from <= to <= |ts|
  {
    forall i :: from <= i < to ==> IsWin(ts[i]) == win
  }

  lemma {:induction false} CurrentRunIsSuffix(ts: seq<Trade>, n: nat, win: bool)
    requires n <= |ts|
    ensures CurrentRun(ts, n, win) <= n && Uniform(ts, n - CurrentRun(ts, n, win), n, win)
    ensures forall from :: 0 <= from <= n && Uniform(ts, from, n, win) ==> n - from <= CurrentRun(ts, n, win)
  {
    if n > 0 {
      CurrentRunIsSuffix(ts, n - 1, win);
      forall from | 0 <= from <= n && Uniform(ts, from, n, win)
        ensures n - from <= CurrentRun(ts, n, win)
      {
        if from < n {
          assert IsWin(ts[n - 1]) == win;
          assert Uniform(ts, from, n - 1, win);
        }
      }
    }
  }

  /** The streak counters hold the longest stretch of wins (or of non-wins) anywhere in the list. */
  lemma {:induction false} LongestRunIsLongest(ts: seq<Trade>, n: nat, win: bool)
    requires n <= |ts|
    ensures exists from, to :: 0 <= from <= to <= n && Uniform(ts, from, to, win) && to - from == LongestRun(ts, n, win)
    ensures forall from, to :: 0 <= from <= to <= n && Uniform(ts, from, to, win) ==> to - from <= LongestRun(ts, n, win)
  {
    if n == 0 {
      assert Uniform(ts, 0, 0, win);
    } else {
      LongestRunIsLongest(ts, n - 1, win);
      CurrentRunIsSuffix(ts, n, win);
      if LongestRun(ts, n, win) != LongestRun(ts, n - 1, win) {
        assert Uniform(ts, n - CurrentRun(ts, n, win), n, win);
      }
    }
  }

  /** Wins and losses partition the trades and their profit. */
  lemma {:induction false} WinsAndLossesPartition(ts: seq<Trade>, n: nat)
    requires n <= |ts|
    ensures CountOf(ts, n, true) + CountOf(ts, n, false) == n
    ensures NetOf(ts, n, true) + NetOf(ts, n, false) == Net(ts, n)
    ensures CountOf(ts, n, true) == 0 ==> NetOf(ts, n, true) == 0.0
    ensures CountOf(ts, n, false) == 0 ==> NetOf(ts, n, false) == 0.0
    ensures NetOf(ts, n, true) >= 0.0 && NetOf(ts, n, false) <= 0.0
  {
    if n > 0 {
      WinsAndLossesPartition(ts, n - 1);
    }
  }

  /** The reported averages recover the reported profit exactly. */
  lemma {:induction false} AveragesRecoverProfit(m: Summary, ts: seq<Trade>, initial: real)
    requires Summarizes(m, ts, initial)
    ensures m.wins + m.losses == m.totalTrades
    ensures m.netProfit == Reals.Times(m.wins as real, m.avgWin) + Reals.Times(m.losses as real, m.avgLoss)
    ensures m.netProfit == Reals.Times(m.totalTrades as real, m.expectancy)
    ensures m.avgWin >= 0.0 && m.avgLoss <= 0.0 && 0.0 <= m.winRate <= 100.0
  {
    WinsAndLossesPartition(ts, |ts|);
    AverageTimesCount(m.avgWin, NetOf(ts, |ts|, true), m.wins);
    AverageTimesCount(m.avgLoss, NetOf(ts, |ts|, false), m.losses);
    AverageTimesCount(m.expectancy, Net(ts, |ts|), m.totalTrades);
    ShareBounds(m.winRate, m.wins, m.totalTrades);
  }

  lemma {:induction false} AverageTimesCount(average: real, x: real, k: int)
    requires average == Ratio(x, k as real)
    requires k >= 0 && (k == 0 ==> x == 0.0)
    ensures Reals.Times(k as real, average) == x
    ensures x >= 0.0 ==> average >= 0.0
    ensures x <= 0.0 ==> average <= 0.0
  {
    if k > 0 {
      Reals.Quotient(x, k as real);
      Reals.Quotient(-x, k as real);
      assert -x / k as real == -(x / k as real);
    }
  }

  lemma {:induction false} ShareBounds(share: real, k: int, n: int)
    requires 0 <= k <= n && share == Percent(k as real, n as real)
    ensures 0.0 <= share <= 100.0
  {
    if n > 0 {
      Reals.Quotient(k as real, n as real);
    }
  }

  /** The win counter is the number of trades with a profit, the loss counter that of all others. */
  lemma {:induction false} CountIsSize(ts: seq<Trade>, n: nat, win: bool)
    requires n <= |ts|
    ensures CountOf(ts, n, win) == |set i: nat | i < n && (ts[i].realizedPnL > 0.0) == win|
  {
    var all := set i: nat | i < n && (ts[i].realizedPnL > 0.0) == win;
    if n > 0 {
      CountIsSize(ts, n - 1, win);
      var before := set i: nat | i < n - 1 && (ts[i].realizedPnL > 0.0) == win;
      SetGrows(all, before, n - 1, (ts[n - 1].realizedPnL > 0.0) == win);
    } else {
      assert all == {};
    }
  }

  lemma {:induction false} BuyCountIsSize(ts: seq<Trade>, n: nat)
    requires n <= |ts|
    ensures BuyCount(ts, n) == |set i: nat | i < n && ts[i].direction == Buy|
  {
    var all := set i: nat | i < n && ts[i].direction == Buy;
    if n > 0 {
      BuyCountIsSize(ts, n - 1);
      var before := set i: nat | i < n - 1 && ts[i].direction == Buy;
      SetGrows(all, before, n - 1, ts[n - 1].direction == Buy);
    } else {
      assert all == {};
    }
  }

  /** The best trade is the largest profit and the worst the largest loss, or zero if there is none. */
  lemma {:induction false} ExtremesAreAttained(ts: seq<Trade>, n: nat)
    requires n <= |ts|
    ensures Best(ts, n) >= 0.0 >= Worst(ts, n)
    ensures forall i :: 0 <= i < n ==> Worst(ts, n) <= ts[i].realizedPnL <= Best(ts, n)
    ensures Best(ts, n) == 0.0 || exists i :: 0 <= i < n && ts[i].realizedPnL == Best(ts, n)
    ensures Worst(ts, n) == 0.0 || exists i :: 0 <= i < n && ts[i].realizedPnL == Worst(ts, n)
  {
    if n > 0 {
      ExtremesAreAttained(ts, n - 1);
    }
  }

  /** The reported ratios recover what they are ratios of. */
  lemma {:induction false} RatiosRecover(m: Summary, ts: seq<Trade>, initial: real)
    requires Summarizes(m, ts, initial)
    ensures Reals.Times(m.totalTrades as real, m.winRate) == 100.0 * m.wins as real
    ensures initial != 0.0 ==> Reals.Times(initial, m.totalReturnPct) == 100.0 * (m.finalBalance - initial)
    ensures NetOf(ts, |ts|, false) != 0.0 ==> Reals.Times(-NetOf(ts, |ts|, false), m.profitFactor) == NetOf(ts, |ts|, true)
    ensures m.totalTrades > 0 && Holding(ts, |ts|) >= 0 ==>
      m.avgHoldingBars * m.totalTrades <= Holding(ts, |ts|) < (m.avgHoldingBars + 1) * m.totalTrades
  {
    WinsAndLossesPartition(ts, |ts|);
    PercentRecovers(m.wins as real, m.totalTrades as real);
    PercentRecovers(Net(ts, |ts|), initial);
    RatioRecovers(NetOf(ts, |ts|, true), -NetOf(ts, |ts|, false));
    if m.totalTrades > 0 && Holding(ts, |ts|) >= 0 {
      QuotientRecovers(Holding(ts, |ts|), |ts|);
    }
  }

  lemma {:induction false} QuotientRecovers(h: nat, n: nat)
    requires n > 0
    ensures Quotient(h, n) * n <= h < (Quotient(h, n) + 1) * n
  {
    assert h == n * (h / n) + h % n;
  }

  lemma {:induction false} PercentRecovers(part: real, whole: real)
    ensures whole != 0.0 ==> Reals.Times(whole, Percent(part, whole)) == 100.0 * part
    ensures whole == 0.0 ==> Reals.Times(whole, Percent(part, whole)) == 0.0
  {
    if whole != 0.0 {
      var q := part / whole;
      assert q * whole == part;
    }
  }

  lemma {:induction false} RatioRecovers(part: real, whole: real)
    ensures whole != 0.0 ==> Reals.Times(whole, Ratio(part, whole)) == part
  {
    if whole != 0.0 {
      var q := part / whole;
      assert q * whole == part;
    }
  }

  /** The code's curve starts at zero, not at the initial balance. With a non-negative initial balance the
      drawdown from the initial balance is the recorded one or the fall below the start, whichever is larger. */
  lemma {:induction false} DrawdownFromTheStart(initial: real, ts: seq<Trade>, n: nat)
    requires n <= |ts| && initial >= 0.0
    ensures Drawdown(initial, initial, ts, n) == Max(Drawdown(0.0, initial, ts, n), initial - Lowest(initial, ts, n))
    ensures Peak(initial, initial, ts, n) == Max(Peak(0.0, initial, ts, n), initial)
  {
    if n > 0 {
      DrawdownFromTheStart(initial, ts, n - 1);
    }
  }

  /** So the recorded drawdown is the true one exactly when the curve somewhere falls at least as far as the account
      ever sank below its start. */
  lemma {:induction false} DrawdownExact(initial: real, ts: seq<Trade>)
    requires initial >= 0.0
    ensures Drawdown(0.0, initial, ts, |ts|) == Drawdown(initial, initial, ts, |ts|) <==>
            exists i, j :: 0 <= i <= j <= |ts|
              && Mark(0.0, initial, ts, i) - Mark(0.0, initial, ts, j) >= initial - Lowest(initial, ts, |ts|)
  {
    DrawdownFromTheStart(initial, ts, |ts|);
    DrawdownIsWorstFall(0.0, initial, ts, |ts|);
  }

  // ----- The reported percentage -----

  /** What the report says, and what it would say of the curve that starts at the initial balance. */
  function ReportedPct(initial: real, ts: seq<Trade>): real {
    Percent(Drawdown(0.0, initial, ts, |ts|), Peak(0.0, initial, ts, |ts|))
  }

  function TruePct(initial: real, ts: seq<Trade>): real {
    Percent(Drawdown(initial, initial, ts, |ts|), Peak(initial, initial, ts, |ts|))
  }

  function Fall(initial: real, ts: seq<Trade>, i: nat, j: nat): real
    requires i <= |ts| && j <= |ts|
  {
    Mark(0.0, initial, ts, i) - Mark(0.0, initial, ts, j)
  }

  /** The curve somewhere falls by at least `d`. */
  ghost predicate FallsBy(initial: real, ts: seq<Trade>, d: real) {
    exists i, j :: 0 <= i <= j <= |ts| && Fall(initial, ts, i, j) >= d
  }

  /** `d` is the largest fall of the curve. */
  ghost predicate LargestFall(initial: real, ts: seq<Trade>, d: real) {
    FallsBy(initial, ts, d) && forall i, j :: 0 <= i <= j <= |ts| ==> Fall(initial, ts, i, j) <= d
  }

  /** After some trade the account stands at its start or above. */
  ghost predicate BackAtStart(initial: real, ts: seq<Trade>) {
    exists k :: 1 <= k <= |ts| && Mark(0.0, initial, ts, k) >= initial
  }

  lemma {:induction false} DrawdownByFalls(initial: real, ts: seq<Trade>, d: real)
    ensures Drawdown(0.0, initial, ts, |ts|) >= d <==> FallsBy(initial, ts, d)
    ensures Drawdown(0.0, initial, ts, |ts|) == d <==> LargestFall(initial, ts, d)
  {
    DrawdownIsWorstFall(0.0, initial, ts, |ts|);
    var i, j :| 0 <= i <= j <= |ts| && Mark(0.0, initial, ts, i) - Mark(0.0, initial, ts, j) == Drawdown(0.0, initial, ts, |ts|);
    assert Fall(initial, ts, i, j) == Drawdown(0.0, initial, ts, |ts|);
  }

  lemma {:induction false} PeakByMarks(initial: real, ts: seq<Trade>)
    requires initial > 0.0
    ensures Peak(0.0, initial, ts, |ts|) >= initial <==> BackAtStart(initial, ts)
  {
    PeakIsHighest(0.0, initial, ts, |ts|);
  }

  /** Once there has been a trade, no fall reaches below the lowest balance. */
  lemma {:induction false} DrawdownWithin(initial: real, ts: seq<Trade>, n: nat)
    requires 0 < n <= |ts|
    ensures Drawdown(0.0, initial, ts, n) <= Peak(0.0, initial, ts, n) - Lowest(initial, ts, n)
    ensures Lowest(initial, ts, n) <= initial
  {
    if n > 1 {
      DrawdownWithin(initial, ts, n - 1);
    } else {
      assert Drawdown(0.0, initial, ts, 0) == 0.0 == Peak(0.0, initial, ts, 0);
      assert Lowest(initial, ts, 0) == initial;
    }
  }

  lemma {:induction false} SamePctExactlyWhen(d: real, d': real, p: real)
    requires p > 0.0
    ensures Percent(d, p) == Percent(d', p) <==> d == d'
  {
    var q, q' := d / p, d' / p;
    assert q * p == d && q' * p == d';
  }

  /** The part of `q` that `d` is of `p`. */
  function Proportional(d: real, p: real, q: real): real
    requires p > 0.0
  {
    q * d / p
  }

  lemma {:induction false} PctAcrossPeaks(d: real, p: real, d': real, p': real)
    requires p > 0.0 && p' > 0.0
    ensures Percent(d, p) == Percent(d', p') <==> d == Proportional(d', p', p)
  {
    var q, q' := d / p, d' / p';
    assert q * p == d && q' * p' == d';
    ScaledShare(p, d', p');
    SamePctExactlyWhen(d, p * q', p);
    assert Percent(p * q', p) == Percent(d', p') by {
      Reals.QuotientIs(p * q', p, q');
    }
  }

  lemma {:induction false} ScaledShare(p: real, d: real, p': real)
    requires p' > 0.0
    ensures p * d / p' == p * (d / p')
  {
    var q := d / p';
    assert q * p' == d;
    Reals.QuotientIs(p * d, p', p * q);
  }

  /** The reported percentage is the true one exactly in these cases. If the account was back at its start after some
      trade (or never traded), when the curve falls as far as the account ever sank below its start. Otherwise, when
      the best balance after a trade is positive and the largest fall is the same share of it as the deepest loss is
      of the start. */
  lemma {:induction false} ReportedExactlyWhen(initial: real, ts: seq<Trade>)
    requires initial > 0.0
    ensures var loss, best := initial - Lowest(initial, ts, |ts|), Peak(0.0, initial, ts, |ts|);
      ReportedPct(initial, ts) == TruePct(initial, ts) <==>
        if ts == [] || BackAtStart(initial, ts) then FallsBy(initial, ts, loss)
        else best > 0.0 && LargestFall(initial, ts, Proportional(loss, initial, best))
  {
    var n := |ts|;
    var d, best, loss := Drawdown(0.0, initial, ts, n), Peak(0.0, initial, ts, n), initial - Lowest(initial, ts, n);
    DrawdownFromTheStart(initial, ts, n);
    DrawdownByFalls(initial, ts, loss);
    PeakByMarks(initial, ts);
    PeakIsHighest(0.0, initial, ts, n);
    if ts == [] {
      assert Mark(0.0, initial, ts, 0) == 0.0;
      SamePctExactlyWhen(0.0, loss, initial);
    } else if best >= initial {
      SamePctExactlyWhen(d, Max(d, loss), best);
    } else {
      DrawdownWithin(initial, ts, n);
      DrawdownByFalls(initial, ts, Proportional(loss, initial, best));
      assert Mark(0.0, initial, ts, 0) == 0.0;
      LowPeak(d, best, loss, initial);
    }
  }

  /** Below a peak of `initial` the deepest loss is the true drawdown; how the reported one compares. */
  lemma {:induction false} LowPeak(d: real, best: real, loss: real, initial: real)
    requires 0.0 <= best < initial && d < loss && 0.0 < loss
    ensures Percent(d, best) == Percent(Max(d, loss), Max(best, initial))
            <==> best > 0.0 && d == Proportional(loss, initial, best)
  {
    if best > 0.0 {
      PctAcrossPeaks(d, best, loss, initial);
    } else {
      SamePctExactlyWhen(0.0, loss, initial);
      assert Percent(0.0, initial) == 0.0;
    }
  }

  /** For an account that never reaches zero only the first case counts: the reported percentage is the true one
      exactly when the curve somewhere falls as far as the account ever sank below its start. */
  lemma {:induction false} SolventReportExactlyWhen(initial: real, ts: seq<Trade>)
    requires Lowest(initial, ts, |ts|) > 0.0
    ensures ReportedPct(initial, ts) == TruePct(initial, ts) <==> FallsBy(initial, ts, initial - Lowest(initial, ts, |ts|))
  {
    var n := |ts|;
    var best, low := Peak(0.0, initial, ts, n), Lowest(initial, ts, n);
    LowestBelowStart(initial, ts, n);
    ReportedExactlyWhen(initial, ts);
    PeakByMarks(initial, ts);
    if ts != [] && best < initial {
      DrawdownWithin(initial, ts, n);
      DrawdownByFalls(initial, ts, 0.0);
      assert Fall(initial, ts, 0, 0) >= 0.0;
      DrawdownByFalls(initial, ts, initial - low);
      DrawdownByFalls(initial, ts, Proportional(initial - low, initial, best));
      ShareTooLarge(best, low, initial);
    }
  }

  lemma {:induction false} LowestBelowStart(initial: real, ts: seq<Trade>, n: nat)
    requires n <= |ts|
    ensures Lowest(initial, ts, n) <= initial
  {
    if n > 0 {
      LowestBelowStart(initial, ts, n - 1);
    }
  }

  lemma {:induction false} ShareTooLarge(best: real, low: real, initial: real)
    requires 0.0 < low <= best < initial
    ensures Proportional(initial - low, initial, best) > best - low
  {
    var q := best / initial;
    assert q * initial == best;
    Reals.ScaleOrder(initial, q, 1.0);
    assert q < 1.0;
    Reals.ScaleOrder(low, q, 1.0);
    ScaledShare(initial - low, best, initial);
    assert best * (initial - low) == (initial - low) * best;
    assert (initial - low) * q == best - low * q;
  }

  /** Ruin hides the difference: from 100 two losses of 50 report 100%, which is true, though the curve never falls
      by the 100 the account sank. */
  lemma {:induction false} RuinWitness(ts: seq<Trade>)
    requires |ts| == 2 && ts[0].realizedPnL == -50.0 && ts[1].realizedPnL == -50.0
    ensures ReportedPct(100.0, ts) == 100.0 == TruePct(100.0, ts) && !FallsBy(100.0, ts, 100.0)
  {
    assert Net(ts, 0) == 0.0 && Net(ts, 1) == -50.0 && Net(ts, 2) == -100.0;
    assert Peak(0.0, 100.0, ts, 0) == 0.0 && Peak(0.0, 100.0, ts, 1) == 50.0 == Peak(0.0, 100.0, ts, 2);
    assert Drawdown(0.0, 100.0, ts, 0) == 0.0 == Drawdown(0.0, 100.0, ts, 1);
    assert Peak(100.0, 100.0, ts, 0) == 100.0 == Peak(100.0, 100.0, ts, 1);
    assert Drawdown(100.0, 100.0, ts, 0) == 0.0 && Drawdown(100.0, 100.0, ts, 1) == 50.0;
    DrawdownByFalls(100.0, ts, 100.0);
  }

  /** An account of 10000 that loses 100 in its only trade reports a drawdown of 0% where 1% is true. */
  lemma {:induction false} FirstLossUnreported(t: Trade)
    requires t.realizedPnL == -100.0
    ensures Drawdown(0.0, 10000.0, [t], 1) == 0.0 && Drawdown(10000.0, 10000.0, [t], 1) == 100.0
    ensures ReportedPct(10000.0, [t]) == 0.0 && TruePct(10000.0, [t]) == 1.0
  {
    assert Net([t], 1) == Net([t], 0) + [t][0].realizedPnL;
    assert Mark(0.0, 10000.0, [t], 1) == 9900.0 == Mark(10000.0, 10000.0, [t], 1);
    assert Peak(0.0, 10000.0, [t], 0) == 0.0 && Peak(10000.0, 10000.0, [t], 0) == 10000.0;
    assert Drawdown(0.0, 10000.0, [t], 0) == 0.0 == Drawdown(10000.0, 10000.0, [t], 0);
  }
}
