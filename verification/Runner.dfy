/** The backtest runner: drives the tracker over the bars and summarises the outcome. */
module Runner {
  import opened Options
  import opened Durations
  import opened BacktestTypes
  import opened Ledger
  import opened TradeTracker
  import opened Engine
  import opened Metrics
  import Reals

  datatype Status = Completed | NoData | Cancelled

  datatype Result = Result(status: Status, counters: Counters, trades: seq<Trade>, metrics: Option<Summary>)

  class BacktestRunner {
    const config: Config
    const tracker: Tracker
    var cooldownUntil: int
    ghost var openings: seq<Opening>

    constructor (config: Config)
      ensures this.config == config && fresh(tracker) && tracker.openPositions == []
      ensures Valid() && View(NewState(config).counters) == NewState(config)
    {
      this.config := config;
      tracker := new Tracker(config);
      cooldownUntil, openings := 0, [];
    }

    ghost predicate Valid()
      reads this, tracker, tracker.openPositions
    {
      tracker.Valid() && tracker.config == config
    }

    ghost function View(counters: Counters): State
      reads this, tracker
    {
      State(tracker.book, cooldownUntil, counters, openings)
    }

    /** Whether the live engine would have promoted this read; non-directional reads always pass. */
    method ParityGate(bar: Bar) returns (ok: bool)
      ensures ok <==> !Directional(bar.signal) || Promotable(cooldownUntil, bar)
    {
      if bar.signal.direction != Buy && bar.signal.direction != Sell {
        return true;
      }
      if cooldownUntil != 0 && bar.candle.time < cooldownUntil {
        return false;
      }
      if bar.tradeThreshold.Some? && bar.signal.rawScore < bar.tradeThreshold.value {
        return false;
      }
      if !bar.signal.entryGatePassed {
        return false;
      }
      return !bar.signal.isLossCandidate;
    }

    method PositionSize(entry: real, stop: real) returns (size: real)
      requires stop != 0.0
      ensures size == Size(RiskAmount(config, tracker.balance, tracker.recoverySizeMult), RiskPerUnit(config, entry, stop))
    {
      var riskAmount := tracker.balance * config.maxRiskPerTrade;
      riskAmount := riskAmount * tracker.recoverySizeMult;
      assert riskAmount == RiskAmount(config, tracker.balance, tracker.recoverySizeMult);
      var riskPerUnit := 0.0;
      if stop != 0.0 {
        riskPerUnit := Reals.Abs(entry - stop) * config.contractSize;
      }
      assert riskPerUnit == RiskPerUnit(config, entry, stop);
      size := MIN_LOT;
      if riskPerUnit != 0.0 {
        size := riskAmount / riskPerUnit;
      }
      ghost var raw := size;
      if size < MIN_LOT {
        size := MIN_LOT;
      }
      if size > MAX_LOT {
        size := MAX_LOT;
      }
      assert size == if raw < MIN_LOT then MIN_LOT else if raw > MAX_LOT then MAX_LOT else raw;
      assert size == Size(riskAmount, riskPerUnit);
    }

    method DoOpenTrade(bar: Bar, barIdx: int, ghost counters: Counters) returns (pos: Option<OpenPosition>)
      requires Valid()
      modifies this, tracker
      ensures Valid() && View(counters) == OpenTrade(config, old(View(counters)), bar, barIdx)
      ensures match pos
              case Some(p) => fresh(p) && tracker.openPositions == old(tracker.openPositions) + [p]
              case None => tracker.openPositions == old(tracker.openPositions)
    {
      var s := bar.signal;
      pos := None;
      if s.stopLoss == 0.0 || s.tp1 == 0.0 {
        return;
      }
      if s.entryPrice == 0.0 {
        return;
      }
      var size := PositionSize(s.entryPrice, s.stopLoss);
      var plan := Plan(bar.tradeID, s.direction, s.entryPrice, s.stopLoss, s.tp1, s.tp2, s.tp3, bar.candle.time, barIdx, size);
      ghost var before := View(counters);
      assert plan == PlanFor(config, before.book, bar, barIdx);
      var p := Enlist(plan, s, bar.candle.time);
      pos := Some(p);
    }

    /** Create the position, start its cooldown and hand it to the tracker. */
    method Enlist(plan: Plan, s: StrategyResult, now: int) returns (p: OpenPosition)
      requires Valid()
      modifies this, tracker
      ensures Valid() && fresh(p) && tracker.openPositions == old(tracker.openPositions) + [p]
      ensures var pos := FreshPosition(plan, old(tracker.book).balance);
        && tracker.book == old(tracker.book).(open := old(tracker.book).open + [pos])
        && openings == old(openings) + [Opening(pos, CooldownOf(s))]
      ensures cooldownUntil == if CooldownOf(s) > 0 then now + CooldownOf(s) else old(cooldownUntil)
    {
      p := new OpenPosition(plan, tracker.balance);
      assert p.Snapshot() == FreshPosition(plan, tracker.book.balance);
      if s.cooldownMinutes > 0 {
        cooldownUntil := now + s.cooldownMinutes * NANOS_PER_MINUTE;
      }
      openings := openings + [Opening(p.Snapshot(), CooldownOf(s))];
      tracker.Open(p);
    }

    /** Rollover and position checks for one ready bar. */
    method DoSettle(bar: Bar, barIdx: int, ghost counters: Counters)
      requires Valid()
      modifies tracker, tracker.openPositions
      ensures Valid() && View(counters) == Settled(config, old(View(counters)), bar, barIdx)
      ensures forall p :: p in tracker.openPositions ==> p in old(tracker.openPositions)
    {
      tracker.CheckDayRollover(bar.candle.time);
      var closed := tracker.UpdatePositions(bar.candle, barIdx);
    }

    /** The checks before an entry, in order: loss limit, position count, promotion. */
    method Gate(bar: Bar) returns (verdict: Verdict)
      requires Valid()
      ensures verdict == Engine.Gate(config, tracker.book, cooldownUntil, bar)
    {
      var pct := tracker.DailyLoss();
      if pct <= -config.maxDailyLossPct {
        return AtLimit;
      }
      if |tracker.openPositions| >= config.maxPositions {
        return AtLimit;
      }
      if config.productionParity {
        var ok := ParityGate(bar);
        if !ok {
          return NotPromotable;
        }
      }
      return Clear;
    }

    /** The entry decision of one bar inside the backtest period. */
    method DoDecide(bar: Bar, barIdx: int, counters: Counters) returns (c: Counters)
      requires Valid()
      modifies this, tracker
      ensures Valid() && View(c) == Decide(config, old(View(counters)), bar, barIdx)
      ensures forall p :: p in tracker.openPositions ==> p in old(tracker.openPositions) || fresh(p)
    {
      c := counters.(barsProcessed := counters.barsProcessed + 1);
      var verdict := Gate(bar);
      match verdict {
        case AtLimit => c := c.(blocked := c.blocked + 1);
        case NotPromotable => c := c.(parityBlocked := c.parityBlocked + 1);
        case Clear => c := DoEnter(bar, barIdx, c);
      }
    }

    /** The switch on the signal's direction. */
    method DoEnter(bar: Bar, barIdx: int, counters: Counters) returns (c: Counters)
      requires Valid()
      modifies this, tracker
      ensures Valid() && View(c) == Enter(config, old(View(counters)), bar, barIdx)
      ensures forall p :: p in tracker.openPositions ==> p in old(tracker.openPositions) || fresh(p)
    {
      c := counters;
      match bar.signal.direction {
        case Buy =>
          c := c.(buySignals := c.buySignals + 1);
          var _ := DoOpenTrade(bar, barIdx, c);
        case Sell =>
          c := c.(sellSignals := c.sellSignals + 1);
          var _ := DoOpenTrade(bar, barIdx, c);
        case NoTrade => c := c.(noTrade := c.noTrade + 1);
        case Blocked => c := c.(blocked := c.blocked + 1);
        case Wait => c := c.(noTrade := c.noTrade + 1);
        case Other(_) =>
      }
    }

    method DoStep(bar: Bar, barIdx: nat, start: nat, counters: Counters) returns (c: Counters)
      requires Valid()
      modifies this, tracker, tracker.openPositions
      ensures Valid() && View(c) == Step(config, start, old(View(counters)), bar, barIdx)
      ensures forall p :: p in tracker.openPositions ==> p in old(tracker.openPositions) || fresh(p)
    {
      c := counters;
      if !bar.ready {
        return;
      }
      DoSettle(bar, barIdx, counters);
      if barIdx < start {
        return;
      }
      c := DoDecide(bar, barIdx, counters);
    }

    /** Bar `k` of the loop; `owned` holds every position the run has created so far. */
    method Advance(bars: seq<Bar>, k: nat, start: nat, counters: Counters, ghost owned: set<OpenPosition>)
      returns (c: Counters, ghost owned': set<OpenPosition>)
      requires Valid() && k < |bars| && View(counters) == After(config, start, bars, k)
      requires forall p :: p in tracker.openPositions ==> p in owned
      modifies this, tracker, owned
      ensures Valid() && View(c) == After(config, start, bars, k + 1)
      ensures fresh(owned' - owned) && forall p :: p in tracker.openPositions ==> p in owned'
    {
      assert forall j :: 0 <= j < |tracker.openPositions| ==> tracker.openPositions[j] in tracker.openPositions;
      c := DoStep(bars[k], k, start, counters);
      owned' := owned + set p | p in tracker.openPositions;
    }

    method FindStart(bars: seq<Bar>) returns (start: nat)
      ensures IsStart(bars, config.startTime, start)
    {
      start := 0;
      for i := 0 to |bars|
        invariant start == 0 && forall j :: 0 <= j < i ==> bars[j].candle.time < config.startTime
      {
        if bars[i].candle.time >= config.startTime {
          return i;
        }
      }
    }

    /** The whole run. A cancelled run keeps what the tracker has done but reports no trades. */
    method Run(bars: seq<Bar>) returns (result: Result, ghost start: nat, ghost reached: nat)
      requires Valid() && tracker.openPositions == []
      requires View(NewState(config).counters) == NewState(config)
      modifies this, tracker
      ensures Valid() && IsStart(bars, config.startTime, start)
      ensures reached <= |bars| && forall k :: 0 <= k < reached ==> !bars[k].cancelled
      ensures reached < |bars| ==> bars[reached].cancelled
      ensures result.status == if bars == [] then NoData else if reached < |bars| then Cancelled else Completed
      ensures result.status != Completed ==> View(result.counters) == After(config, start, bars, reached)
      ensures result.status == Completed ==> Finished(bars, After(config, start, bars, |bars|), result)
    {
      reached, start := 0, 0;
      var counters := NewState(config).counters;
      if bars == [] {
        result := Result(NoData, counters, [], None);
      } else {
        var first := FindStart(bars);
        var last;
        last, counters := Loop(bars, first);
        start, reached := first, last;
        InterruptionIsFirst(bars, 0);
        if last < |bars| {
          result := Result(Cancelled, counters, [], None);
        } else {
          result := Conclude(bars, counters);
        }
      }
    }

    /** How a completed run ends, given the state `s` after its last bar. */
    ghost predicate Finished(bars: seq<Bar>, s: State, result: Result)
      requires |bars| > 0
      reads this, tracker
    {
      && result.status == Completed
      && result.counters == s.counters && openings == s.openings
      && tracker.book == Closing(config, s.book, bars)
      && TradesAre(result.trades, tracker.book.exits)
      && result.metrics.Some? && Summarizes(result.metrics.value, result.trades, config.initialBalance)
    }

    method Conclude(bars: seq<Bar>, counters: Counters) returns (result: Result)
      requires Valid() && |bars| > 0
      modifies tracker
      ensures Valid() && Finished(bars, old(View(counters)), result)
    {
      if |tracker.openPositions| > 0 {
        var closed := tracker.CloseAllPositions(bars[|bars| - 1].candle, |bars| - 1);
      }
      var m := ComputeMetrics(tracker.closedTrades, config.initialBalance);
      result := Result(Completed, counters, tracker.closedTrades, Some(m));
    }

    /** The event loop; it stops early only when the context is cancelled. */
    method Loop(bars: seq<Bar>, start: nat) returns (reached: nat, counters: Counters)
      requires Valid() && tracker.openPositions == []
      requires View(Counters(0, 0, 0, 0, 0, 0)) == After(config, start, bars, 0)
      modifies this, tracker
      ensures Valid() && reached == Interruption(bars, 0) <= |bars|
      ensures View(counters) == After(config, start, bars, reached)
    {
      reached, counters := 0, NewState(config).counters;
      ghost var owned: set<OpenPosition> := {};
      while reached < |bars| && !bars[reached].cancelled
        invariant reached <= |bars| && Valid() && View(counters) == After(config, start, bars, reached)
        invariant fresh(owned) && forall p :: p in tracker.openPositions ==> p in owned
        invariant Interruption(bars, reached) == Interruption(bars, 0)
      {
        counters, owned := Advance(bars, reached, start, counters, owned);
        reached := reached + 1;
      }
    }
  }
}
