/** The trade tracker: open positions are objects whose stops move in place. */
module TradeTracker {
  import opened Options
  import opened Durations
  import opened BacktestTypes
  import opened Ledger

  class OpenPosition {
    const plan: Plan
    ghost const balanceAtOpen: real
    var stopLoss: real
    var tp1Hit: bool
    var tp2Hit: bool
    var tp3Hit: bool
    var breakEvenSet: bool

    ghost function Snapshot(): Position
      reads this
    {
      Position(plan, balanceAtOpen, stopLoss, tp1Hit, tp2Hit, tp3Hit, breakEvenSet)
    }

    constructor (plan: Plan, ghost balanceAtOpen: real)
      ensures Snapshot() == Position(plan, balanceAtOpen, plan.originalSL, false, false, false, false)
    {
      this.plan := plan;
      this.balanceAtOpen := balanceAtOpen;
      stopLoss := plan.originalSL;
      tp1Hit, tp2Hit, tp3Hit, breakEvenSet := false, false, false, false;
    }
  }

  ghost function Snapshots(ps: seq<OpenPosition>): (ss: seq<Position>)
    reads ps
    ensures |ss| == |ps| && forall i :: 0 <= i < |ps| ==> ss[i] == ps[i].Snapshot()
  {
    seq(|ps|, i requires 0 <= i < |ps| reads ps => ps[i].Snapshot())
  }

  ghost predicate Distinct(ps: seq<OpenPosition>) {
    forall i, j :: 0 <= i < j < |ps| ==> ps[i] != ps[j]
  }

  /** `kept` holds some of the first `i` positions, each once. */
  ghost predicate Gathered(positions: seq<OpenPosition>, i: nat, kept: seq<OpenPosition>) {
    && Distinct(kept)
    && (forall p :: p in kept ==> p in positions)
    && forall j :: i <= j < |positions| ==> positions[j] !in kept
  }

  lemma {:induction false} GatherNext(positions: seq<OpenPosition>, i: nat, kept: seq<OpenPosition>)
    requires Distinct(positions) && i < |positions| && Gathered(positions, i, kept)
    ensures Gathered(positions, i + 1, kept) && Gathered(positions, i + 1, kept + [positions[i]])
  {
  }

  lemma {:induction false} SnapshotsAppend(ps: seq<OpenPosition>, p: OpenPosition)
    ensures Snapshots(ps + [p]) == Snapshots(ps) + [p.Snapshot()]
  {
  }

  class Tracker {
    const config: Config
    var openPositions: seq<OpenPosition>
    var closedTrades: seq<Trade>
    var balance: real
    var consecutiveLosses: int
    var dailyPnL: real
    var currentDay: int
    var recoveryMode: bool
    var recoverySizeMult: real
    ghost var exits: seq<Exit>
    ghost var book: Book   // the tracker's abstract state, up to date between calls

    ghost predicate Sound()
      reads this
    {
      Distinct(openPositions) && TradesAre(closedTrades, exits)
    }

    ghost predicate Valid()
      reads this, openPositions
    {
      Sound() && book == View()
    }

    ghost function View(): Book
      reads this, openPositions
    {
      Book(Snapshots(openPositions), exits, balance, dailyPnL, currentDay,
           consecutiveLosses, recoveryMode, recoverySizeMult)
    }

    constructor (config: Config)
      ensures Valid() && book == NewBook(config) && this.config == config && openPositions == []
    {
      this.config := config;
      openPositions, closedTrades, exits := [], [], [];
      balance, dailyPnL := config.initialBalance, 0.0;
      currentDay, consecutiveLosses := 0, 0;
      recoveryMode, recoverySizeMult := false, 1.0;
      book := NewBook(config);
    }

    method Open(pos: OpenPosition)
      requires Valid() && pos !in openPositions
      modifies this
      ensures Valid() && openPositions == old(openPositions) + [pos]
      ensures book == old(book).(open := old(book).open + [pos.Snapshot()])
    {
      openPositions := openPositions + [pos];
      SnapshotsAppend(old(openPositions), pos);
      book := View();
    }

    method DailyLoss() returns (pct: real)
      ensures pct == DailyLossPct(config, dailyPnL)
    {
      if config.initialBalance == 0.0 {
        return 0.0;
      }
      pct := dailyPnL / config.initialBalance * 100.0;
    }

    method CheckDayRollover(now: int)
      requires Valid()
      modifies this
      ensures Valid() && openPositions == old(openPositions)
      ensures book == Rollover(old(book), now)
    {
      var day := now - now % NANOS_PER_DAY;
      if currentDay == 0 {
        currentDay := day;
      } else if day != currentDay {
        currentDay := day;
        dailyPnL := 0.0;
      }
      book := View();
    }

    /** Which of its levels the candle reaches. The target flag it sets belongs to a position that is leaving. */
    method Probe(pos: OpenPosition, c: Candle) returns (quote: Option<Quote>)
      modifies pos
      ensures quote == QuoteFor(config, old(pos.Snapshot()), c)
      ensures pos.stopLoss == old(pos.stopLoss)
      ensures quote == None ==> pos.Snapshot() == old(pos.Snapshot())
    {
      var plan := pos.plan;
      quote := None;
      if plan.direction == Buy {
        if config.conservativeSLTP {
          if pos.stopLoss != 0.0 && c.low <= pos.stopLoss {
            quote := Some(Quote(pos.stopLoss, StopLossExit));
          } else if plan.tp1 != 0.0 && c.high >= plan.tp1 && !pos.tp1Hit {
            quote := Some(Quote(plan.tp1, TakeProfit1));
            pos.tp1Hit := true;
          } else if plan.tp2 != 0.0 && c.high >= plan.tp2 && pos.tp1Hit && !pos.tp2Hit {
            quote := Some(Quote(plan.tp2, TakeProfit2));
            pos.tp2Hit := true;
          } else if plan.tp3 != 0.0 && c.high >= plan.tp3 && pos.tp2Hit && !pos.tp3Hit {
            quote := Some(Quote(plan.tp3, TakeProfit3));
            pos.tp3Hit := true;
          }
        } else {
          if plan.tp1 != 0.0 && c.high >= plan.tp1 && !pos.tp1Hit {
            quote := Some(Quote(plan.tp1, TakeProfit1));
            pos.tp1Hit := true;
          } else if c.low <= pos.stopLoss {
            quote := Some(Quote(pos.stopLoss, StopLossExit));
          }
        }
      } else {
        if config.conservativeSLTP {
          if pos.stopLoss != 0.0 && c.high >= pos.stopLoss {
            quote := Some(Quote(pos.stopLoss, StopLossExit));
          } else if plan.tp1 != 0.0 && c.low <= plan.tp1 && !pos.tp1Hit {
            quote := Some(Quote(plan.tp1, TakeProfit1));
            pos.tp1Hit := true;
          } else if plan.tp2 != 0.0 && c.low <= plan.tp2 && pos.tp1Hit && !pos.tp2Hit {
            quote := Some(Quote(plan.tp2, TakeProfit2));
            pos.tp2Hit := true;
          } else if plan.tp3 != 0.0 && c.low <= plan.tp3 && pos.tp2Hit && !pos.tp3Hit {
            quote := Some(Quote(plan.tp3, TakeProfit3));
            pos.tp3Hit := true;
          }
        } else {
          if plan.tp1 != 0.0 && c.low <= plan.tp1 && !pos.tp1Hit {
            quote := Some(Quote(plan.tp1, TakeProfit1));
            pos.tp1Hit := true;
          } else if c.high >= pos.stopLoss {
            quote := Some(Quote(pos.stopLoss, StopLossExit));
          }
        }
      }
    }

    /** Does the candle close the position? If so, the trade to record. */
    method CheckPosition(pos: OpenPosition, c: Candle, barIdx: int) returns (closed: Option<Trade>)
      modifies pos
      ensures match QuoteFor(config, old(pos.Snapshot()), c)
              case Some(q) => closed == Some(Fill(config, old(pos.Snapshot()), q, c, barIdx))
              case None => closed == None && pos.Snapshot() == old(pos.Snapshot())
    {
      ghost var before := pos.Snapshot();
      var quote := Probe(pos, c);
      if quote == None {
        return None;
      }
      var trade := Settle(pos, quote.value.price, quote.value.reason, c, barIdx);
      FillIgnoresFlags(config, before, pos.Snapshot(), quote.value, c, barIdx);
      return Some(trade);
    }

    /** Gross profit and initial risk per unit, for each direction. */
    method GrossAndRisk(plan: Plan, exitPrice: real) returns (gross: real, risk: real)
      ensures gross == GrossPnL(config, plan, exitPrice) && risk == Risk(plan)
    {
      if plan.direction == Buy {
        gross := (exitPrice - plan.entryPrice) * plan.size * config.contractSize;
        risk := plan.entryPrice - plan.originalSL;
      } else {
        gross := (plan.entryPrice - exitPrice) * plan.size * config.contractSize;
        risk := plan.originalSL - plan.entryPrice;
      }
    }

    method OvernightSwap(plan: Plan, now: int) returns (swapCost: real)
      ensures swapCost == SwapCharge(config, plan, now)
    {
      swapCost := 0.0;
      if config.swapPerLotPerDay != 0.0 {
        var overnightDays := WholeDays(plan.entryTime, now);
        if overnightDays > 0 {
          swapCost := config.swapPerLotPerDay * plan.size * (overnightDays as real);
        }
      } else {
        FreeSwap(config, plan, now);
      }
    }

    method RMultiple(plan: Plan, exitPrice: real, risk: real) returns (r: real)
      requires risk == Risk(plan)
      ensures r == Multiple(plan, exitPrice)
    {
      r := 0.0;
      if risk != 0.0 {
        if plan.direction == Buy {
          r := (exitPrice - plan.entryPrice) / risk;
        } else {
          r := (plan.entryPrice - exitPrice) / risk;
        }
      }
    }

    method UnitCosts(plan: Plan) returns (spread: real, commission: real, slippage: real)
      ensures spread == SpreadCost(config, plan) && commission == CommissionCost(config, plan)
      ensures slippage == SlippageCost(config, plan)
    {
      spread := config.spread * plan.size;
      commission := config.commission * plan.size;
      slippage := config.slippage * plan.size * config.contractSize;
    }

    /** Profit, costs and R-multiple of a close; shared by the stop/target path and the end-of-data path. */
    method Settle(pos: OpenPosition, exitPrice: real, exitReason: ExitReason, c: Candle, barIdx: int)
      returns (trade: Trade)
      ensures trade == Fill(config, pos.Snapshot(), Quote(exitPrice, exitReason), c, barIdx)
    {
      var plan := pos.plan;
      var gross, risk := GrossAndRisk(plan, exitPrice);
      var spreadCost, commissionCost, slippageCost := UnitCosts(plan);
      var swapCost := OvernightSwap(plan, c.time);
      var pnl := gross - (spreadCost + commissionCost + slippageCost + swapCost);
      var realizedR := RMultiple(plan, exitPrice, risk);
      trade := Trade(
        plan.tradeID, plan.direction, plan.entryPrice, exitPrice, pos.stopLoss,
        plan.tp1, plan.tp2, plan.tp3, plan.entryTime, c.time, exitReason, plan.size,
        pnl, realizedR, spreadCost, commissionCost, slippageCost,
        if exitReason == EndOfData then 0.0 else swapCost,
        plan.entryBarIdx, barIdx, barIdx - plan.entryBarIdx);
    }

    method ApplyTradeManagement(pos: OpenPosition, c: Candle)
      modifies pos
      ensures pos.Snapshot() == Manage(config, old(pos.Snapshot()), c)
    {
      if !config.trailingStopEnabled && !config.breakEvenEnabled {
        return;
      }
      var plan := pos.plan;
      if plan.direction == Buy {
        if config.breakEvenEnabled && !pos.breakEvenSet {
          var risk := plan.entryPrice - plan.originalSL;
          assert risk == Risk(plan);
          if risk > 0.0 && c.close - plan.entryPrice >= risk * config.breakEvenTriggerR {
            pos.stopLoss := plan.entryPrice;
            pos.breakEvenSet := true;
          }
        }
        if config.trailingStopEnabled {
          var candleRange := c.high - c.low;
          var newSL := c.close - candleRange * config.trailingATRMult;
          if newSL > pos.stopLoss {
            pos.stopLoss := newSL;
          }
        }
      } else {
        if config.breakEvenEnabled && !pos.breakEvenSet {
          var risk := plan.originalSL - plan.entryPrice;
          assert risk == Risk(plan);
          if risk > 0.0 && plan.entryPrice - c.close >= risk * config.breakEvenTriggerR {
            pos.stopLoss := plan.entryPrice;
            pos.breakEvenSet := true;
          }
        }
        if config.trailingStopEnabled {
          var candleRange := c.high - c.low;
          var newSL := c.close + candleRange * config.trailingATRMult;
          if newSL < pos.stopLoss {
            pos.stopLoss := newSL;
          }
        }
      }
    }

    /** The accounts alone, without the open positions. */
    ghost function Accounts(): Book
      reads this
    {
      Book([], exits, balance, dailyPnL, currentDay, consecutiveLosses, recoveryMode, recoverySizeMult)
    }

    method Record(trade: Trade, ghost e: Exit)
      requires Sound() && e.trade == trade
      modifies this
      ensures Sound() && openPositions == old(openPositions)
      ensures Accounts() == AbsorbOne(old(Accounts()), e)
    {
      exits := exits + [e];
      closedTrades := closedTrades + [trade];
      balance := balance + trade.realizedPnL;
      dailyPnL := dailyPnL + trade.realizedPnL;
      if trade.realizedPnL < 0.0 {
        consecutiveLosses := consecutiveLosses + 1;
      } else if trade.realizedPnL > 0.0 {
        consecutiveLosses := 0;
        if recoveryMode {
          recoveryMode := false;
          recoverySizeMult := 1.0;
        }
      }
    }

    /** One turn of the update loop: close and book the position, or manage its stop. */
    method Process(pos: OpenPosition, c: Candle, barIdx: int, newlyClosed: seq<Trade>, ghost start: Book, ghost es: seq<Exit>)
      returns (stays: bool, closed: seq<Trade>)
      requires Sound() && TradesAre(newlyClosed, es) && Accounts() == Absorb(start, es)
      modifies this, pos
      ensures Sound() && openPositions == old(openPositions)
      ensures var es' := es + ExitOf(config, old(pos.Snapshot()), c, barIdx);
        TradesAre(closed, es') && Accounts() == Absorb(start, es')
      ensures Kept(config, old(pos.Snapshot()), c) == if stays then [pos.Snapshot()] else []
    {
      ghost var before := pos.Snapshot();
      var trade := CheckPosition(pos, c, barIdx);
      stays, closed := trade.None?, newlyClosed;
      if trade.Some? {
        AbsorbAppend(start, es, Exit(before, trade.value));
        Record(trade.value, Exit(before, trade.value));
        closed := newlyClosed + [trade.value];
      } else {
        ApplyTradeManagement(pos, c);
        assert es + [] == es;
      }
    }

    method UpdatePositions(c: Candle, barIdx: int) returns (newlyClosed: seq<Trade>)
      requires Valid()
      modifies this, openPositions
      ensures Valid() && book == Update(config, old(book), c, barIdx)
      ensures TradesAre(newlyClosed, Exits(config, old(book).open, |old(book).open|, c, barIdx))
      ensures forall p :: p in openPositions ==> p in old(openPositions)
    {
      var stillOpen;
      stillOpen, newlyClosed := Sweep(book, c, barIdx);
      Install(stillOpen);
    }

    method Install(stillOpen: seq<OpenPosition>)
      requires Distinct(stillOpen) && TradesAre(closedTrades, exits)
      modifies this
      ensures Valid() && openPositions == stillOpen
      ensures book == old(Accounts().(open := Snapshots(stillOpen)))
    {
      openPositions := stillOpen;
      book := View();
    }

    /** Progress of the update loop over `positions`: the first `i` are settled, the rest untouched. */
    ghost predicate Progress(positions: seq<OpenPosition>, i: nat, stillOpen: seq<OpenPosition>, before: seq<Position>, c: Candle)
      reads this, positions, stillOpen
    {
      && i <= |positions| == |before| && openPositions == positions && Sound()
      && (forall j :: i <= j < |positions| ==> positions[j].Snapshot() == before[j])
      && Gathered(positions, i, stillOpen)
      && Snapshots(stillOpen) == Survivors(config, before, i, c)
    }

    /** One turn of the update loop. */
    method Turn(positions: seq<OpenPosition>, i: nat, stillOpen: seq<OpenPosition>, newlyClosed: seq<Trade>,
                c: Candle, barIdx: int, ghost before: seq<Position>, ghost start: Book)
      returns (open: seq<OpenPosition>, closed: seq<Trade>)
      requires Progress(positions, i, stillOpen, before, c) && i < |positions|
      requires TradesAre(newlyClosed, Exits(config, before, i, c, barIdx))
      requires Accounts() == Absorb(start, Exits(config, before, i, c, barIdx))
      modifies this, positions[i]
      ensures Progress(positions, i + 1, open, before, c)
      ensures TradesAre(closed, Exits(config, before, i + 1, c, barIdx))
      ensures Accounts() == Absorb(start, Exits(config, before, i + 1, c, barIdx))
    {
      ghost var kept := Snapshots(stillOpen);
      var stays;
      stays, closed := Process(positions[i], c, barIdx, newlyClosed, start, Exits(config, before, i, c, barIdx));
      assert Snapshots(stillOpen) == kept;
      GatherNext(positions, i, stillOpen);
      open := stillOpen;
      if stays {
        SnapshotsAppend(stillOpen, positions[i]);
        open := stillOpen + [positions[i]];
      } else {
        assert kept + [] == kept;
      }
    }

    /** The update loop, before the surviving positions are installed. */
    method Sweep(ghost b: Book, c: Candle, barIdx: int)
      returns (stillOpen: seq<OpenPosition>, newlyClosed: seq<Trade>)
      requires Sound() && b == View()
      modifies this, openPositions
      ensures Progress(old(openPositions), |b.open|, stillOpen, b.open, c)
      ensures TradesAre(newlyClosed, Exits(config, b.open, |b.open|, c, barIdx))
      ensures Accounts().(open := Snapshots(stillOpen)) == Update(config, b, c, barIdx)
    {
      ghost var start := Accounts();
      stillOpen, newlyClosed := SettleAll(b.open, start, c, barIdx);
      UpdateByAccounts(config, b, c, barIdx);
      assert start == b.(open := []);
    }

    method SettleAll(ghost before: seq<Position>, ghost start: Book, c: Candle, barIdx: int)
      returns (stillOpen: seq<OpenPosition>, newlyClosed: seq<Trade>)
      requires Sound() && before == Snapshots(openPositions) && start == Accounts()
      modifies this, openPositions
      ensures Progress(old(openPositions), |before|, stillOpen, before, c)
      ensures TradesAre(newlyClosed, Exits(config, before, |before|, c, barIdx))
      ensures Accounts() == Absorb(start, Exits(config, before, |before|, c, barIdx))
    {
      stillOpen, newlyClosed := [], [];
      var positions := openPositions;
      AbsorbNothing(start);
      for i := 0 to |positions|
        invariant Progress(positions, i, stillOpen, before, c)
        invariant TradesAre(newlyClosed, Exits(config, before, i, c, barIdx))
        invariant Accounts() == Absorb(start, Exits(config, before, i, c, barIdx))
      {
        stillOpen, newlyClosed := Turn(positions, i, stillOpen, newlyClosed, c, barIdx, before, start);
      }
    }

    method Liquidate(pos: OpenPosition, c: Candle, barIdx: int) returns (trade: Trade)
      requires Sound()
      modifies this
      ensures Sound() && openPositions == old(openPositions)
      ensures trade == Fill(config, pos.Snapshot(), Quote(c.close, EndOfData), c, barIdx)
      ensures Accounts() == LiquidateOne(old(Accounts()), Exit(pos.Snapshot(), trade))
    {
      trade := Settle(pos, c.close, EndOfData, c, barIdx);
      exits := exits + [Exit(pos.Snapshot(), trade)];
      closedTrades := closedTrades + [trade];
      balance := balance + trade.realizedPnL;
    }

    method CloseAllPositions(c: Candle, barIdx: int) returns (closed: seq<Trade>)
      requires Valid()
      modifies this
      ensures Valid() && book == CloseAll(config, old(book), c, barIdx)
      ensures TradesAre(closed, Liquidations(config, old(book).open, |old(book).open|, c, barIdx))
      ensures openPositions == []
    {
      closed := LiquidateEach(book.open, c, barIdx);
      openPositions := [];
      book := View();
    }

    method LiquidateEach(ghost before: seq<Position>, c: Candle, barIdx: int) returns (closed: seq<Trade>)
      requires Sound() && before == Snapshots(openPositions)
      modifies this
      ensures Sound() && openPositions == old(openPositions)
      ensures TradesAre(closed, Liquidations(config, before, |before|, c, barIdx))
      ensures Accounts() == Ledger.Liquidate(old(Accounts()), Liquidations(config, before, |before|, c, barIdx))
    {
      closed := [];
      ghost var start := Accounts();
      AbsorbNothing(start);
      ghost var es: seq<Exit> := [];
      for i := 0 to |openPositions|
        invariant openPositions == old(openPositions) && Sound()
        invariant es == Liquidations(config, before, i, c, barIdx)
        invariant TradesAre(closed, es) && Accounts() == Ledger.Liquidate(start, es)
      {
        var trade := Liquidate(openPositions[i], c, barIdx);
        AbsorbAppend(start, es, Exit(before[i], trade));
        es := es + [Exit(before[i], trade)];
        closed := closed + [trade];
      }
    }
  }
}
