/** What a candle does to a position, in the candle's own prices, with longs and shorts written out separately: the
    yardstick the signed rules of the ledger are measured against. */
module TradeRules {
  import opened Options
  import opened Durations
  import opened BacktestTypes
  import opened Ledger
  import opened Engine
  import opened RunProperties

  // ----- Which level wins -----

  /** A position as the event loop knows it: no target was taken yet and there is a first one. */
  predicate Untargeted(p: Position) {
    !p.tp1Hit && !p.tp2Hit && p.plan.tp1 != 0.0
  }

  predicate AtStop(p: Position, c: Candle) {
    if p.plan.direction == Buy then c.low <= p.stopLoss else c.high >= p.stopLoss
  }

  predicate AtTarget(p: Position, c: Candle) {
    if p.plan.direction == Buy then c.high >= p.plan.tp1 else c.low <= p.plan.tp1
  }

  /** The trade ends the position as the mode demands: conservatively the stop comes first (a zero stop is none) and
      the first target only without it; otherwise the first target comes first and the stop only without it. */
  predicate ClosesBy(cfg: Config, p: Position, c: Candle, t: Trade) {
    if cfg.conservativeSLTP then
      if p.stopLoss != 0.0 && AtStop(p, c) then t.exitReason == StopLossExit && t.exitPrice == p.stopLoss
      else AtTarget(p, c) && t.exitReason == TakeProfit1 && t.exitPrice == p.plan.tp1
    else
      if AtTarget(p, c) then t.exitReason == TakeProfit1 && t.exitPrice == p.plan.tp1
      else AtStop(p, c) && t.exitReason == StopLossExit && t.exitPrice == p.stopLoss
  }

  predicate Untouched(cfg: Config, p: Position, c: Candle) {
    !AtTarget(p, c) && !(AtStop(p, c) && (cfg.conservativeSLTP ==> p.stopLoss != 0.0))
  }

  // ----- What is booked -----

  /** Overnight swap: one charge per lot for each whole day held. */
  function Swap(cfg: Config, plan: Plan, now: int): real {
    if now - plan.entryTime < NANOS_PER_DAY then 0.0
    else Charge(cfg, plan, (now - plan.entryTime) / NANOS_PER_DAY)
  }

  function Charge(cfg: Config, plan: Plan, days: int): real {
    cfg.swapPerLotPerDay * plan.size * (days as real)
  }

  /** The trade records the position as it stood, and its money in plain prices. */
  ghost predicate Booked(cfg: Config, p: Position, c: Candle, bar: int, t: Trade) {
    var plan := p.plan;
    var move := if plan.direction == Buy then t.exitPrice - plan.entryPrice else plan.entryPrice - t.exitPrice;
    var risk := if plan.direction == Buy then plan.entryPrice - plan.originalSL else plan.originalSL - plan.entryPrice;
    && t.tradeID == plan.tradeID && t.direction == plan.direction && t.size == plan.size
    && t.entryPrice == plan.entryPrice && t.stopLoss == p.stopLoss
    && t.tp1 == plan.tp1 && t.tp2 == plan.tp2 && t.tp3 == plan.tp3
    && t.entryTime == plan.entryTime && t.exitTime == c.time
    && t.entryBarIdx == plan.entryBarIdx && t.exitBarIdx == bar && t.holdingBars == bar - plan.entryBarIdx
    && t.spreadCost == cfg.spread * plan.size
    && t.commissionCost == cfg.commission * plan.size
    && t.slippageCost == cfg.slippage * plan.size * cfg.contractSize
    && t.swapCost == (if t.exitReason == EndOfData then 0.0 else Swap(cfg, plan, c.time))
    && t.realizedPnL == move * plan.size * cfg.contractSize
                        - t.spreadCost - t.commissionCost - t.slippageCost - Swap(cfg, plan, c.time)
    && (if risk == 0.0 then t.realizedR == 0.0 else t.realizedR == move / risk)
  }

  lemma {:induction false} SwapAgrees(cfg: Config, plan: Plan, now: int)
    ensures SwapCharge(cfg, plan, now) == Swap(cfg, plan, now)
  {
    var held := now - plan.entryTime;
    if held < 0 {
      assert (plan.entryTime - now) / NANOS_PER_DAY >= 0;
    } else if held < NANOS_PER_DAY {
      assert held / NANOS_PER_DAY == 0;
    } else {
      var days := held / NANOS_PER_DAY;
      assert days >= 1 && WholeDays(plan.entryTime, now) == days;
      assert SwapCharge(cfg, plan, now) == Charge(cfg, plan, WholeDays(plan.entryTime, now));
    }
  }

  lemma {:induction false} FillBooks(cfg: Config, p: Position, q: Quote, c: Candle, bar: int)
    ensures var t := Fill(cfg, p, q, c, bar);
      Booked(cfg, p, c, bar, t) && t.exitReason == q.reason && t.exitPrice == q.price
  {
    SwapAgrees(cfg, p.plan, c.time);
  }

  // ----- How the stop moves -----

  /** A position the candle left open: break-even puts the stop on the entry, then trailing tightens it. */
  function Moved(cfg: Config, p: Position, c: Candle): Position {
    var plan := p.plan;
    var long := plan.direction == Buy;
    var risk := if long then plan.entryPrice - plan.originalSL else plan.originalSL - plan.entryPrice;
    var gain := if long then c.close - plan.entryPrice else plan.entryPrice - c.close;
    var fires := cfg.breakEvenEnabled && !p.breakEvenSet && risk > 0.0 && gain >= risk * cfg.breakEvenTriggerR;
    var stop := if fires then plan.entryPrice else p.stopLoss;
    var width := (c.high - c.low) * cfg.trailingATRMult;
    var trailed :=
      if long then if c.close - width > stop then c.close - width else stop
      else if c.close + width < stop then c.close + width else stop;
    p.(stopLoss := if cfg.trailingStopEnabled then trailed else stop, breakEvenSet := p.breakEvenSet || fires)
  }

  // ----- One candle over the whole book -----

  lemma {:induction false} OneDecided(cfg: Config, p: Position, c: Candle)
    requires Untargeted(p)
    ensures QuoteFor(cfg, p, c) == None <==> Untouched(cfg, p, c)
    ensures QuoteFor(cfg, p, c).Some? ==>
      var q := QuoteFor(cfg, p, c).value;
      forall t: Trade :: t.exitReason == q.reason && t.exitPrice == q.price ==> ClosesBy(cfg, p, c, t)
    ensures Manage(cfg, p, c) == Moved(cfg, p, c)
  {
    MovedAgrees(cfg, p, c);
  }

  lemma {:induction false} MovedAgrees(cfg: Config, p: Position, c: Candle)
    ensures Manage(cfg, p, c) == Moved(cfg, p, c)
  {
    var plan := p.plan;
    var risk := if plan.direction == Buy then plan.entryPrice - plan.originalSL else plan.originalSL - plan.entryPrice;
    assert risk == Risk(plan);
  }

  ghost predicate GoesOut(cfg: Config, p: Position, c: Candle, bar: int, es: seq<Exit>) {
    exists e :: e in es && e.pos == p && ClosesBy(cfg, p, c, e.trade) && Booked(cfg, p, c, bar, e.trade)
  }

  /** Every exit ends one of the positions, and every survivor is one of them with its stop moved. */
  ghost predicate ComeFrom(cfg: Config, ps: seq<Position>, c: Candle, bar: int, es: seq<Exit>, open: seq<Position>) {
    && (forall e :: e in es ==> e.pos in ps && ClosesBy(cfg, e.pos, c, e.trade) && Booked(cfg, e.pos, c, bar, e.trade))
    && (forall q :: q in open ==> exists p :: p in ps && Untouched(cfg, p, c) && q == Moved(cfg, p, c))
  }

  /** Every position either goes out or stays, as the candle decides. */
  ghost predicate AllDecided(cfg: Config, ps: seq<Position>, n: nat, c: Candle, bar: int, es: seq<Exit>, open: seq<Position>)
    requires n <= |ps|
  {
    forall j :: 0 <= j < n ==>
      if Untouched(cfg, ps[j], c) then Moved(cfg, ps[j], c) in open else GoesOut(cfg, ps[j], c, bar, es)
  }

  lemma {:induction false} AllComeFrom(cfg: Config, ps: seq<Position>, n: nat, c: Candle, bar: int)
    requires n <= |ps| && forall p :: p in ps ==> Untargeted(p)
    ensures ComeFrom(cfg, ps, c, bar, Exits(cfg, ps, n, c, bar), Survivors(cfg, ps, n, c))
  {
    if n > 0 {
      AllComeFrom(cfg, ps, n - 1, c, bar);
      OneComesFrom(cfg, ps, n - 1, c, bar, Exits(cfg, ps, n - 1, c, bar), Survivors(cfg, ps, n - 1, c));
    }
  }

  lemma {:induction false} OneComesFrom(cfg: Config, ps: seq<Position>, n: nat, c: Candle, bar: int, es: seq<Exit>, open: seq<Position>)
    requires n < |ps| && Untargeted(ps[n]) && ComeFrom(cfg, ps, c, bar, es, open)
    ensures ComeFrom(cfg, ps, c, bar, es + ExitOf(cfg, ps[n], c, bar), open + Kept(cfg, ps[n], c))
  {
    var p := ps[n];
    OneDecided(cfg, p, c);
    match QuoteFor(cfg, p, c) {
      case None =>
        assert ExitOf(cfg, p, c, bar) == [] && Kept(cfg, p, c) == [Moved(cfg, p, c)];
      case Some(q) =>
        FillBooks(cfg, p, q, c, bar);
        assert ExitOf(cfg, p, c, bar) == [Exit(p, Fill(cfg, p, q, c, bar))] && Kept(cfg, p, c) == [];
    }
  }

  lemma {:induction false} EveryoneDecided(cfg: Config, ps: seq<Position>, n: nat, c: Candle, bar: int)
    requires n <= |ps| && forall p :: p in ps ==> Untargeted(p)
    ensures AllDecided(cfg, ps, n, c, bar, Exits(cfg, ps, n, c, bar), Survivors(cfg, ps, n, c))
  {
    if n > 0 {
      EveryoneDecided(cfg, ps, n - 1, c, bar);
      var es, open := Exits(cfg, ps, n - 1, c, bar), Survivors(cfg, ps, n - 1, c);
      var out, stay := ExitOf(cfg, ps[n - 1], c, bar), Kept(cfg, ps[n - 1], c);
      StillDecided(cfg, ps, n - 1, c, bar, es, open, out, stay);
      NextDecided(cfg, ps[n - 1], c, bar, es, open);
    }
  }

  /** More exits and survivors leave earlier decisions as they were. */
  lemma {:induction false} StillDecided(cfg: Config, ps: seq<Position>, n: nat, c: Candle, bar: int,
                                       es: seq<Exit>, open: seq<Position>, out: seq<Exit>, stay: seq<Position>)
    requires n <= |ps| && AllDecided(cfg, ps, n, c, bar, es, open)
    ensures AllDecided(cfg, ps, n, c, bar, es + out, open + stay)
  {
    forall j | 0 <= j < n && !Untouched(cfg, ps[j], c)
      ensures GoesOut(cfg, ps[j], c, bar, es + out)
    {
      var e :| e in es && e.pos == ps[j] && ClosesBy(cfg, ps[j], c, e.trade) && Booked(cfg, ps[j], c, bar, e.trade);
      assert e in es + out;
    }
  }

  lemma {:induction false} NextDecided(cfg: Config, p: Position, c: Candle, bar: int, es: seq<Exit>, open: seq<Position>)
    requires Untargeted(p)
    ensures if Untouched(cfg, p, c) then Moved(cfg, p, c) in open + Kept(cfg, p, c)
            else GoesOut(cfg, p, c, bar, es + ExitOf(cfg, p, c, bar))
  {
    OneDecided(cfg, p, c);
    match QuoteFor(cfg, p, c) {
      case None =>
        assert (open + Kept(cfg, p, c))[|open|] == Moved(cfg, p, c);
      case Some(q) =>
        FillBooks(cfg, p, q, c, bar);
        assert (es + ExitOf(cfg, p, c, bar))[|es|] == Exit(p, Fill(cfg, p, q, c, bar));
    }
  }

  /** One candle over any book of the event loop: exactly the positions it touches go out, by the level that wins and
      with the money it is worth; the others stay with their stop moved; nothing else enters the book. */
  lemma {:induction false} CandleDecides(cfg: Config, b: Book, c: Candle, bar: int)
    requires forall p :: p in b.open ==> Untargeted(p)
    ensures var r := Update(cfg, b, c, bar);
      && |r.exits| >= |b.exits| && r.exits[..|b.exits|] == b.exits
      && ComeFrom(cfg, b.open, c, bar, r.exits[|b.exits|..], r.open)
      && AllDecided(cfg, b.open, |b.open|, c, bar, r.exits[|b.exits|..], r.open)
  {
    var es := Exits(cfg, b.open, |b.open|, c, bar);
    AllComeFrom(cfg, b.open, |b.open|, c, bar);
    EveryoneDecided(cfg, b.open, |b.open|, c, bar);
    assert (b.exits + es)[..|b.exits|] == b.exits && (b.exits + es)[|b.exits|..] == es;
  }

  /** Conservatively the stop wins over the target, whatever the other extreme of the candle did. */
  lemma {:induction false} StopWins(cfg: Config, b: Book, c: Candle, bar: int, p: Position)
    requires cfg.conservativeSLTP && b.open == [p] && Untargeted(p) && p.stopLoss != 0.0
    requires if p.plan.direction == Buy then c.low <= p.stopLoss else c.high >= p.stopLoss
    ensures var r := Update(cfg, b, c, bar);
      && r.open == [] && |r.exits| == |b.exits| + 1
      && r.exits[|b.exits|].trade.exitReason == StopLossExit && r.exits[|b.exits|].trade.exitPrice == p.stopLoss
  {
    OneDecided(cfg, p, c);
    assert Exits(cfg, [p], 1, c, bar) == Exits(cfg, [p], 0, c, bar) + ExitOf(cfg, p, c, bar);
    assert Survivors(cfg, [p], 1, c) == Survivors(cfg, [p], 0, c) + Kept(cfg, p, c);
    var q := QuoteFor(cfg, p, c).value;
    assert ClosesBy(cfg, p, c, Fill(cfg, p, q, c, bar));
  }

  /** In the other mode the target wins. */
  lemma {:induction false} TargetWins(cfg: Config, b: Book, c: Candle, bar: int, p: Position)
    requires !cfg.conservativeSLTP && b.open == [p] && Untargeted(p)
    requires if p.plan.direction == Buy then c.high >= p.plan.tp1 else c.low <= p.plan.tp1
    ensures var r := Update(cfg, b, c, bar);
      && r.open == [] && |r.exits| == |b.exits| + 1
      && r.exits[|b.exits|].trade.exitReason == TakeProfit1 && r.exits[|b.exits|].trade.exitPrice == p.plan.tp1
  {
    OneDecided(cfg, p, c);
    assert Exits(cfg, [p], 1, c, bar) == Exits(cfg, [p], 0, c, bar) + ExitOf(cfg, p, c, bar);
    assert Survivors(cfg, [p], 1, c) == Survivors(cfg, [p], 0, c) + Kept(cfg, p, c);
    var q := QuoteFor(cfg, p, c).value;
    assert ClosesBy(cfg, p, c, Fill(cfg, p, q, c, bar));
  }

  // ----- Whole runs -----

  /** Every exit of the event loop of every run: the candle of its bar closes it by the level that wins there, and
      the trade is worth what the plain prices say. */
  lemma {:induction false} RunExitsDecided(cfg: Config, start: nat, bars: seq<Bar>, k: nat, j: nat)
    requires k <= |bars| && j < |After(cfg, start, bars, k).book.exits|
    ensures var e := After(cfg, start, bars, k).book.exits[j];
      && 0 <= e.trade.exitBarIdx < k
      && ClosesBy(cfg, e.pos, bars[e.trade.exitBarIdx].candle, e.trade)
      && Booked(cfg, e.pos, bars[e.trade.exitBarIdx].candle, e.trade.exitBarIdx, e.trade)
  {
    PositionsHealthy(cfg, start, bars, k);
    var e := After(cfg, start, bars, k).book.exits[j];
    assert Genuine(cfg, start, bars, k, e);
    var c := bars[e.trade.exitBarIdx].candle;
    OneDecided(cfg, e.pos, c);
    FillBooks(cfg, e.pos, QuoteFor(cfg, e.pos, c).value, c, e.trade.exitBarIdx);
  }

  /** Every bar of every run decides the book it finds as above. */
  lemma {:induction false} RunCandlesDecide(cfg: Config, start: nat, bars: seq<Bar>, i: nat)
    requires i < |bars| && bars[i].ready
    ensures var b, r := After(cfg, start, bars, i).book, BookAt(cfg, start, bars, i);
      && |r.exits| >= |b.exits|
      && ComeFrom(cfg, b.open, bars[i].candle, i, r.exits[|b.exits|..], r.open)
      && AllDecided(cfg, b.open, |b.open|, bars[i].candle, i, r.exits[|b.exits|..], r.open)
  {
    PositionsHealthy(cfg, start, bars, i);
    var b := After(cfg, start, bars, i).book;
    CandleDecides(cfg, Rollover(b, bars[i].candle.time), bars[i].candle, i);
  }

  /** What is still open at the end goes out at the last close, with its money booked the same way. */
  lemma {:induction false} FinalExitsBooked(cfg: Config, b: Book, bars: seq<Bar>)
    requires |bars| > 0
    ensures var r, c := Closing(cfg, b, bars), bars[|bars| - 1].candle;
      && |r.exits| == |b.exits| + |b.open| && r.exits[..|b.exits|] == b.exits
      && forall j :: 0 <= j < |b.open| ==>
        var e := r.exits[|b.exits| + j];
        && e.pos == b.open[j] && e.trade.exitReason == EndOfData && e.trade.exitPrice == c.close
        && Booked(cfg, e.pos, c, |bars| - 1, e.trade)
  {
    LiquidationsBooked(cfg, b.open, |b.open|, bars[|bars| - 1].candle, |bars| - 1);
  }

  lemma {:induction false} LiquidationsBooked(cfg: Config, ps: seq<Position>, n: nat, c: Candle, bar: int)
    requires n <= |ps|
    ensures var es := Liquidations(cfg, ps, n, c, bar);
      && |es| == n
      && forall j :: 0 <= j < n ==>
        && es[j].pos == ps[j] && es[j].trade.exitReason == EndOfData && es[j].trade.exitPrice == c.close
        && Booked(cfg, ps[j], c, bar, es[j].trade)
  {
    if n > 0 {
      LiquidationsBooked(cfg, ps, n - 1, c, bar);
      FillBooks(cfg, ps[n - 1], Quote(c.close, EndOfData), c, bar);
    }
  }

  // ----- When a position is opened, and what is counted -----

  /** All checks before an entry, in plain terms. */
  predicate Passes(cfg: Config, s: State, bar: Bar) {
    && (if cfg.initialBalance == 0.0 then 0.0 else s.book.dailyPnL / cfg.initialBalance * 100.0) > -cfg.maxDailyLossPct
    && |s.book.open| < cfg.maxPositions
    && (cfg.productionParity && (bar.signal.direction == Buy || bar.signal.direction == Sell) ==>
          && (s.cooldownUntil == 0 || bar.candle.time >= s.cooldownUntil)
          && (bar.tradeThreshold == None || bar.signal.rawScore >= bar.tradeThreshold.value)
          && bar.signal.entryGatePassed && !bar.signal.isLossCandidate)
  }

  /** A position is opened exactly for a buy or sell that passes every check and names a stop, a first target and an
      entry. */
  lemma {:induction false} OpensExactlyWhen(cfg: Config, s: State, bar: Bar, i: int)
    ensures |Decide(cfg, s, bar, i).openings| == |s.openings| + 1 <==>
      && Passes(cfg, s, bar)
      && (bar.signal.direction == Buy || bar.signal.direction == Sell)
      && bar.signal.stopLoss != 0.0 && bar.signal.tp1 != 0.0 && bar.signal.entryPrice != 0.0
  {
    DecideEffect(cfg, s, bar, i);
  }

  /** An opening starts the signal's cooldown; nothing else moves it. */
  lemma {:induction false} CooldownStarted(cfg: Config, s: State, bar: Bar, i: int)
    ensures var r := Decide(cfg, s, bar, i);
      r.cooldownUntil == if |r.openings| > |s.openings| && bar.signal.cooldownMinutes > 0
                         then bar.candle.time + bar.signal.cooldownMinutes * 60_000_000_000 else s.cooldownUntil
  {
    DecideEffect(cfg, s, bar, i);
  }

  /** Which counter a decision adds to: the limits block, parity blocks apart, and a read that passes is counted by its
      direction. */
  lemma {:induction false} CountedAs(cfg: Config, s: State, bar: Bar, i: int)
    ensures var before, after := s.counters.(barsProcessed := s.counters.barsProcessed + 1), Decide(cfg, s, bar, i).counters;
      var direction := bar.signal.direction;
      var atLimit := (if cfg.initialBalance == 0.0 then 0.0 else s.book.dailyPnL / cfg.initialBalance * 100.0) <= -cfg.maxDailyLossPct
                     || |s.book.open| >= cfg.maxPositions;
      after ==
        if atLimit then before.(blocked := before.blocked + 1)
        else if !Passes(cfg, s, bar) then before.(parityBlocked := before.parityBlocked + 1)
        else if direction == Buy then before.(buySignals := before.buySignals + 1)
        else if direction == Sell then before.(sellSignals := before.sellSignals + 1)
        else if direction == Blocked then before.(blocked := before.blocked + 1)
        else if direction == NoTrade || direction == Wait then before.(noTrade := before.noTrade + 1)
        else before
  {
    DecideEffect(cfg, s, bar, i);
  }
}
