/** What every run of the backtest keeps, for every configuration, candle history and strategy. */
module RunProperties {
  import opened Options
  import opened Durations
  import opened BacktestTypes
  import opened Ledger
  import opened Engine
  import Reals

  // ----- One step, taken apart -----

  predicate Opens(cfg: Config, s: State, bar: Bar) {
    && Gate(cfg, s.book, s.cooldownUntil, bar) == Clear
    && Directional(bar.signal)
    && bar.signal.stopLoss != 0.0 && bar.signal.tp1 != 0.0 && bar.signal.entryPrice != 0.0
  }

  function OpenedPosition(cfg: Config, s: State, bar: Bar, i: int): Position {
    FreshPosition(PlanFor(cfg, s.book, bar, i), s.book.balance)
  }

  function Turnover(c: Counters): int {
    c.blocked + c.parityBlocked + c.buySignals + c.sellSignals + c.noTrade
  }

  /** The decision ends in one of the outcome counters: a gate stops it, or the loop knows the answer. */
  predicate Counted(cfg: Config, s: State, bar: Bar) {
    Gate(cfg, s.book, s.cooldownUntil, bar) != Clear || !bar.signal.direction.Other?
  }

  /** An entry decision moves no money and closes nothing; it opens one position exactly when all gates pass, and
      adds to an outcome counter exactly when it is counted. */
  lemma {:induction false} DecideEffect(cfg: Config, s: State, bar: Bar, i: int)
    ensures var r := Decide(cfg, s, bar, i);
      && (if Opens(cfg, s, bar) then
            var pos := OpenedPosition(cfg, s, bar, i);
            && r.book == s.book.(open := s.book.open + [pos])
            && r.openings == s.openings + [Opening(pos, CooldownOf(bar.signal))]
            && r.cooldownUntil == (if CooldownOf(bar.signal) > 0 then bar.candle.time + CooldownOf(bar.signal) else s.cooldownUntil)
          else r.book == s.book && r.openings == s.openings && r.cooldownUntil == s.cooldownUntil)
      && r.counters.barsProcessed == s.counters.barsProcessed + 1
      && Turnover(r.counters) == Turnover(s.counters) + (if Counted(cfg, s, bar) then 1 else 0)
  {
  }

  /** The book just before the entry decision of bar `i`. */
  function BookAt(cfg: Config, start: nat, bars: seq<Bar>, i: nat): Book
    requires i < |bars|
  {
    Settled(cfg, After(cfg, start, bars, i), bars[i], i).book
  }

  lemma {:induction false} SettledEffect(cfg: Config, s: State, bar: Bar, i: int)
    ensures var r := Settled(cfg, s, bar, i);
      var es := Exits(cfg, s.book.open, |s.book.open|, bar.candle, i);
      && r.book.open == Survivors(cfg, s.book.open, |s.book.open|, bar.candle)
      && r.book.exits == s.book.exits + es
      && r.book.balance == s.book.balance + TotalPnL(es, |es|)
      && r.book.currentDay == Rollover(s.book, bar.candle.time).currentDay
      && r.book.dailyPnL == Rollover(s.book, bar.candle.time).dailyPnL + TotalPnL(es, |es|)
      && (!s.book.recoveryMode ==> !r.book.recoveryMode && r.book.recoverySizeMult == s.book.recoverySizeMult)
      && r.cooldownUntil == s.cooldownUntil && r.counters == s.counters && r.openings == s.openings
  {
  }

  /** Induction over runs: what holds initially and survives every step holds in every reachable state. */
  lemma {:induction false} Always(cfg: Config, start: nat, bars: seq<Bar>, k: nat, inv: (State, nat) -> bool)
    requires k <= |bars| && inv(NewState(cfg), 0)
    requires forall s: State, i: nat :: i < k && inv(s, i) ==> inv(Step(cfg, start, s, bars[i], i), i + 1)
    ensures inv(After(cfg, start, bars, k), k)
  {
    if k > 0 {
      Always(cfg, start, bars, k - 1, inv);
    }
  }

  // ----- Money -----

  predicate MoneyConserved(cfg: Config, b: Book) {
    && b.balance == cfg.initialBalance + TotalPnL(b.exits, |b.exits|)
    && !b.recoveryMode && b.recoverySizeMult == 1.0
  }

  /** In every reachable state the balance is the initial one plus the closed trades' profit,
      and the recovery multiplier is still 1: nothing ever enters recovery mode. */
  lemma {:induction false} BalanceConserved(cfg: Config, start: nat, bars: seq<Bar>, k: nat)
    requires k <= |bars|
    ensures MoneyConserved(cfg, After(cfg, start, bars, k).book)
  {
    var inv := (s: State, i: nat) => MoneyConserved(cfg, s.book);
    forall s: State, i: nat | i < k && inv(s, i)
      ensures inv(Step(cfg, start, s, bars[i], i), i + 1)
    {
      SettledBalance(cfg, s, bars[i], i);
      DecideEffect(cfg, Settled(cfg, s, bars[i], i), bars[i], i);
    }
    Always(cfg, start, bars, k, inv);
  }

  lemma {:induction false} SettledBalance(cfg: Config, s: State, bar: Bar, i: nat)
    requires MoneyConserved(cfg, s.book)
    ensures MoneyConserved(cfg, Settled(cfg, s, bar, i).book)
  {
    SettledEffect(cfg, s, bar, i);
    var es := Exits(cfg, s.book.open, |s.book.open|, bar.candle, i);
    TotalPnLAppend(s.book.exits, es, |es|);
  }

  // ----- Positions -----

  /** What is known of any position of a run: where it was opened, how it was sized, and where its stop stands. */
  ghost predicate Healthy(cfg: Config, start: nat, bars: seq<Bar>, k: nat, p: Position)
    requires k <= |bars|
  {
    var plan := p.plan;
    && 0 <= plan.entryBarIdx < k
    && plan.entryTime == bars[plan.entryBarIdx].candle.time
    && (plan.direction == Buy || plan.direction == Sell)
    && Asked(plan, bars[plan.entryBarIdx])
    && p.balanceAtOpen == BookAt(cfg, start, bars, plan.entryBarIdx).balance
    && Sized(cfg, p)
    && StopsInOrder(p)
  }

  /** The plan is the one the bar's signal asked for: same side, prices and identifier. */
  predicate Asked(plan: Plan, bar: Bar) {
    var s := bar.signal;
    && plan.direction == s.direction && plan.tradeID == bar.tradeID && plan.entryTime == bar.candle.time
    && plan.entryPrice == s.entryPrice && plan.originalSL == s.stopLoss
    && plan.tp1 == s.tp1 && plan.tp2 == s.tp2 && plan.tp3 == s.tp3
  }

  /** It has as many lots as the budget buys at the signal's stop distance, between 0.01 and 10. */
  predicate BoughtWithin(cfg: Config, p: Position, s: StrategyResult) {
    LotsFor(p.plan.size, Reals.Times(p.balanceAtOpen, cfg.maxRiskPerTrade),
            Reals.Times(Distance(s.entryPrice, s.stopLoss), cfg.contractSize))
  }

  function Distance(entry: real, stop: real): real {
    if entry >= stop then entry - stop else stop - entry
  }

  predicate LotsFor(size: real, budget: real, perLot: real) {
    size == if perLot == 0.0 || budget / perLot < 0.01 then 0.01
            else if budget / perLot > 10.0 then 10.0
            else budget / perLot
  }

  lemma {:induction false} SizeIsLots(budget: real, perLot: real)
    ensures LotsFor(Size(budget, perLot), budget, perLot)
  {
  }

  predicate AsSignalled(cfg: Config, p: Position, bar: Bar) {
    Asked(p.plan, bar) && BoughtWithin(cfg, p, bar.signal)
  }

  lemma {:induction false} SizeInPlainPrices(cfg: Config, p: Position, bar: Bar)
    requires Asked(p.plan, bar) && Sized(cfg, p)
    ensures AsSignalled(cfg, p, bar)
  {
    var entry, stop := bar.signal.entryPrice, bar.signal.stopLoss;
    var distance := Distance(entry, stop);
    var perLot, budget := Reals.Times(distance, cfg.contractSize), Reals.Times(p.balanceAtOpen, cfg.maxRiskPerTrade);
    assert RiskAmount(cfg, p.balanceAtOpen, 1.0) == budget;
    assert Reals.Abs(entry - stop) == distance;
    assert RiskPerUnit(cfg, entry, stop) == perLot;
    SizeIsLots(budget, perLot);
  }

  predicate Sized(cfg: Config, p: Position) {
    p.plan.size == Size(RiskAmount(cfg, p.balanceAtOpen, 1.0), RiskPerUnit(cfg, p.plan.entryPrice, p.plan.originalSL))
  }

  /** The stop is never looser than the original one; after break-even it is at or beyond the entry.
      No target flag is set, so only the first target can close the position. */
  predicate StopsInOrder(p: Position) {
    && !p.tp1Hit && !p.tp2Hit && p.plan.tp1 != 0.0
    && Gain(p.plan, p.stopLoss) >= Gain(p.plan, p.plan.originalSL)
    && (p.breakEvenSet ==> Risk(p.plan) > 0.0 && Gain(p.plan, p.stopLoss) >= 0.0)
  }

  lemma {:induction false} ManageKeepsOrder(cfg: Config, p: Position, c: Candle)
    requires StopsInOrder(p)
    ensures StopsInOrder(Manage(cfg, p, c))
    ensures p.breakEvenSet ==> Gain(p.plan, Manage(cfg, p, c).stopLoss) >= Gain(p.plan, p.stopLoss)
  {
  }

  /** An exit of the event loop: the position was open, the candle reached the quoted level,
      and the trade is the one that level produces. */
  ghost predicate Genuine(cfg: Config, start: nat, bars: seq<Bar>, k: nat, e: Exit)
    requires k <= |bars|
  {
    var b := e.trade.exitBarIdx;
    && Healthy(cfg, start, bars, k, e.pos)
    && e.pos.plan.entryBarIdx < b < k
    && match QuoteFor(cfg, e.pos, bars[b].candle)
       case Some(q) => e.trade == Fill(cfg, e.pos, q, bars[b].candle, b)
       case None => false
  }

  ghost predicate AllHealthy(cfg: Config, start: nat, bars: seq<Bar>, k: nat, ps: seq<Position>)
    requires k <= |bars|
  {
    forall p :: p in ps ==> Healthy(cfg, start, bars, k, p)
  }

  ghost predicate AllGenuine(cfg: Config, start: nat, bars: seq<Bar>, k: nat, es: seq<Exit>)
    requires k <= |bars|
  {
    forall e :: e in es ==> Genuine(cfg, start, bars, k, e)
  }

  lemma {:induction false} HealthyLater(cfg: Config, start: nat, bars: seq<Bar>, k: nat, ps: seq<Position>, es: seq<Exit>)
    requires k < |bars|
    requires AllHealthy(cfg, start, bars, k, ps) && AllGenuine(cfg, start, bars, k, es)
    ensures AllHealthy(cfg, start, bars, k + 1, ps) && AllGenuine(cfg, start, bars, k + 1, es)
  {
    forall e | e in es
      ensures Genuine(cfg, start, bars, k + 1, e)
    {
      assert Genuine(cfg, start, bars, k, e);
    }
  }

  lemma {:induction false} SurvivorsStayHealthy(cfg: Config, start: nat, bars: seq<Bar>, k: nat, ps: seq<Position>, n: nat)
    requires k < |bars| && n <= |ps| && AllHealthy(cfg, start, bars, k, ps)
    ensures AllHealthy(cfg, start, bars, k, Survivors(cfg, ps, n, bars[k].candle))
  {
    if n > 0 {
      SurvivorsStayHealthy(cfg, start, bars, k, ps, n - 1);
      KeptStaysHealthy(cfg, start, bars, k, ps[n - 1]);
    }
  }

  lemma {:induction false} KeptStaysHealthy(cfg: Config, start: nat, bars: seq<Bar>, k: nat, p: Position)
    requires k < |bars| && Healthy(cfg, start, bars, k, p)
    ensures AllHealthy(cfg, start, bars, k, Kept(cfg, p, bars[k].candle))
  {
    ManageKeepsOrder(cfg, p, bars[k].candle);
  }

  lemma {:induction false} ExitsAreGenuine(cfg: Config, start: nat, bars: seq<Bar>, k: nat, ps: seq<Position>, n: nat)
    requires k < |bars| && n <= |ps| && AllHealthy(cfg, start, bars, k, ps)
    ensures AllGenuine(cfg, start, bars, k + 1, Exits(cfg, ps, n, bars[k].candle, k))
  {
    if n > 0 {
      ExitsAreGenuine(cfg, start, bars, k, ps, n - 1);
      ExitIsGenuine(cfg, start, bars, k, ps[n - 1]);
      AppendGenuine(cfg, start, bars, k + 1, Exits(cfg, ps, n - 1, bars[k].candle, k), ExitOf(cfg, ps[n - 1], bars[k].candle, k));
    }
  }

  lemma {:induction false} AppendGenuine(cfg: Config, start: nat, bars: seq<Bar>, k: nat, a: seq<Exit>, b: seq<Exit>)
    requires k <= |bars| && AllGenuine(cfg, start, bars, k, a) && AllGenuine(cfg, start, bars, k, b)
    ensures AllGenuine(cfg, start, bars, k, a + b)
  {
  }

  lemma {:induction false} ExitIsGenuine(cfg: Config, start: nat, bars: seq<Bar>, k: nat, p: Position)
    requires k < |bars| && Healthy(cfg, start, bars, k, p)
    ensures AllGenuine(cfg, start, bars, k + 1, ExitOf(cfg, p, bars[k].candle, k))
  {
  }

  lemma {:induction false} OpeningIsHealthy(cfg: Config, start: nat, bars: seq<Bar>, i: nat)
    requires i < |bars|
    requires Opens(cfg, Settled(cfg, After(cfg, start, bars, i), bars[i], i), bars[i])
    ensures Healthy(cfg, start, bars, i + 1, OpenedPosition(cfg, Settled(cfg, After(cfg, start, bars, i), bars[i], i), bars[i], i))
  {
    BalanceConserved(cfg, start, bars, i);
    SettledBalance(cfg, After(cfg, start, bars, i), bars[i], i);
  }

  /** Every position of every run, open or closed, is the one its bar's signal asked for. */
  lemma {:induction false} OpenedAsSignalled(cfg: Config, start: nat, bars: seq<Bar>, k: nat)
    requires k <= |bars|
    ensures var b := After(cfg, start, bars, k).book;
      && (forall p :: p in b.open ==> 0 <= p.plan.entryBarIdx < k && AsSignalled(cfg, p, bars[p.plan.entryBarIdx]))
      && forall e :: e in b.exits ==> 0 <= e.pos.plan.entryBarIdx < k && AsSignalled(cfg, e.pos, bars[e.pos.plan.entryBarIdx])
  {
    PositionsHealthy(cfg, start, bars, k);
    forall p | p in After(cfg, start, bars, k).book.open
      ensures 0 <= p.plan.entryBarIdx < k && AsSignalled(cfg, p, bars[p.plan.entryBarIdx])
    {
      SizeInPlainPrices(cfg, p, bars[p.plan.entryBarIdx]);
    }
    forall e | e in After(cfg, start, bars, k).book.exits
      ensures 0 <= e.pos.plan.entryBarIdx < k && AsSignalled(cfg, e.pos, bars[e.pos.plan.entryBarIdx])
    {
      assert Genuine(cfg, start, bars, k, e);
      SizeInPlainPrices(cfg, e.pos, bars[e.pos.plan.entryBarIdx]);
    }
  }

  /** Every open position and every exit of every reachable state is as described above. */
  lemma {:induction false} PositionsHealthy(cfg: Config, start: nat, bars: seq<Bar>, k: nat)
    requires k <= |bars|
    ensures AllHealthy(cfg, start, bars, k, After(cfg, start, bars, k).book.open)
    ensures AllGenuine(cfg, start, bars, k, After(cfg, start, bars, k).book.exits)
  {
    if k > 0 {
      PositionsHealthy(cfg, start, bars, k - 1);
      StepKeepsHealthy(cfg, start, bars, k - 1, After(cfg, start, bars, k - 1));
    }
  }

  lemma {:induction false} StepKeepsHealthy(cfg: Config, start: nat, bars: seq<Bar>, i: nat, s: State)
    requires i < |bars| && s == After(cfg, start, bars, i)
    requires AllHealthy(cfg, start, bars, i, s.book.open) && AllGenuine(cfg, start, bars, i, s.book.exits)
    ensures var r := Step(cfg, start, s, bars[i], i).book;
      AllHealthy(cfg, start, bars, i + 1, r.open) && AllGenuine(cfg, start, bars, i + 1, r.exits)
  {
    HealthyLater(cfg, start, bars, i, s.book.open, s.book.exits);
    if bars[i].ready {
      var r := Settled(cfg, s, bars[i], i);
      SettledEffect(cfg, s, bars[i], i);
      SurvivorsStayHealthy(cfg, start, bars, i, s.book.open, |s.book.open|);
      HealthyLater(cfg, start, bars, i, r.book.open, []);
      ExitsAreGenuine(cfg, start, bars, i, s.book.open, |s.book.open|);
      if i >= start {
        DecideEffect(cfg, r, bars[i], i);
        if Opens(cfg, r, bars[i]) {
          OpeningIsHealthy(cfg, start, bars, i);
        }
      }
    }
  }

  // ----- The consequences for a trade -----

  /** The account can afford the smallest lot at this stop distance. */
  predicate Affordable(cfg: Config, p: Position) {
    RiskPerUnit(cfg, p.plan.entryPrice, p.plan.originalSL) * MIN_LOT <= p.balanceAtOpen * cfg.maxRiskPerTrade
  }

  /** The loss at the original stop stays within the budget exactly when the smallest lot does; for a stop away from
      the entry, that is exactly when the size was not raised to the smallest lot. */
  lemma {:induction false} RiskWithinBudget(cfg: Config, p: Position)
    requires Sized(cfg, p) && cfg.contractSize > 0.0
    ensures RiskPerUnit(cfg, p.plan.entryPrice, p.plan.originalSL) * p.plan.size <= p.balanceAtOpen * cfg.maxRiskPerTrade
            <==> Affordable(cfg, p)
    ensures RiskPerUnit(cfg, p.plan.entryPrice, p.plan.originalSL) != 0.0 ==>
              (Affordable(cfg, p) <==>
               p.balanceAtOpen * cfg.maxRiskPerTrade / RiskPerUnit(cfg, p.plan.entryPrice, p.plan.originalSL) >= MIN_LOT)
  {
    var budget := RiskAmount(cfg, p.balanceAtOpen, 1.0);
    var perUnit := RiskPerUnit(cfg, p.plan.entryPrice, p.plan.originalSL);
    assert budget == p.balanceAtOpen * cfg.maxRiskPerTrade;
    PerUnitNonNegative(cfg, p.plan.entryPrice, p.plan.originalSL);
    if perUnit > 0.0 {
      var raw := budget / perUnit;
      assert raw * perUnit == budget;
      Reals.ScaleOrder(perUnit, p.plan.size, raw);
      Reals.ScaleOrder(perUnit, MIN_LOT, raw);
    }
  }

  lemma {:induction false} PerUnitNonNegative(cfg: Config, entry: real, stop: real)
    requires cfg.contractSize > 0.0
    ensures RiskPerUnit(cfg, entry, stop) >= 0.0
  {
  }

  /** A stopped-out position never loses more, before costs, than it risked at its original stop,
      wherever break-even and trailing have moved the stop in between. */
  lemma {:induction false} StopLossBounded(cfg: Config, p: Position)
    requires StopsInOrder(p) && Sized(cfg, p) && cfg.contractSize > 0.0
    ensures -GrossPnL(cfg, p.plan, p.stopLoss) <= RiskPerUnit(cfg, p.plan.entryPrice, p.plan.originalSL) * p.plan.size
  {
    LostAtMostDistance(p);
    LossAgainstRisk(cfg, p.plan, p.stopLoss);
  }

  lemma {:induction false} LostAtMostDistance(p: Position)
    requires StopsInOrder(p)
    ensures -Gain(p.plan, p.stopLoss) <= Reals.Abs(p.plan.entryPrice - p.plan.originalSL)
  {
  }

  lemma {:induction false} LossAgainstRisk(cfg: Config, plan: Plan, price: real)
    requires -Gain(plan, price) <= Reals.Abs(plan.entryPrice - plan.originalSL) && plan.size > 0.0 && cfg.contractSize > 0.0
    ensures -GrossPnL(cfg, plan, price) <= RiskPerUnit(cfg, plan.entryPrice, plan.originalSL) * plan.size
  {
    var gain, distance := Gain(plan, price), Reals.Abs(plan.entryPrice - plan.originalSL);
    var k := plan.size * cfg.contractSize;
    assert k > 0.0;
    Reals.ScaleOrder(k, -gain, distance);
    assert GrossPnL(cfg, plan, price) == gain * plan.size * cfg.contractSize == k * gain;
    assert RiskPerUnit(cfg, plan.entryPrice, plan.originalSL) * plan.size == distance * cfg.contractSize * plan.size == k * distance;
  }

  /** The headline: in every run, every stopped-out position whose smallest lot the account could afford
      lost at most the configured fraction of the balance at the time it was opened. */
  lemma {:induction false} StopLossWithinBudget(cfg: Config, start: nat, bars: seq<Bar>, k: nat, j: nat)
    requires k <= |bars| && cfg.contractSize > 0.0
    requires j < |After(cfg, start, bars, k).book.exits|
    ensures var e := After(cfg, start, bars, k).book.exits[j];
      e.trade.exitReason == StopLossExit && Affordable(cfg, e.pos) ==>
        && 0 <= e.trade.entryBarIdx < |bars|
        && -GrossPnL(cfg, e.pos.plan, e.trade.exitPrice)
           <= BookAt(cfg, start, bars, e.trade.entryBarIdx).balance * cfg.maxRiskPerTrade
  {
    PositionsHealthy(cfg, start, bars, k);
    var e := After(cfg, start, bars, k).book.exits[j];
    assert Genuine(cfg, start, bars, k, e);
    if e.trade.exitReason == StopLossExit && Affordable(cfg, e.pos) {
      StopLossBounded(cfg, e.pos);
      RiskWithinBudget(cfg, e.pos);
    }
  }

  /** Exits of the event loop are stops or first targets; the second and third targets are unreachable.
      With the stop on the losing side at entry a stop costs at most one R, and none at all after break-even. */
  lemma {:induction false} ExitsAndMultiples(cfg: Config, start: nat, bars: seq<Bar>, k: nat, j: nat)
    requires k <= |bars|
    requires j < |After(cfg, start, bars, k).book.exits|
    ensures var e := After(cfg, start, bars, k).book.exits[j];
      && (e.trade.exitReason == StopLossExit || e.trade.exitReason == TakeProfit1)
      && e.trade.holdingBars >= 1
      && (e.trade.exitReason == StopLossExit && Risk(e.pos.plan) > 0.0 ==> e.trade.realizedR >= -1.0)
      && (e.trade.exitReason == StopLossExit && e.pos.breakEvenSet ==> e.trade.realizedR >= 0.0)
      && (e.trade.exitReason == TakeProfit1 && Placed(e.pos.plan) ==> e.trade.realizedR > 0.0)
  {
    PositionsHealthy(cfg, start, bars, k);
    var e := After(cfg, start, bars, k).book.exits[j];
    assert Genuine(cfg, start, bars, k, e);
    if Risk(e.pos.plan) > 0.0 {
      QuotientOrder(Gain(e.pos.plan, e.trade.exitPrice), Risk(e.pos.plan));
    }
  }

  lemma {:induction false} QuotientOrder(gain: real, risk: real)
    requires risk > 0.0
    ensures gain >= -risk ==> gain / risk >= -1.0
    ensures gain >= 0.0 ==> gain / risk >= 0.0
    ensures gain > 0.0 ==> gain / risk > 0.0
  {
    var q := gain / risk;
    assert q * risk == gain;
  }

  // ----- The bracket: stop below target -----

  /** The strategy put the stop on the losing side and the target on the winning side of the entry. */
  predicate Placed(p: Plan) {
    Risk(p) > 0.0 && Gain(p, p.tp1) > 0.0
  }

  predicate Bracketed(p: Position) {
    Placed(p.plan) ==> Gain(p.plan, p.stopLoss) < Gain(p.plan, p.plan.tp1)
  }

  /** A candle that closes nothing leaves the stop short of the target. */
  lemma {:induction false} ManageKeepsBracket(cfg: Config, p: Position, c: Candle)
    requires StopsInOrder(p) && Bracketed(p) && QuoteFor(cfg, p, c) == None
    requires c.WellFormed() && cfg.trailingATRMult >= 0.0
    ensures Bracketed(Manage(cfg, p, c))
  {
    TrailBehindClose(cfg, p.plan, c);
    UntouchedTarget(cfg, p, c);
  }

  lemma {:induction false} TrailBehindClose(cfg: Config, plan: Plan, c: Candle)
    requires c.WellFormed() && cfg.trailingATRMult >= 0.0
    ensures Gain(plan, TrailLevel(cfg, plan.direction, c)) <= Gain(plan, c.close)
  {
    assert (c.high - c.low) * cfg.trailingATRMult >= 0.0;
  }

  /** If a well-ordered position is not closed, the close stays short of its first target. */
  lemma {:induction false} UntouchedTarget(cfg: Config, p: Position, c: Candle)
    requires StopsInOrder(p) && QuoteFor(cfg, p, c) == None && c.WellFormed()
    ensures Gain(p.plan, c.close) < Gain(p.plan, p.plan.tp1)
  {
  }

  predicate AllBracketed(ps: seq<Position>) {
    forall p :: p in ps ==> StopsInOrder(p) && Bracketed(p)
  }

  lemma {:induction false} SurvivorsStayBracketed(cfg: Config, ps: seq<Position>, n: nat, c: Candle)
    requires n <= |ps| && c.WellFormed() && cfg.trailingATRMult >= 0.0
    requires AllBracketed(ps)
    ensures AllBracketed(Survivors(cfg, ps, n, c))
  {
    if n > 0 {
      SurvivorsStayBracketed(cfg, ps, n - 1, c);
      if QuoteFor(cfg, ps[n - 1], c) == None {
        ManageKeepsOrder(cfg, ps[n - 1], c);
        ManageKeepsBracket(cfg, ps[n - 1], c);
      }
    }
  }

  lemma {:induction false} FreshBracketed(plan: Plan, balance: real)
    requires plan.tp1 != 0.0
    ensures StopsInOrder(FreshPosition(plan, balance)) && Bracketed(FreshPosition(plan, balance))
  {
  }

  /** In every reachable state, every well-placed open position has original stop <= stop < target. */
  lemma {:induction false} OpenPositionsBracketed(cfg: Config, start: nat, bars: seq<Bar>, k: nat)
    requires k <= |bars| && cfg.trailingATRMult >= 0.0
    requires forall i :: 0 <= i < |bars| ==> bars[i].candle.WellFormed()
    ensures AllBracketed(After(cfg, start, bars, k).book.open)
  {
    var inv := (s: State, i: nat) => AllBracketed(s.book.open);
    forall s: State, i: nat | i < k && inv(s, i)
      ensures inv(Step(cfg, start, s, bars[i], i), i + 1)
    {
      StepKeepsBracketed(cfg, start, s, bars[i], i);
    }
    Always(cfg, start, bars, k, inv);
  }

  lemma {:induction false} StepKeepsBracketed(cfg: Config, start: nat, s: State, bar: Bar, i: nat)
    requires AllBracketed(s.book.open) && cfg.trailingATRMult >= 0.0 && bar.candle.WellFormed()
    ensures AllBracketed(Step(cfg, start, s, bar, i).book.open)
  {
    var r := Settled(cfg, s, bar, i);
    SettledEffect(cfg, s, bar, i);
    SurvivorsStayBracketed(cfg, s.book.open, |s.book.open|, bar.candle);
    DecideEffect(cfg, r, bar, i);
    if Opens(cfg, r, bar) {
      FreshBracketed(PlanFor(cfg, r.book, bar, i), r.book.balance);
    }
  }

  /** The stop moves back exactly on a bar where break-even fires after trailing had already carried the stop past
      the entry: break-even assigns the entry unconditionally. Break-even is then set, so it happens at most once. */
  lemma {:induction false} StopRetreatsExactlyWhen(cfg: Config, p: Position, c: Candle)
    ensures Retreats(cfg, p, c) <==>
      && BreakEvenFires(cfg, p, c)
      && Gain(p.plan, p.stopLoss) > 0.0
      && !(cfg.trailingStopEnabled && !Tighter(p.plan.direction, p.stopLoss, TrailLevel(cfg, p.plan.direction, c)))
    ensures Retreats(cfg, p, c) ==> !p.breakEvenSet && Manage(cfg, p, c).breakEvenSet
    ensures p.breakEvenSet ==> !Retreats(cfg, p, c) && Manage(cfg, p, c).breakEvenSet
  {
  }

  /** Managing the position loosens its stop. */
  predicate Retreats(cfg: Config, p: Position, c: Candle) {
    Tighter(p.plan.direction, p.stopLoss, Manage(cfg, p, c).stopLoss)
  }

  /** A long from 100 risking 10 towards 200, break-even at 2R, trailing by one candle range: the first candle
      leaves it open and trails the stop to 118, the second leaves it open and pulls the stop back to 110. */
  lemma {:induction false} StopRetreatWitness(cfg: Config, b: Book, p: Position)
    requires cfg.breakEvenEnabled && cfg.breakEvenTriggerR == 2.0 && cfg.trailingStopEnabled && cfg.trailingATRMult == 1.0
    requires p.plan.direction == Buy && p.plan.entryPrice == 100.0 && p.plan.originalSL == 90.0 && p.plan.tp1 == 200.0
    requires p == FreshPosition(p.plan, p.balanceAtOpen) && b.open == [p]
    ensures var b1 := Update(cfg, b, Candle(1, 118.0, 119.0, 118.0, 119.0), 1);
      var b2 := Update(cfg, b1, Candle(2, 125.0, 130.0, 120.0, 120.0), 2);
      && b1.open == [p.(stopLoss := 118.0)]
      && b2.open == [p.(stopLoss := 110.0, breakEvenSet := true)]
  {
    var c1, c2 := Candle(1, 118.0, 119.0, 118.0, 119.0), Candle(2, 125.0, 130.0, 120.0, 120.0);
    var q := p.(stopLoss := 118.0);
    assert Kept(cfg, p, c1) == [q];
    assert Kept(cfg, q, c2) == [p.(stopLoss := 110.0, breakEvenSet := true)];
    assert Survivors(cfg, [p], 1, c1) == Survivors(cfg, [p], 0, c1) + [q];
    assert Survivors(cfg, [q], 1, c2) == Survivors(cfg, [q], 0, c2) + Kept(cfg, q, c2);
  }

  /** Recorded costs account for the whole difference between gross and realized profit, except that an
      end-of-data close charges swap without recording it. */
  lemma {:induction false} CostsReconcileExactlyWhen(cfg: Config, p: Position, q: Quote, c: Candle, bar: int)
    ensures var t := Fill(cfg, p, q, c, bar);
      t.realizedPnL == GrossPnL(cfg, p.plan, q.price) - (t.spreadCost + t.commissionCost + t.slippageCost + t.swapCost)
      <==> q.reason != EndOfData || SwapCharge(cfg, p.plan, c.time) == 0.0
  {
  }

  /** One lot held for one day at a swap rate of 1 and closed at the end of the data: the recorded costs miss 1. */
  lemma {:induction false} UnrecordedSwapWitness(cfg: Config, p: Position, c: Candle, bar: int)
    requires cfg.swapPerLotPerDay == 1.0 && p.plan.size == 1.0
    requires p.plan.entryTime == NANOS_PER_DAY && c.time == 2 * NANOS_PER_DAY
    ensures var t := Fill(cfg, p, Quote(c.close, EndOfData), c, bar);
      GrossPnL(cfg, p.plan, c.close) - t.realizedPnL == t.spreadCost + t.commissionCost + t.slippageCost + t.swapCost + 1.0
  {
    assert WholeDays(p.plan.entryTime, c.time) == 1;
    assert SwapCharge(cfg, p.plan, c.time) == 1.0;
  }
}
