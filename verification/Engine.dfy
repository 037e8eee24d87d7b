/** Specification of the event loop on values: one bar is one step, a run is a fold of steps. */
module Engine {
  import opened Options
  import opened Durations
  import opened BacktestTypes
  import opened Ledger
  import Reals

  datatype Counters = Counters(
    barsProcessed: int,
    blocked: int,
    parityBlocked: int,
    buySignals: int,
    sellSignals: int,
    noTrade: int)

  /** A position as it was opened, with the cooldown window its signal started (0 for none). */
  datatype Opening = Opening(pos: Position, cooldown: int)

  datatype State = State(book: Book, cooldownUntil: int, counters: Counters, openings: seq<Opening>)

  const MIN_LOT: real := 0.01
  const MAX_LOT: real := 10.0

  /** Money lost per lot if the price travels from entry to stop. */
  function RiskPerUnit(cfg: Config, entry: real, stop: real): real {
    Reals.Abs(entry - stop) * cfg.contractSize
  }

  /** Money the account is willing to lose on one trade. */
  function RiskAmount(cfg: Config, balance: real, mult: real): real {
    balance * cfg.maxRiskPerTrade * mult
  }

  function Size(riskAmount: real, riskPerUnit: real): real {
    var raw := if riskPerUnit != 0.0 then riskAmount / riskPerUnit else MIN_LOT;
    if raw < MIN_LOT then MIN_LOT else if raw > MAX_LOT then MAX_LOT else raw
  }

  predicate Directional(s: StrategyResult) {
    s.direction == Buy || s.direction == Sell
  }

  /** The signal would have been promoted by the live engine. */
  predicate Promotable(until: int, bar: Bar) {
    && !(until != 0 && bar.candle.time < until)
    && !(bar.tradeThreshold.Some? && bar.signal.rawScore < bar.tradeThreshold.value)
    && bar.signal.entryGatePassed
    && !bar.signal.isLossCandidate
  }

  function CooldownOf(s: StrategyResult): int {
    if s.cooldownMinutes > 0 then s.cooldownMinutes * NANOS_PER_MINUTE else 0
  }

  function PlanFor(cfg: Config, book: Book, bar: Bar, i: int): Plan {
    var s := bar.signal;
    var riskAmount := RiskAmount(cfg, book.balance, book.recoverySizeMult);
    Plan(bar.tradeID, s.direction, s.entryPrice, s.stopLoss, s.tp1, s.tp2, s.tp3, bar.candle.time, i,
         Size(riskAmount, RiskPerUnit(cfg, s.entryPrice, s.stopLoss)))
  }

  function FreshPosition(plan: Plan, balance: real): Position {
    Position(plan, balance, plan.originalSL, false, false, false, false)
  }

  function OpenTrade(cfg: Config, s: State, bar: Bar, i: int): State {
    var signal := bar.signal;
    if signal.stopLoss == 0.0 || signal.tp1 == 0.0 || signal.entryPrice == 0.0 then s
    else
      var pos := FreshPosition(PlanFor(cfg, s.book, bar, i), s.book.balance);
      var cooldown := CooldownOf(signal);
      s.(book := s.book.(open := s.book.open + [pos]),
         cooldownUntil := if cooldown > 0 then bar.candle.time + cooldown else s.cooldownUntil,
         openings := s.openings + [Opening(pos, cooldown)])
  }

  /** Rollover and stop/target checks: what every ready bar does first. */
  function Settled(cfg: Config, s: State, bar: Bar, i: int): State {
    s.(book := Update(cfg, Rollover(s.book, bar.candle.time), bar.candle, i))
  }

  function Enter(cfg: Config, s: State, bar: Bar, i: int): State {
    var c := s.counters;
    match bar.signal.direction
    case Buy => OpenTrade(cfg, s.(counters := c.(buySignals := c.buySignals + 1)), bar, i)
    case Sell => OpenTrade(cfg, s.(counters := c.(sellSignals := c.sellSignals + 1)), bar, i)
    case Blocked => s.(counters := c.(blocked := c.blocked + 1))
    case NoTrade => s.(counters := c.(noTrade := c.noTrade + 1))
    case Wait => s.(counters := c.(noTrade := c.noTrade + 1))
    case Other(_) => s
  }

  predicate DailyLimitHit(cfg: Config, dailyPnL: real) {
    DailyLossPct(cfg, dailyPnL) <= -cfg.maxDailyLossPct
  }

  datatype Verdict = AtLimit | NotPromotable | Clear

  function Gate(cfg: Config, book: Book, until: int, bar: Bar): Verdict {
    if DailyLimitHit(cfg, book.dailyPnL) || |book.open| >= cfg.maxPositions then AtLimit
    else if cfg.productionParity && Directional(bar.signal) && !Promotable(until, bar) then NotPromotable
    else Clear
  }

  /** The entry decision of a bar inside the backtest period. */
  function Decide(cfg: Config, s: State, bar: Bar, i: int): State {
    var c := s.counters.(barsProcessed := s.counters.barsProcessed + 1);
    match Gate(cfg, s.book, s.cooldownUntil, bar)
    case AtLimit => s.(counters := c.(blocked := c.blocked + 1))
    case NotPromotable => s.(counters := c.(parityBlocked := c.parityBlocked + 1))
    case Clear => Enter(cfg, s.(counters := c), bar, i)
  }

  function Step(cfg: Config, start: nat, s: State, bar: Bar, i: nat): State {
    if !bar.ready then s
    else if i < start then Settled(cfg, s, bar, i)
    else Decide(cfg, Settled(cfg, s, bar, i), bar, i)
  }

  function NewState(cfg: Config): State {
    State(NewBook(cfg), 0, Counters(0, 0, 0, 0, 0, 0), [])
  }

  /** The state after the first `k` bars. */
  function After(cfg: Config, start: nat, bars: seq<Bar>, k: nat): State
    requires k <= |bars|
  {
    if k == 0 then NewState(cfg) else Step(cfg, start, After(cfg, start, bars, k - 1), bars[k - 1], k - 1)
  }

  /** The first bar from `from` on before which the context was cancelled; the number of bars if there is none. */
  function Interruption(bars: seq<Bar>, from: nat): nat
    requires from <= |bars|
    decreases |bars| - from
  {
    if from == |bars| || bars[from].cancelled then from else Interruption(bars, from + 1)
  }

  lemma {:induction false} InterruptionIsFirst(bars: seq<Bar>, from: nat)
    requires from <= |bars|
    ensures var k := Interruption(bars, from);
      && from <= k <= |bars| && (k < |bars| ==> bars[k].cancelled)
      && forall i :: from <= i < k ==> !bars[i].cancelled
    decreases |bars| - from
  {
    if from < |bars| && !bars[from].cancelled {
      InterruptionIsFirst(bars, from + 1);
    }
  }

  /** The first bar at or after the configured start; the very first bar when there is none. */
  ghost predicate IsStart(bars: seq<Bar>, startTime: int, start: nat) {
    if exists i :: 0 <= i < |bars| && bars[i].candle.time >= startTime then
      && start < |bars| && bars[start].candle.time >= startTime
      && forall i :: 0 <= i < start ==> bars[i].candle.time < startTime
    else start == 0
  }

  /** The book when the run is over: everything still open is closed on the last candle. */
  function Closing(cfg: Config, b: Book, bars: seq<Bar>): Book
    requires |bars| > 0
  {
    CloseAll(cfg, b, bars[|bars| - 1].candle, |bars| - 1)
  }
}
