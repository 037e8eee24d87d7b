/** Specification of the trade tracker on values.

    Long and short positions are described once, in "signed" prices: a short is a long with every
    price negated. The tracker's two hand-written branches are proved equal to this single form.
 */
module Ledger {
  import opened Options
  import opened Durations
  import opened BacktestTypes

  /** An exit: the position as it stood when it was closed, and the trade recorded for it. */
  datatype Exit = Exit(pos: Position, trade: Trade)

  datatype Book = Book(
    open: seq<Position>,
    exits: seq<Exit>,
    balance: real,
    dailyPnL: real,
    currentDay: int,
    consecutiveLosses: int,
    recoveryMode: bool,
    recoverySizeMult: real)

  datatype Quote = Quote(price: real, reason: ExitReason)

  function Sign(d: Direction): real {
    if d == Buy then 1.0 else -1.0
  }

  function Day(t: int): int {
    t - t % NANOS_PER_DAY
  }

  /** The move from entry to `price` in the position's favour, per unit. */
  function Gain(p: Plan, price: real): real {
    Sign(p.direction) * (price - p.entryPrice)
  }

  /** The initial risk per unit: positive when the stop is on the losing side of the entry. */
  function Risk(p: Plan): real {
    -Gain(p, p.originalSL)
  }

  function Adverse(d: Direction, c: Candle): real {
    if d == Buy then c.low else c.high
  }

  function Favourable(d: Direction, c: Candle): real {
    if d == Buy then c.high else c.low
  }

  predicate StopTouched(p: Position, c: Candle) {
    Sign(p.plan.direction) * (Adverse(p.plan.direction, c) - p.stopLoss) <= 0.0
  }

  predicate TargetTouched(p: Position, target: real, c: Candle) {
    target != 0.0 && Sign(p.plan.direction) * (Favourable(p.plan.direction, c) - target) >= 0.0
  }

  /** The price and reason at which the candle closes the position, if it does. */
  function QuoteFor(cfg: Config, p: Position, c: Candle): Option<Quote> {
    if cfg.conservativeSLTP then
      if p.stopLoss != 0.0 && StopTouched(p, c) then Some(Quote(p.stopLoss, StopLossExit))
      else if TargetTouched(p, p.plan.tp1, c) && !p.tp1Hit then Some(Quote(p.plan.tp1, TakeProfit1))
      else if TargetTouched(p, p.plan.tp2, c) && p.tp1Hit && !p.tp2Hit then Some(Quote(p.plan.tp2, TakeProfit2))
      else if TargetTouched(p, p.plan.tp3, c) && p.tp2Hit && !p.tp3Hit then Some(Quote(p.plan.tp3, TakeProfit3))
      else None
    else
      if TargetTouched(p, p.plan.tp1, c) && !p.tp1Hit then Some(Quote(p.plan.tp1, TakeProfit1))
      else if StopTouched(p, c) then Some(Quote(p.stopLoss, StopLossExit))
      else None
  }

  /** Whole days between two instants, truncated toward zero. */
  function WholeDays(from: int, to: int): int {
    if to >= from then (to - from) / NANOS_PER_DAY else -((from - to) / NANOS_PER_DAY)
  }

  function SwapCharge(cfg: Config, p: Plan, now: int): real {
    var days := WholeDays(p.entryTime, now);
    if days > 0 then cfg.swapPerLotPerDay * p.size * (days as real) else 0.0
  }

  function GrossPnL(cfg: Config, p: Plan, price: real): real {
    Gain(p, price) * p.size * cfg.contractSize
  }

  function SpreadCost(cfg: Config, p: Plan): real { cfg.spread * p.size }
  function CommissionCost(cfg: Config, p: Plan): real { cfg.commission * p.size }
  function SlippageCost(cfg: Config, p: Plan): real { cfg.slippage * p.size * cfg.contractSize }

  function Costs(cfg: Config, p: Plan, now: int): real {
    SpreadCost(cfg, p) + CommissionCost(cfg, p) + SlippageCost(cfg, p) + SwapCharge(cfg, p, now)
  }

  /** Profit per unit in multiples of the initial risk. */
  function Multiple(p: Plan, price: real): real {
    if Risk(p) == 0.0 then 0.0 else Gain(p, price) / Risk(p)
  }

  /** The trade recorded when `p` is closed; an end-of-data close charges swap but does not record it. */
  function Fill(cfg: Config, p: Position, q: Quote, c: Candle, bar: int): Trade {
    var plan := p.plan;
    Trade(
      plan.tradeID, plan.direction, plan.entryPrice, q.price, p.stopLoss,
      plan.tp1, plan.tp2, plan.tp3, plan.entryTime, c.time, q.reason, plan.size,
      GrossPnL(cfg, plan, q.price) - Costs(cfg, plan, c.time), Multiple(plan, q.price),
      SpreadCost(cfg, plan), CommissionCost(cfg, plan), SlippageCost(cfg, plan),
      if q.reason == EndOfData then 0.0 else SwapCharge(cfg, plan, c.time),
      plan.entryBarIdx, bar, bar - plan.entryBarIdx)
  }

  predicate BreakEvenFires(cfg: Config, p: Position, c: Candle) {
    cfg.breakEvenEnabled && !p.breakEvenSet && Risk(p.plan) > 0.0
    && Gain(p.plan, c.close) >= Risk(p.plan) * cfg.breakEvenTriggerR
  }

  function TrailLevel(cfg: Config, d: Direction, c: Candle): real {
    c.close - Sign(d) * ((c.high - c.low) * cfg.trailingATRMult)
  }

  /** `a` is a strictly better stop than `b` for direction `d`. */
  predicate Tighter(d: Direction, a: real, b: real) {
    Sign(d) * (a - b) > 0.0
  }

  /** Break-even and trailing adjustment of a position the candle left open. */
  function Manage(cfg: Config, p: Position, c: Candle): Position {
    var d := p.plan.direction;
    var fires := BreakEvenFires(cfg, p, c);
    var stop := if fires then p.plan.entryPrice else p.stopLoss;
    var trail := TrailLevel(cfg, d, c);
    p.(stopLoss := if cfg.trailingStopEnabled && Tighter(d, trail, stop) then trail else stop,
       breakEvenSet := p.breakEvenSet || fires)
  }

  /** What a candle makes of one position: either an exit or the position with its stop adjusted. */
  function ExitOf(cfg: Config, p: Position, c: Candle, bar: int): seq<Exit> {
    match QuoteFor(cfg, p, c)
    case Some(q) => [Exit(p, Fill(cfg, p, q, c, bar))]
    case None => []
  }

  function Kept(cfg: Config, p: Position, c: Candle): seq<Position> {
    if QuoteFor(cfg, p, c).None? then [Manage(cfg, p, c)] else []
  }

  /** The exits a candle causes among the first `n` of `ps`, in order. */
  function Exits(cfg: Config, ps: seq<Position>, n: nat, c: Candle, bar: int): seq<Exit>
    requires n <= |ps|
  {
    if n == 0 then [] else Exits(cfg, ps, n - 1, c, bar) + ExitOf(cfg, ps[n - 1], c, bar)
  }

  /** The positions a candle leaves open among the first `n` of `ps`, in order. */
  function Survivors(cfg: Config, ps: seq<Position>, n: nat, c: Candle): seq<Position>
    requires n <= |ps|
  {
    if n == 0 then [] else Survivors(cfg, ps, n - 1, c) + Kept(cfg, ps[n - 1], c)
  }

  /** Profit of the first `n` exits. */
  function TotalPnL(es: seq<Exit>, n: nat): real
    requires n <= |es|
  {
    if n == 0 then 0.0 else TotalPnL(es, n - 1) + es[n - 1].trade.realizedPnL
  }

  /** The loss streak after the first `n` exits: a win clears it, a scratch leaves it alone. */
  function LossStreak(start: int, es: seq<Exit>, n: nat): int
    requires n <= |es|
  {
    if n == 0 then start
    else if es[n - 1].trade.realizedPnL < 0.0 then LossStreak(start, es, n - 1) + 1
    else if es[n - 1].trade.realizedPnL > 0.0 then 0
    else LossStreak(start, es, n - 1)
  }

  predicate AnyWin(es: seq<Exit>, n: nat)
    requires n <= |es|
  {
    n > 0 && (AnyWin(es, n - 1) || es[n - 1].trade.realizedPnL > 0.0)
  }

  function Rollover(b: Book, now: int): Book {
    if b.currentDay == 0 then b.(currentDay := Day(now))
    else if Day(now) != b.currentDay then b.(currentDay := Day(now), dailyPnL := 0.0)
    else b
  }

  /** The accounts after one exit; the open positions are untouched. */
  function AbsorbOne(b: Book, e: Exit): Book {
    var pnl := e.trade.realizedPnL;
    var leavesRecovery := b.recoveryMode && pnl > 0.0;
    b.(exits := b.exits + [e],
       balance := b.balance + pnl,
       dailyPnL := b.dailyPnL + pnl,
       consecutiveLosses := if pnl < 0.0 then b.consecutiveLosses + 1 else if pnl > 0.0 then 0 else b.consecutiveLosses,
       recoveryMode := b.recoveryMode && !leavesRecovery,
       recoverySizeMult := if leavesRecovery then 1.0 else b.recoverySizeMult)
  }

  /** The accounts after taking up the exits `es`; the open positions are untouched. */
  function Absorb(b: Book, es: seq<Exit>): Book {
    var won := b.recoveryMode && AnyWin(es, |es|);
    b.(exits := b.exits + es,
       balance := b.balance + TotalPnL(es, |es|),
       dailyPnL := b.dailyPnL + TotalPnL(es, |es|),
       consecutiveLosses := LossStreak(b.consecutiveLosses, es, |es|),
       recoveryMode := b.recoveryMode && !won,
       recoverySizeMult := if won then 1.0 else b.recoverySizeMult)
  }

  function Update(cfg: Config, b: Book, c: Candle, bar: int): Book {
    Absorb(b, Exits(cfg, b.open, |b.open|, c, bar)).(open := Survivors(cfg, b.open, |b.open|, c))
  }

  /** The first `n` of `ps` closed at the candle's close. */
  function Liquidations(cfg: Config, ps: seq<Position>, n: nat, c: Candle, bar: int): seq<Exit>
    requires n <= |ps|
  {
    if n == 0 then []
    else
      var p := ps[n - 1];
      Liquidations(cfg, ps, n - 1, c, bar) + [Exit(p, Fill(cfg, p, Quote(c.close, EndOfData), c, bar))]
  }

  /** An end-of-data close moves the balance but none of the risk counters. */
  function LiquidateOne(b: Book, e: Exit): Book {
    b.(exits := b.exits + [e], balance := b.balance + e.trade.realizedPnL)
  }

  function Liquidate(b: Book, es: seq<Exit>): Book {
    b.(exits := b.exits + es, balance := b.balance + TotalPnL(es, |es|))
  }

  function CloseAll(cfg: Config, b: Book, c: Candle, bar: int): Book {
    Liquidate(b, Liquidations(cfg, b.open, |b.open|, c, bar)).(open := [])
  }

  function DailyLossPct(cfg: Config, dailyPnL: real): real {
    if cfg.initialBalance == 0.0 then 0.0 else dailyPnL / cfg.initialBalance * 100.0
  }

  /** `ts` are the trades of `es`, in order. */
  predicate TradesAre(ts: seq<Trade>, es: seq<Exit>) {
    |ts| == |es| && forall i :: 0 <= i < |ts| ==> ts[i] == es[i].trade
  }

  function NewBook(cfg: Config): Book {
    Book([], [], cfg.initialBalance, 0.0, 0, 0, false, 1.0)
  }

  lemma {:induction false} TotalsOfPrefix(start: int, a: seq<Exit>, b: seq<Exit>, n: nat)
    requires n <= |a|
    ensures TotalPnL(a + b, n) == TotalPnL(a, n)
    ensures LossStreak(start, a + b, n) == LossStreak(start, a, n)
    ensures AnyWin(a + b, n) == AnyWin(a, n)
  {
    if n > 0 {
      TotalsOfPrefix(start, a, b, n - 1);
    }
  }

  /** Taking up exits one at a time is taking them up together. */
  lemma {:induction false} AbsorbAppend(b: Book, es: seq<Exit>, e: Exit)
    ensures Absorb(b, es + [e]) == AbsorbOne(Absorb(b, es), e)
    ensures Liquidate(b, es + [e]) == LiquidateOne(Liquidate(b, es), e)
  {
    TotalsOfPrefix(b.consecutiveLosses, es, [e], |es|);
    assert b.exits + (es + [e]) == b.exits + es + [e];
  }

  lemma {:induction false} AbsorbNothing(b: Book)
    ensures Absorb(b, []) == b == Liquidate(b, [])
  {
    assert b.exits + [] == b.exits;
  }

  lemma {:induction false} TotalPnLAppend(a: seq<Exit>, b: seq<Exit>, n: nat)
    requires n <= |b|
    ensures TotalPnL(a + b, |a| + n) == TotalPnL(a, |a|) + TotalPnL(b, n)
  {
    if n == 0 {
      TotalsOfPrefix(0, a, b, |a|);
    } else {
      TotalPnLAppend(a, b, n - 1);
    }
  }

  /** Without a swap rate no swap is charged. */
  lemma {:induction false} FreeSwap(cfg: Config, p: Plan, now: int)
    requires cfg.swapPerLotPerDay == 0.0
    ensures SwapCharge(cfg, p, now) == 0.0
  {
    assert cfg.swapPerLotPerDay * p.size == 0.0;
    var days := WholeDays(p.entryTime, now) as real;
    assert 0.0 * days == 0.0;
  }

  lemma {:induction false} FillIgnoresFlags(cfg: Config, p: Position, p': Position, q: Quote, c: Candle, bar: int)
    requires p.plan == p'.plan && p.stopLoss == p'.stopLoss
    ensures Fill(cfg, p, q, c, bar) == Fill(cfg, p', q, c, bar)
  {
  }

  lemma {:induction false} UpdateByAccounts(cfg: Config, b: Book, c: Candle, bar: int)
    ensures Update(cfg, b, c, bar) ==
      Absorb(b.(open := []), Exits(cfg, b.open, |b.open|, c, bar)).(open := Survivors(cfg, b.open, |b.open|, c))
  {
  }
}
