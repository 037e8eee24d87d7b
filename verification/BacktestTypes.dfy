/** Values shared by the backtest engine: candles, configuration, positions and trades. */
module BacktestTypes {
  import opened Options

  /** What a strategy answers; `Other` is any answer the event loop does not know, such as ERROR or BUY_CANDIDATE. */
  datatype Direction = Buy | Sell | NoTrade | Blocked | Wait | Other(answer: string)

  datatype Candle = Candle(time: int, open: real, high: real, low: real, close: real)
  {
    predicate WellFormed() {
      low <= open <= high && low <= close <= high
    }
  }

  datatype Config = Config(
    startTime: int,
    initialBalance: real,
    spread: real,
    commission: real,
    contractSize: real,
    slippage: real,
    maxRiskPerTrade: real,
    maxPositions: int,
    maxDailyLossPct: real,
    trailingStopEnabled: bool,
    trailingATRMult: real,
    breakEvenEnabled: bool,
    breakEvenTriggerR: real,
    conservativeSLTP: bool,
    productionParity: bool,
    swapPerLotPerDay: real)

  /** The part of an open position that never changes after it is opened. */
  datatype Plan = Plan(
    tradeID: string,
    direction: Direction,
    entryPrice: real,
    originalSL: real,
    tp1: real,
    tp2: real,
    tp3: real,
    entryTime: int,
    entryBarIdx: int,
    size: real)

  /** A snapshot of one position; `balanceAtOpen` is a specification-only record. */
  datatype Position = Position(
    plan: Plan,
    balanceAtOpen: real,
    stopLoss: real,
    tp1Hit: bool,
    tp2Hit: bool,
    tp3Hit: bool,
    breakEvenSet: bool)

  datatype ExitReason = StopLossExit | TakeProfit1 | TakeProfit2 | TakeProfit3 | EndOfData

  datatype Trade = Trade(
    tradeID: string,
    direction: Direction,
    entryPrice: real,
    exitPrice: real,
    stopLoss: real,
    tp1: real,
    tp2: real,
    tp3: real,
    entryTime: int,
    exitTime: int,
    exitReason: ExitReason,
    size: real,
    realizedPnL: real,
    realizedR: real,
    spreadCost: real,
    commissionCost: real,
    slippageCost: real,
    swapCost: real,
    entryBarIdx: int,
    exitBarIdx: int,
    holdingBars: int)

  /** What the strategy evaluator returns for a bar. */
  datatype StrategyResult = StrategyResult(
    direction: Direction,
    entryPrice: real,
    stopLoss: real,
    tp1: real,
    tp2: real,
    tp3: real,
    rawScore: real,
    entryGatePassed: bool,
    isLossCandidate: bool,
    cooldownMinutes: int)

  /** One primary bar with everything the surrounding system contributes to it. */
  datatype Bar = Bar(
    candle: Candle,
    cancelled: bool,                   // the context was cancelled before this bar
    ready: bool,                       // the feature engine produced a state
    signal: StrategyResult,            // what the evaluator answers if asked
    tradeThreshold: Option<real>,      // the regime's trade bar, if one is configured
    tradeID: string)                   // the identifier drawn for a position opened here
}
