/** Bookkeeping over whole runs: every position closes exactly once, the daily limit and the cooldown
    hold at every entry, every processed bar is counted once, and the final report agrees with the account. */
module RunAccounting {
  import opened Durations
  import opened BacktestTypes
  import opened Ledger
  import opened Engine
  import opened RunProperties
  import Reals
  import Metrics

  // ----- Opened = still open + closed -----

  /** The plans of positions, of exits and of openings, with multiplicity. */
  function Plans(ps: seq<Position>, n: nat): multiset<Plan>
    requires n <= |ps|
  {
    if n == 0 then multiset{} else Plans(ps, n - 1) + multiset{ps[n - 1].plan}
  }

  function ExitPlans(es: seq<Exit>, n: nat): multiset<Plan>
    requires n <= |es|
  {
    if n == 0 then multiset{} else ExitPlans(es, n - 1) + multiset{es[n - 1].pos.plan}
  }

  function OpeningPlans(os: seq<Opening>, n: nat): multiset<Plan>
    requires n <= |os|
  {
    if n == 0 then multiset{} else OpeningPlans(os, n - 1) + multiset{os[n - 1].pos.plan}
  }

  lemma {:induction false} PlansOfPrefix(ps: seq<Position>, qs: seq<Position>, n: nat)
    requires n <= |ps|
    ensures Plans(ps + qs, n) == Plans(ps, n)
  {
    if n > 0 {
      PlansOfPrefix(ps, qs, n - 1);
    }
  }

  lemma {:induction false} ExitPlansAppend(a: seq<Exit>, b: seq<Exit>, n: nat)
    requires n <= |b|
    ensures ExitPlans(a + b, |a| + n) == ExitPlans(a, |a|) + ExitPlans(b, n)
  {
    if n == 0 {
      ExitPlansOfPrefix(a, b, |a|);
    } else {
      ExitPlansAppend(a, b, n - 1);
      UnionRegrouped(ExitPlans(a, |a|), ExitPlans(b, n - 1), multiset{b[n - 1].pos.plan});
    }
  }

  lemma {:induction false} UnionRegrouped(x: multiset<Plan>, y: multiset<Plan>, z: multiset<Plan>)
    ensures (x + y) + z == x + (y + z)
  {
  }

  lemma {:induction false} ExitPlansOfPrefix(a: seq<Exit>, b: seq<Exit>, n: nat)
    requires n <= |a|
    ensures ExitPlans(a + b, n) == ExitPlans(a, n)
  {
    if n > 0 {
      ExitPlansOfPrefix(a, b, n - 1);
    }
  }

  lemma {:induction false} OpeningPlansOfPrefix(os: seq<Opening>, o: Opening, n: nat)
    requires n <= |os|
    ensures OpeningPlans(os + [o], n) == OpeningPlans(os, n)
  {
    if n > 0 {
      OpeningPlansOfPrefix(os, o, n - 1);
    }
  }

  /** A candle splits the open positions into survivors and exits: nothing is lost or duplicated. */
  lemma {:induction false} CandleSplits(cfg: Config, ps: seq<Position>, n: nat, c: Candle, bar: int)
    requires n <= |ps|
    ensures Plans(ps, n) == Bag(Survivors(cfg, ps, n, c), Exits(cfg, ps, n, c, bar))
  {
    if n > 0 {
      CandleSplits(cfg, ps, n - 1, c, bar);
      OneSplits(cfg, ps[n - 1], c, bar, Survivors(cfg, ps, n - 1, c), Exits(cfg, ps, n - 1, c, bar));
    }
  }

  function Bag(kept: seq<Position>, gone: seq<Exit>): multiset<Plan> {
    Plans(kept, |kept|) + ExitPlans(gone, |gone|)
  }

  lemma {:induction false} OneSplits(cfg: Config, p: Position, c: Candle, bar: int, kept: seq<Position>, gone: seq<Exit>)
    ensures Bag(kept + Kept(cfg, p, c), gone + ExitOf(cfg, p, c, bar)) == Bag(kept, gone) + multiset{p.plan}
  {
    PlansOfPrefix(kept, Kept(cfg, p, c), |kept|);
    ExitPlansOfPrefix(gone, ExitOf(cfg, p, c, bar), |gone|);
  }

  ghost predicate Partitioned(s: State) {
    OpeningPlans(s.openings, |s.openings|) == Bag(s.book.open, s.book.exits)
  }

  lemma {:induction false} Redistribute(os: seq<Opening>, ps: seq<Position>, done: seq<Exit>, kept: seq<Position>, gone: seq<Exit>)
    requires OpeningPlans(os, |os|) == Bag(ps, done) && Plans(ps, |ps|) == Bag(kept, gone)
    ensures OpeningPlans(os, |os|) == Bag(kept, done + gone)
  {
    ExitPlansAppend(done, gone, |gone|);
  }

  lemma {:induction false} SettlePartitions(cfg: Config, s: State, bar: Bar, i: int)
    requires Partitioned(s)
    ensures Partitioned(Settled(cfg, s, bar, i))
  {
    var ps := s.book.open;
    var es := Exits(cfg, ps, |ps|, bar.candle, i);
    SettledEffect(cfg, s, bar, i);
    CandleSplits(cfg, ps, |ps|, bar.candle, i);
    Redistribute(s.openings, ps, s.book.exits, Survivors(cfg, ps, |ps|, bar.candle), es);
  }

  lemma {:induction false} DecidePartitions(cfg: Config, s: State, bar: Bar, i: int)
    requires Partitioned(s)
    ensures Partitioned(Decide(cfg, s, bar, i))
  {
    DecideEffect(cfg, s, bar, i);
    if Opens(cfg, s, bar) {
      var pos := OpenedPosition(cfg, s, bar, i);
      PlansOfPrefix(s.book.open, [pos], |s.book.open|);
      OpeningPlansOfPrefix(s.openings, Opening(pos, CooldownOf(bar.signal)), |s.openings|);
    }
  }

  /** In every reachable state the positions ever opened are the open ones and the closed ones, each once. */
  lemma {:induction false} OpenedIsOpenPlusClosed(cfg: Config, start: nat, bars: seq<Bar>, k: nat)
    requires k <= |bars|
    ensures Partitioned(After(cfg, start, bars, k))
  {
    var inv := (s: State, i: nat) => Partitioned(s);
    forall s: State, i: nat | i < k && inv(s, i)
      ensures inv(Step(cfg, start, s, bars[i], i), i + 1)
    {
      SettlePartitions(cfg, s, bars[i], i);
      DecidePartitions(cfg, Settled(cfg, s, bars[i], i), bars[i], i);
    }
    Always(cfg, start, bars, k, inv);
  }

  /** Openings are made at strictly increasing bars, so no two of them are the same position. */
  ghost predicate Chronological(os: seq<Opening>, k: nat) {
    && (forall o :: o in os ==> 0 <= o.pos.plan.entryBarIdx < k)
    && forall i, j :: 0 <= i < j < |os| ==> os[i].pos.plan.entryBarIdx < os[j].pos.plan.entryBarIdx
  }

  lemma {:induction false} OpeningsChronological(cfg: Config, start: nat, bars: seq<Bar>, k: nat)
    requires k <= |bars|
    ensures Chronological(After(cfg, start, bars, k).openings, k)
  {
    var inv := (s: State, i: nat) => Chronological(s.openings, i);
    forall s: State, i: nat | i < k && inv(s, i)
      ensures inv(Step(cfg, start, s, bars[i], i), i + 1)
    {
      StepChronological(cfg, start, s, bars[i], i);
    }
    Always(cfg, start, bars, k, inv);
  }

  lemma {:induction false} StepChronological(cfg: Config, start: nat, s: State, bar: Bar, i: nat)
    requires Chronological(s.openings, i)
    ensures Chronological(Step(cfg, start, s, bar, i).openings, i + 1)
  {
    SettledEffect(cfg, s, bar, i);
    DecideEffect(cfg, Settled(cfg, s, bar, i), bar, i);
  }

  // ----- Limits and counters -----

  ghost predicate WithinLimits(cfg: Config, s: State) {
    && (s.book.open == [] || |s.book.open| <= cfg.maxPositions)
    && Turnover(s.counters) <= s.counters.barsProcessed
    && |s.openings| <= s.counters.buySignals + s.counters.sellSignals
  }

  /** The position limit is never exceeded, no bar is counted twice, and no position is opened without a counted
      signal. */
  lemma {:induction false} LimitsAndCounters(cfg: Config, start: nat, bars: seq<Bar>, k: nat)
    requires k <= |bars|
    ensures WithinLimits(cfg, After(cfg, start, bars, k))
  {
    var inv := (s: State, i: nat) => WithinLimits(cfg, s);
    forall s: State, i: nat | i < k && inv(s, i)
      ensures inv(Step(cfg, start, s, bars[i], i), i + 1)
    {
      StepLimits(cfg, start, s, bars[i], i);
    }
    Always(cfg, start, bars, k, inv);
  }

  lemma {:induction false} StepLimits(cfg: Config, start: nat, s: State, bar: Bar, i: nat)
    requires WithinLimits(cfg, s)
    ensures WithinLimits(cfg, Step(cfg, start, s, bar, i))
  {
    SettledEffect(cfg, s, bar, i);
    FewerSurvive(cfg, s.book.open, |s.book.open|, bar.candle);
    DecideEffect(cfg, Settled(cfg, s, bar, i), bar, i);
  }

  /** Bar `i` is processed but appears in no outcome counter: no gate stops it and its answer is none the loop knows. */
  predicate Escapes(cfg: Config, start: nat, bars: seq<Bar>, i: nat)
    requires i < |bars|
  {
    EscapesFrom(cfg, start, After(cfg, start, bars, i), bars[i], i)
  }

  predicate EscapesFrom(cfg: Config, start: nat, s: State, bar: Bar, i: nat) {
    bar.ready && i >= start && !Counted(cfg, Settled(cfg, s, bar, i), bar)
  }

  function Missed(c: Counters): int {
    c.barsProcessed - Turnover(c)
  }

  lemma {:induction false} StepMisses(cfg: Config, start: nat, s: State, bar: Bar, i: nat)
    ensures Missed(Step(cfg, start, s, bar, i).counters)
            == Missed(s.counters) + if EscapesFrom(cfg, start, s, bar, i) then 1 else 0
  {
    SettledEffect(cfg, s, bar, i);
    DecideEffect(cfg, Settled(cfg, s, bar, i), bar, i);
  }

  /** How many of the first `k` bars escape the counters. */
  function Escaped(cfg: Config, start: nat, bars: seq<Bar>, k: nat): nat
    requires k <= |bars|
  {
    if k == 0 then 0 else Escaped(cfg, start, bars, k - 1) + if Escapes(cfg, start, bars, k - 1) then 1 else 0
  }

  /** The outcome counters miss exactly the bars that escape them. */
  lemma {:induction false} CountersMissEscaped(cfg: Config, start: nat, bars: seq<Bar>, k: nat)
    requires k <= |bars|
    ensures MissedAfter(cfg, start, bars, k) == Escaped(cfg, start, bars, k)
  {
    if k > 0 {
      CountersMissEscaped(cfg, start, bars, k - 1);
      NextMissed(cfg, start, bars, k);
    }
  }

  function MissedAfter(cfg: Config, start: nat, bars: seq<Bar>, k: nat): int
    requires k <= |bars|
  {
    Missed(After(cfg, start, bars, k).counters)
  }

  lemma {:induction false} NextMissed(cfg: Config, start: nat, bars: seq<Bar>, k: nat)
    requires 0 < k <= |bars|
    ensures MissedAfter(cfg, start, bars, k)
            == MissedAfter(cfg, start, bars, k - 1) + if Escapes(cfg, start, bars, k - 1) then 1 else 0
  {
    StepMisses(cfg, start, After(cfg, start, bars, k - 1), bars[k - 1], k - 1);
  }

  lemma {:induction false} NoneEscaped(cfg: Config, start: nat, bars: seq<Bar>, k: nat)
    requires k <= |bars|
    ensures Escaped(cfg, start, bars, k) == 0 <==> forall i :: 0 <= i < k ==> !Escapes(cfg, start, bars, i)
  {
    if k > 0 {
      NoneEscaped(cfg, start, bars, k - 1);
    }
  }

  /** Every processed bar ends up in exactly one outcome counter exactly when no bar that passed all gates was
      answered with something the loop does not know. */
  lemma {:induction false} EveryBarCountedExactlyWhen(cfg: Config, start: nat, bars: seq<Bar>, k: nat)
    requires k <= |bars|
    ensures var c := After(cfg, start, bars, k).counters;
      c.barsProcessed == Turnover(c) <==> forall i :: 0 <= i < k ==> !Escapes(cfg, start, bars, i)
  {
    CountersMissEscaped(cfg, start, bars, k);
    NoneEscaped(cfg, start, bars, k);
  }

  /** One ready bar on a fresh account, answered with ERROR: one bar processed, none counted. */
  lemma {:induction false} UncountedBarWitness(cfg: Config, bar: Bar)
    requires cfg.maxPositions == 1 && cfg.maxDailyLossPct == 5.0 && cfg.initialBalance == 10000.0
    requires bar.ready && bar.signal.direction == Other("ERROR")
    ensures var c := After(cfg, 0, [bar], 1).counters;
      c.barsProcessed == 1 && Turnover(c) == 0
  {
    var s := NewState(cfg);
    assert After(cfg, 0, [bar], 0) == s;
    SettledEffect(cfg, s, bar, 0);
    assert Gate(cfg, Settled(cfg, s, bar, 0).book, 0, bar) == Clear;
  }

  lemma {:induction false} FewerSurvive(cfg: Config, ps: seq<Position>, n: nat, c: Candle)
    requires n <= |ps|
    ensures |Survivors(cfg, ps, n, c)| <= n
  {
    if n > 0 {
      FewerSurvive(cfg, ps, n - 1, c);
    }
  }

  // ----- The daily loss limit -----

  /** Profit of the first `n` exits that fall on `day`, up to and including bar `bar`. */
  function DayPnL(es: seq<Exit>, n: nat, day: int, bar: int): real
    requires n <= |es|
  {
    if n == 0 then 0.0
    else DayPnL(es, n - 1, day, bar) + OnDay(es[n - 1].trade, day, bar)
  }

  function OnDay(t: Trade, day: int, bar: int): real {
    if Day(t.exitTime) == day && t.exitBarIdx <= bar then t.realizedPnL else 0.0
  }

  /** Bar times never go back, and none falls on the first day of the calendar, whose date is the zero value. */
  ghost predicate Ordered(bars: seq<Bar>) {
    && (forall i :: 0 <= i < |bars| ==> bars[i].candle.time >= NANOS_PER_DAY)
    && forall i, j :: 0 <= i <= j < |bars| ==> bars[i].candle.time <= bars[j].candle.time
  }

  /** `t` is no later than anything from bar `k` on. */
  ghost predicate NotAfter(t: int, bars: seq<Bar>, k: nat) {
    forall i :: k <= i < |bars| ==> t <= bars[i].candle.time
  }

  /** The day counter is the profit booked on the current day, and nothing booked lies in the future. */
  ghost predicate DayInStep(bars: seq<Bar>, k: nat, b: Book) {
    && k <= |bars|
    && (forall e :: e in b.exits ==>
          e.trade.exitBarIdx < k && Day(e.trade.exitTime) <= b.currentDay && NotAfter(e.trade.exitTime, bars, k))
    && (b.currentDay == 0 ==> b.exits == [] && b.dailyPnL == 0.0)
    && (forall i :: k <= i < |bars| ==> b.currentDay <= Day(bars[i].candle.time))
    && b.dailyPnL == DayPnL(b.exits, |b.exits|, b.currentDay, k)
  }

  lemma {:induction false} DayMonotone(s: int, t: int)
    requires s <= t
    ensures Day(s) <= Day(t)
    ensures t >= NANOS_PER_DAY ==> Day(t) > 0
  {
    var q, r := s / NANOS_PER_DAY, t / NANOS_PER_DAY;
    assert s == q * NANOS_PER_DAY + s % NANOS_PER_DAY;
    assert t == r * NANOS_PER_DAY + t % NANOS_PER_DAY;
    assert q <= r;
    assert q * NANOS_PER_DAY <= r * NANOS_PER_DAY;
  }

  lemma {:induction false} NothingThatDay(es: seq<Exit>, n: nat, day: int, bar: int)
    requires n <= |es| && forall e :: e in es ==> Day(e.trade.exitTime) < day
    ensures DayPnL(es, n, day, bar) == 0.0
  {
    if n > 0 {
      NothingThatDay(es, n - 1, day, bar);
      assert es[n - 1] in es;
    }
  }

  /** Exits of one candle all fall on its day. */
  lemma {:induction false} ExitsStamped(cfg: Config, ps: seq<Position>, n: nat, c: Candle, bar: int)
    requires n <= |ps|
    ensures forall e :: e in Exits(cfg, ps, n, c, bar) ==> e.trade.exitTime == c.time && e.trade.exitBarIdx == bar
  {
    if n > 0 {
      ExitsStamped(cfg, ps, n - 1, c, bar);
      assert forall e :: e in ExitOf(cfg, ps[n - 1], c, bar) ==> e.trade.exitTime == c.time && e.trade.exitBarIdx == bar;
    }
  }

  lemma {:induction false} DayPnLOfPrefix(a: seq<Exit>, b: seq<Exit>, n: nat, day: int, bar: int)
    requires n <= |a|
    ensures DayPnL(a + b, n, day, bar) == DayPnL(a, n, day, bar)
  {
    if n > 0 {
      DayPnLOfPrefix(a, b, n - 1, day, bar);
    }
  }

  lemma {:induction false} DayPnLOfBar(a: seq<Exit>, b: seq<Exit>, n: nat, day: int, t: int, bar: int)
    requires n <= |b| && Day(t) == day && forall e :: e in b ==> e.trade.exitTime == t && e.trade.exitBarIdx == bar
    ensures DayPnL(a + b, |a| + n, day, bar) == DayPnL(a, |a|, day, bar) + TotalPnL(b, n)
  {
    if n == 0 {
      DayPnLOfPrefix(a, b, |a|, day, bar);
    } else {
      DayPnLOfBar(a, b, n - 1, day, t, bar);
      assert (a + b)[|a| + n - 1] == b[n - 1] && b[n - 1] in b;
    }
  }

  /** Later exits do not change what an earlier bar saw. */
  lemma {:induction false} DayPnLOfLater(a: seq<Exit>, b: seq<Exit>, n: nat, day: int, bar: int)
    requires n <= |b| && forall e :: e in b ==> e.trade.exitBarIdx > bar
    ensures DayPnL(a + b, |a| + n, day, bar) == DayPnL(a, |a|, day, bar)
  {
    if n == 0 {
      DayPnLOfPrefix(a, b, |a|, day, bar);
    } else {
      DayPnLOfLater(a, b, n - 1, day, bar);
      assert (a + b)[|a| + n - 1] == b[n - 1] && b[n - 1] in b;
    }
  }

  /** The bar bound is immaterial once every exit lies below it. */
  lemma {:induction false} DayPnLBound(es: seq<Exit>, n: nat, day: int, bar: int, bar': int)
    requires n <= |es| && forall e :: e in es ==> e.trade.exitBarIdx <= bar && e.trade.exitBarIdx <= bar'
    ensures DayPnL(es, n, day, bar) == DayPnL(es, n, day, bar')
  {
    if n > 0 {
      DayPnLBound(es, n - 1, day, bar, bar');
      assert es[n - 1] in es;
    }
  }

  // ----- The daily counter and the entries it allows -----

  /** At the entry decision of bar `i` the day counter is exactly what was booked on that bar's day so far. */
  lemma {:induction false} SettleInStep(cfg: Config, s: State, bars: seq<Bar>, i: nat)
    requires i < |bars| && Ordered(bars) && DayInStep(bars, i, s.book)
    ensures var r := Settled(cfg, s, bars[i], i);
      && r.book.currentDay == Day(bars[i].candle.time)
      && r.book.dailyPnL == DayPnL(r.book.exits, |r.book.exits|, r.book.currentDay, i)
      && DayInStep(bars, i + 1, r.book)
  {
    var t := bars[i].candle.time;
    var es := Exits(cfg, s.book.open, |s.book.open|, bars[i].candle, i);
    SettledEffect(cfg, s, bars[i], i);
    ExitsStamped(cfg, s.book.open, |s.book.open|, bars[i].candle, i);
    DayMonotone(t, t);
    RolledOver(s.book, bars, i);
    BookedInStep(bars, i, s.book.exits, es, Settled(cfg, s, bars[i], i).book);
  }

  /** Booking the exits of bar `i` on top of earlier ones keeps the day counter in step. */
  lemma {:induction false} BookedInStep(bars: seq<Bar>, i: nat, before: seq<Exit>, es: seq<Exit>, b: Book)
    requires i < |bars| && Ordered(bars) && b.exits == before + es
    requires var t := bars[i].candle.time;
      && b.currentDay == Day(t) > 0
      && b.dailyPnL == DayPnL(before, |before|, Day(t), i) + TotalPnL(es, |es|)
      && (forall e :: e in before ==> e.trade.exitBarIdx < i && Day(e.trade.exitTime) <= Day(t) && NotAfter(e.trade.exitTime, bars, i))
      && forall e :: e in es ==> e.trade.exitTime == t && e.trade.exitBarIdx == i
    ensures b.dailyPnL == DayPnL(b.exits, |b.exits|, b.currentDay, i) && DayInStep(bars, i + 1, b)
  {
    var t := bars[i].candle.time;
    DayPnLOfBar(before, es, |es|, Day(t), t, i);
    DayPnLBound(b.exits, |b.exits|, Day(t), i, i + 1);
    forall j | i + 1 <= j < |bars|
      ensures Day(t) <= Day(bars[j].candle.time)
    {
      DayMonotone(t, bars[j].candle.time);
    }
  }

  /** After the rollover the counter matches the new day: it was reset, or the day is still the same. */
  lemma {:induction false} RolledOver(b: Book, bars: seq<Bar>, i: nat)
    requires i < |bars| && Ordered(bars) && DayInStep(bars, i, b)
    ensures var r, day := Rollover(b, bars[i].candle.time), Day(bars[i].candle.time);
      r.currentDay == day && r.dailyPnL == DayPnL(b.exits, |b.exits|, day, i)
  {
    if Day(bars[i].candle.time) != b.currentDay {
      NothingThatDay(b.exits, |b.exits|, Day(bars[i].candle.time), i);
    }
  }

  lemma {:induction false} SkipInStep(b: Book, bars: seq<Bar>, i: nat)
    requires i < |bars| && DayInStep(bars, i, b)
    ensures DayInStep(bars, i + 1, b)
  {
    DayPnLBound(b.exits, |b.exits|, b.currentDay, i, i + 1);
  }

  /** Every position was opened on a bar at which the losses booked that day were still above the limit. */
  ghost predicate LimitRespected(cfg: Config, s: State, k: nat) {
    OpenedAboveLimit(cfg, s.openings, s.book.exits, k)
  }

  ghost predicate OpenedAboveLimit(cfg: Config, os: seq<Opening>, es: seq<Exit>, k: nat) {
    forall o :: o in os ==> o.pos.plan.entryBarIdx < k && !DailyLimitHit(cfg, PnLAtOpening(o, es))
  }

  /** What had been booked on the day of an opening when it was made. */
  function PnLAtOpening(o: Opening, es: seq<Exit>): real {
    DayPnL(es, |es|, Day(o.pos.plan.entryTime), o.pos.plan.entryBarIdx)
  }

  lemma {:induction false} SettleRespectsLimit(cfg: Config, s: State, bar: Bar, i: nat)
    requires LimitRespected(cfg, s, i)
    ensures LimitRespected(cfg, Settled(cfg, s, bar, i), i)
  {
    SettledEffect(cfg, s, bar, i);
    ExitsStamped(cfg, s.book.open, |s.book.open|, bar.candle, i);
    LaterExitsRespectLimit(cfg, s.openings, s.book.exits, Exits(cfg, s.book.open, |s.book.open|, bar.candle, i), i);
  }

  lemma {:induction false} LaterExitsRespectLimit(cfg: Config, os: seq<Opening>, before: seq<Exit>, es: seq<Exit>, i: nat)
    requires OpenedAboveLimit(cfg, os, before, i) && forall e :: e in es ==> e.trade.exitBarIdx == i
    ensures OpenedAboveLimit(cfg, os, before + es, i)
  {
    forall o | o in os
      ensures PnLAtOpening(o, before + es) == PnLAtOpening(o, before)
    {
      DayPnLOfLater(before, es, |es|, Day(o.pos.plan.entryTime), o.pos.plan.entryBarIdx);
    }
  }

  lemma {:induction false} StepRespectsLimit(cfg: Config, start: nat, s: State, bars: seq<Bar>, i: nat)
    requires i < |bars| && Ordered(bars) && DayInStep(bars, i, s.book) && LimitRespected(cfg, s, i)
    ensures var r := Step(cfg, start, s, bars[i], i);
      DayInStep(bars, i + 1, r.book) && LimitRespected(cfg, r, i + 1)
  {
    SkipInStep(s.book, bars, i);
    SettleInStep(cfg, s, bars, i);
    SettleRespectsLimit(cfg, s, bars[i], i);
    DecideRespectsLimit(cfg, Settled(cfg, s, bars[i], i), bars, i);
  }

  lemma {:induction false} DecideRespectsLimit(cfg: Config, s: State, bars: seq<Bar>, i: nat)
    requires i < |bars| && LimitRespected(cfg, s, i) && DayInStep(bars, i + 1, s.book)
    requires s.book.dailyPnL == DayPnL(s.book.exits, |s.book.exits|, Day(bars[i].candle.time), i)
    ensures DayInStep(bars, i + 1, Decide(cfg, s, bars[i], i).book) && LimitRespected(cfg, Decide(cfg, s, bars[i], i), i + 1)
  {
    DecideEffect(cfg, s, bars[i], i);
  }

  /** Over every run: the day counter is the profit booked on the current day, and no position was ever
      opened on a bar where that profit was at or beyond the daily loss limit. */
  lemma {:induction false} DailyLimitHolds(cfg: Config, start: nat, bars: seq<Bar>, k: nat)
    requires k <= |bars| && Ordered(bars)
    ensures var s := After(cfg, start, bars, k);
      && s.book.dailyPnL == DayPnL(s.book.exits, |s.book.exits|, s.book.currentDay, k)
      && LimitRespected(cfg, s, k)
  {
    var inv := (s: State, i: nat) => DayInStep(bars, i, s.book) && LimitRespected(cfg, s, i);
    forall i | 0 <= i < |bars|
      ensures 0 <= Day(bars[i].candle.time)
    {
      DayMonotone(bars[i].candle.time, bars[i].candle.time);
    }
    assert inv(NewState(cfg), 0);
    forall s: State, i: nat | i < k && inv(s, i)
      ensures inv(Step(cfg, start, s, bars[i], i), i + 1)
    {
      StepRespectsLimit(cfg, start, s, bars, i);
    }
    Always(cfg, start, bars, k, inv);
  }

  /** A day is a whole number of days since the zero time, and contains its instants. */
  lemma {:induction false} DayContains(t: int)
    ensures Day(t) % NANOS_PER_DAY == 0 && Day(t) <= t < Day(t) + NANOS_PER_DAY
  {
    assert t == NANOS_PER_DAY * (t / NANOS_PER_DAY) + t % NANOS_PER_DAY;
  }

  /** In money: at every opening the day's booked loss was below the configured percentage of the initial balance. */
  lemma {:induction false} DailyLimitInMoney(cfg: Config, start: nat, bars: seq<Bar>, k: nat)
    requires k <= |bars| && Ordered(bars) && cfg.initialBalance > 0.0
    ensures var s := After(cfg, start, bars, k);
      forall o :: o in s.openings ==> -100.0 * PnLAtOpening(o, s.book.exits) < cfg.maxDailyLossPct * cfg.initialBalance
  {
    DailyLimitHolds(cfg, start, bars, k);
    var s := After(cfg, start, bars, k);
    forall o | o in s.openings
      ensures -100.0 * PnLAtOpening(o, s.book.exits) < cfg.maxDailyLossPct * cfg.initialBalance
    {
      LimitInMoney(cfg, PnLAtOpening(o, s.book.exits));
    }
  }

  lemma {:induction false} LimitInMoney(cfg: Config, pnl: real)
    requires cfg.initialBalance > 0.0
    ensures !DailyLimitHit(cfg, pnl) <==> -100.0 * pnl < cfg.maxDailyLossPct * cfg.initialBalance
  {
    var q := pnl / cfg.initialBalance;
    assert q * cfg.initialBalance == pnl;
    Reals.ScaleOrder(cfg.initialBalance, -100.0 * q, cfg.maxDailyLossPct);
  }

  // ----- Cooldown -----

  /** No position was opened inside the cooldown window of an earlier one. */
  ghost predicate Spaced(os: seq<Opening>) {
    forall i, j :: 0 <= i < j < |os| ==> os[i].pos.plan.entryTime + os[i].cooldown <= os[j].pos.plan.entryTime
  }

  ghost predicate CooldownArmed(s: State, bars: seq<Bar>, k: nat) {
    forall o :: o in s.openings ==>
      && o.cooldown >= 0
      && NotAfter(o.pos.plan.entryTime, bars, k)
      && (o.cooldown > 0 ==> s.cooldownUntil != 0 && o.pos.plan.entryTime + o.cooldown <= s.cooldownUntil)
  }

  lemma {:induction false} StepKeepsSpacing(cfg: Config, start: nat, s: State, bars: seq<Bar>, i: nat)
    requires i < |bars| && Ordered(bars) && cfg.productionParity
    requires Spaced(s.openings) && CooldownArmed(s, bars, i)
    ensures var r := Step(cfg, start, s, bars[i], i);
      Spaced(r.openings) && CooldownArmed(r, bars, i + 1)
  {
    SettledEffect(cfg, s, bars[i], i);
    DecideKeepsSpacing(cfg, Settled(cfg, s, bars[i], i), bars, i);
  }

  lemma {:induction false} DecideKeepsSpacing(cfg: Config, s: State, bars: seq<Bar>, i: nat)
    requires i < |bars| && Ordered(bars) && cfg.productionParity
    requires Spaced(s.openings) && CooldownArmed(s, bars, i)
    ensures var r := Decide(cfg, s, bars[i], i);
      Spaced(r.openings) && CooldownArmed(r, bars, i + 1)
  {
    DecideEffect(cfg, s, bars[i], i);
    if Opens(cfg, s, bars[i]) {
      assert Promotable(s.cooldownUntil, bars[i]);
      forall o | o in s.openings
        ensures o.pos.plan.entryTime + o.cooldown <= bars[i].candle.time
      {
      }
    }
  }

  /** Under production parity, every entry of every run waits out the cooldown of all entries before it. */
  lemma {:induction false} CooldownHolds(cfg: Config, start: nat, bars: seq<Bar>, k: nat)
    requires k <= |bars| && Ordered(bars) && cfg.productionParity
    ensures Spaced(After(cfg, start, bars, k).openings)
  {
    var inv := (s: State, i: nat) => Spaced(s.openings) && CooldownArmed(s, bars, i);
    forall s: State, i: nat | i < k && inv(s, i)
      ensures inv(Step(cfg, start, s, bars[i], i), i + 1)
    {
      StepKeepsSpacing(cfg, start, s, bars, i);
    }
    assert Spaced(NewState(cfg).openings) && CooldownArmed(NewState(cfg), bars, 0);
    Always(cfg, start, bars, k, inv);
  }

  // ----- The end of the run -----

  lemma {:induction false} LiquidationsAreAll(cfg: Config, ps: seq<Position>, n: nat, c: Candle, bar: int)
    requires n <= |ps|
    ensures var es := Liquidations(cfg, ps, n, c, bar);
      |es| == n && ExitPlans(es, n) == Plans(ps, n) && forall e :: e in es ==> e.trade.exitReason == EndOfData
  {
    if n > 0 {
      LiquidationsAreAll(cfg, ps, n - 1, c, bar);
      var p := ps[n - 1];
      var last := Exit(p, Fill(cfg, p, Quote(c.close, EndOfData), c, bar));
      ExitPlansOfPrefix(Liquidations(cfg, ps, n - 1, c, bar), [last], n - 1);
    }
  }

  lemma {:induction false} BagSizes(ps: seq<Position>, es: seq<Exit>, os: seq<Opening>)
    ensures |Plans(ps, |ps|)| == |ps| && |ExitPlans(es, |es|)| == |es| && |OpeningPlans(os, |os|)| == |os|
  {
    PlanBagSize(ps, |ps|);
    ExitBagSize(es, |es|);
    OpeningBagSize(os, |os|);
  }

  lemma {:induction false} PlanBagSize(ps: seq<Position>, n: nat)
    requires n <= |ps|
    ensures |Plans(ps, n)| == n
  {
    if n > 0 { PlanBagSize(ps, n - 1); }
  }

  lemma {:induction false} ExitBagSize(es: seq<Exit>, n: nat)
    requires n <= |es|
    ensures |ExitPlans(es, n)| == n
  {
    if n > 0 { ExitBagSize(es, n - 1); }
  }

  lemma {:induction false} OpeningBagSize(os: seq<Opening>, n: nat)
    requires n <= |os|
    ensures |OpeningPlans(os, n)| == n
  {
    if n > 0 { OpeningBagSize(os, n - 1); }
  }

  lemma {:induction false} NetIsTotal(ts: seq<Trade>, es: seq<Exit>, n: nat)
    requires TradesAre(ts, es) && n <= |ts|
    ensures Metrics.Net(ts, n) == TotalPnL(es, n)
  {
    if n > 0 {
      NetIsTotal(ts, es, n - 1);
    }
  }

  lemma {:induction false} CloseAllConserves(cfg: Config, b: Book, os: seq<Opening>, c: Candle, bar: int)
    requires MoneyConserved(cfg, b) && OpeningPlans(os, |os|) == Bag(b.open, b.exits)
    ensures var r := CloseAll(cfg, b, c, bar);
      && r.open == [] && MoneyConserved(cfg, r)
      && ExitPlans(r.exits, |r.exits|) == OpeningPlans(os, |os|)
      && |r.exits| == |os|
      && forall e :: e in r.exits ==> e in b.exits || e.trade.exitReason == EndOfData
  {
    var es := Liquidations(cfg, b.open, |b.open|, c, bar);
    LiquidationsAreAll(cfg, b.open, |b.open|, c, bar);
    TotalPnLAppend(b.exits, es, |es|);
    Redistribute(os, b.open, b.exits, [], es);
    BagSizes([], b.exits + es, os);
  }

  predicate Final(r: ExitReason) {
    r == StopLossExit || r == TakeProfit1 || r == EndOfData
  }

  /** When a run is over nothing is open, the closed positions are exactly the opened ones, each closed once by a
      stop, a first target or the end of the data, and the account holds the initial balance plus their profit. */
  lemma {:induction false} EverythingCloses(cfg: Config, start: nat, bars: seq<Bar>)
    requires |bars| > 0
    ensures var s := After(cfg, start, bars, |bars|);
      var b := Closing(cfg, s.book, bars);
      && b.open == []
      && b.balance == cfg.initialBalance + TotalPnL(b.exits, |b.exits|)
      && ExitPlans(b.exits, |b.exits|) == OpeningPlans(s.openings, |s.openings|)
      && |b.exits| == |s.openings|
      && forall e :: e in b.exits ==> Final(e.trade.exitReason)
  {
    var s := After(cfg, start, bars, |bars|);
    BalanceConserved(cfg, start, bars, |bars|);
    OpenedIsOpenPlusClosed(cfg, start, bars, |bars|);
    CloseAllConserves(cfg, s.book, s.openings, bars[|bars| - 1].candle, |bars| - 1);
    LoopExitsFinal(cfg, start, bars);
  }

  lemma {:induction false} LoopExitsFinal(cfg: Config, start: nat, bars: seq<Bar>)
    ensures forall e :: e in After(cfg, start, bars, |bars|).book.exits ==> Final(e.trade.exitReason)
  {
    forall e | e in After(cfg, start, bars, |bars|).book.exits
      ensures Final(e.trade.exitReason)
    {
      var j :| 0 <= j < |After(cfg, start, bars, |bars|).book.exits| && After(cfg, start, bars, |bars|).book.exits[j] == e;
      ExitsAndMultiples(cfg, start, bars, |bars|, j);
    }
  }

  /** The report computed afresh from the trade list agrees with the account the tracker kept. */
  lemma {:induction false} ReportMatchesAccount(cfg: Config, start: nat, bars: seq<Bar>, trades: seq<Trade>, m: Metrics.Summary)
    requires |bars| > 0
    requires TradesAre(trades, Closing(cfg, After(cfg, start, bars, |bars|).book, bars).exits)
    requires Metrics.Summarizes(m, trades, cfg.initialBalance)
    ensures var s := After(cfg, start, bars, |bars|);
      && m.finalBalance == Closing(cfg, s.book, bars).balance
      && m.totalTrades == |s.openings|
      && m.netProfit == Closing(cfg, s.book, bars).balance - cfg.initialBalance
  {
    EverythingCloses(cfg, start, bars);
    NetIsTotal(trades, Closing(cfg, After(cfg, start, bars, |bars|).book, bars).exits, |trades|);
  }
}
