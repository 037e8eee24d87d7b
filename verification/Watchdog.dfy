/** The stack watchdog: crash-loop detection over a sliding window, and remediation behind a cooldown and a breaker. */
module Watchdog {
  import opened Options
  import opened Durations
  import opened Counting

  datatype Kind = Recovery | ContainerDown | Unhealthy | CrashLoop | TicksStale | HealthDegraded | DiskHigh

  datatype Finding = Finding(kind: Kind, service: string, escalate: int)

  datatype Config = Config(
    services: seq<string>,
    crashLoopWindow: int,
    crashLoopMax: int,
    stoppedGrace: int,
    restartCooldown: int,
    maxConsecRestarts: int,
    maxTickAge: int,        // tick age threshold plus its grace
    diskMaxUsedPct: int)

  /** What inspecting one container returned. */
  datatype Inspection = Missing | Seen(restartCount: int, running: bool, stoppedFor: int, unhealthy: bool)

  datatype Health = Health(statusOk: bool, dbOk: bool, cacheOk: bool)

  /** What the stack-level probes returned this tick. */
  datatype Probes = Probes(
    pgRunning: bool,
    tickAge: Option<int>,
    realtimeRunning: bool,
    health: Option<Health>,
    pgRunningForEngine: bool,
    valkeyRunning: bool,
    disks: seq<Option<int>>)

  datatype Tick = Tick(
    now: int,
    inspections: seq<Inspection>,
    probes: Probes,
    outcomes: nat -> bool)   // whether the command for the i-th finding would succeed

  // ----- The observed history of one container -----

  datatype Observation = Observation(time: int, count: int)

  /** The times at which the restart counter was seen to have risen. */
  function Rises(obs: seq<Observation>, n: nat): seq<int>
    requires n <= |obs|
  {
    if n < 2 then []
    else Rises(obs, n - 1) + if obs[n - 1].count > obs[n - 2].count then [obs[n - 1].time] else []
  }

  /** Those of the first `n` times that are at most `window` before `now`. */
  function Within(ts: seq<int>, n: nat, now: int, window: int): seq<int>
    requires n <= |ts|
  {
    if n == 0 then [] else Within(ts, n - 1, now, window) + if now - ts[n - 1] <= window then [ts[n - 1]] else []
  }

  /** How many rises of the counter lie in the window: the plain history filter. */
  function RisesInWindow(obs: seq<Observation>, n: nat, now: int, window: int): nat
    requires n <= |obs|
  {
    if n < 2 then 0
    else
      var rose := obs[n - 1].count > obs[n - 2].count && now - obs[n - 1].time <= window;
      RisesInWindow(obs, n - 1, now, window) + if rose then 1 else 0
  }

  lemma {:induction false} WithinAppend(ts: seq<int>, us: seq<int>, n: nat, now: int, window: int)
    requires n <= |us|
    ensures Within(ts + us, |ts| + n, now, window) == Within(ts, |ts|, now, window) + Within(us, n, now, window)
  {
    if n == 0 {
      WithinPrefix(ts, us, |ts|, now, window);
    } else {
      WithinAppend(ts, us, n - 1, now, window);
    }
  }

  lemma {:induction false} WithinPrefix(ts: seq<int>, us: seq<int>, n: nat, now: int, window: int)
    requires n <= |ts|
    ensures Within(ts + us, n, now, window) == Within(ts, n, now, window)
  {
    if n > 0 {
      WithinPrefix(ts, us, n - 1, now, window);
    }
  }

  /** Pruning against an earlier instant loses nothing a later instant would keep. */
  lemma {:induction false} PruneTwice(ts: seq<int>, n: nat, then_: int, now: int, window: int)
    requires n <= |ts| && then_ <= now
    ensures var kept := Within(ts, n, then_, window);
      Within(kept, |kept|, now, window) == Within(ts, n, now, window)
  {
    if n > 0 {
      PruneTwice(ts, n - 1, then_, now, window);
      var kept := Within(ts, n - 1, then_, window);
      if then_ - ts[n - 1] <= window {
        WithinAppend(kept, [ts[n - 1]], 1, now, window);
        assert Within([ts[n - 1]], 1, now, window) == Within([ts[n - 1]], 0, now, window) + if now - ts[n - 1] <= window then [ts[n - 1]] else [];
      } else {
        assert kept + [] == kept;
      }
    }
  }

  lemma {:induction false} RisesPrefix(obs: seq<Observation>, o: Observation, n: nat)
    requires n <= |obs|
    ensures Rises(obs + [o], n) == Rises(obs, n)
  {
    if n >= 2 {
      RisesPrefix(obs, o, n - 1);
    }
  }

  /** The filtered list of rises has as many entries as the plain count. */
  lemma {:induction false} WindowSize(obs: seq<Observation>, n: nat, now: int, window: int)
    requires n <= |obs|
    ensures |Within(Rises(obs, n), |Rises(obs, n)|, now, window)| == RisesInWindow(obs, n, now, window)
  {
    if n >= 2 {
      WindowSize(obs, n - 1, now, window);
      var step := if obs[n - 1].count > obs[n - 2].count then [obs[n - 1].time] else [];
      WithinAppend(Rises(obs, n - 1), step, |step|, now, window);
      if step != [] {
        assert Within(step, 1, now, window) == Within(step, 0, now, window) + if now - step[0] <= window then [step[0]] else [];
      }
    }
  }

  // ----- Findings -----

  function OutageLength(cfg: Config, stoppedFor: int): int {
    if stoppedFor < 0 || stoppedFor > NANOS_PER_DAY then cfg.stoppedGrace + NANOS_PER_MINUTE else stoppedFor
  }

  /** The findings about one container, given how many restarts of it lie in the window. */
  function ContainerFindings(cfg: Config, svc: string, insp: Inspection, inWindow: int): seq<Finding> {
    match insp
    case Missing => [Finding(ContainerDown, svc, 3)]
    case Seen(_, running, stoppedFor, unhealthy) =>
      if inWindow >= cfg.crashLoopMax then [Finding(CrashLoop, svc, 0)]
      else if !running then
        if OutageLength(cfg, stoppedFor) < cfg.stoppedGrace then [] else [Finding(ContainerDown, svc, 1)]
      else if unhealthy then [Finding(Unhealthy, svc, 2)]
      else []
  }

  function DiskFindings(cfg: Config, disks: seq<Option<int>>, n: nat): seq<Finding>
    requires n <= |disks|
  {
    if n == 0 then []
    else
      var full := disks[n - 1].Some? && disks[n - 1].value >= cfg.diskMaxUsedPct;
      DiskFindings(cfg, disks, n - 1) + if full then [Finding(DiskHigh, "disk", 0)] else []
  }

  function TickFindings(cfg: Config, p: Probes): seq<Finding> {
    if !p.pgRunning then []
    else if p.tickAge.None? then [Finding(HealthDegraded, "postgres", 0)]
    else if p.tickAge.value > cfg.maxTickAge then [Finding(TicksStale, "realtime", 0)]
    else []
  }

  function HealthFindings(p: Probes): seq<Finding> {
    if !p.realtimeRunning then []
    else if p.health.None? then [Finding(Unhealthy, "realtime", 2)]
    else
      (if !p.health.value.statusOk then [Finding(HealthDegraded, "realtime", 0)] else [])
      + (if !p.health.value.dbOk && p.pgRunningForEngine then [Finding(HealthDegraded, "realtime", 2)] else [])
      + (if !p.health.value.cacheOk && p.valkeyRunning then [Finding(HealthDegraded, "realtime", 0)] else [])
  }

  function StackFindings(cfg: Config, p: Probes): seq<Finding> {
    TickFindings(cfg, p) + HealthFindings(p) + DiskFindings(cfg, p.disks, |p.disks|)
  }

  /** Nothing the watchdog detects is ever reported as a recovery. */
  predicate NoRecovery(fs: seq<Finding>) {
    forall f :: f in fs ==> f.kind != Recovery
  }

  lemma {:induction false} StackNeverRecovers(cfg: Config, p: Probes)
    ensures NoRecovery(StackFindings(cfg, p))
  {
    DisksNeverRecover(cfg, p.disks, |p.disks|);
  }

  lemma {:induction false} DisksNeverRecover(cfg: Config, disks: seq<Option<int>>, n: nat)
    requires n <= |disks|
    ensures NoRecovery(DiskFindings(cfg, disks, n))
  {
    if n > 0 {
      DisksNeverRecover(cfg, disks, n - 1);
    }
  }

  function HistoryIn(observed: map<string, seq<Observation>>, svc: string): seq<Observation> {
    if svc in observed then observed[svc] else []
  }

  /** The histories once the first `n` services of a tick have been inspected. */
  function ObservedAfter(observed: map<string, seq<Observation>>, cfg: Config, tick: Tick, n: nat): map<string, seq<Observation>>
    requires n <= |cfg.services| == |tick.inspections|
  {
    if n == 0 then observed
    else
      var before := ObservedAfter(observed, cfg, tick, n - 1);
      var svc := cfg.services[n - 1];
      match tick.inspections[n - 1]
      case Missing => before
      case Seen(count, _, _, _) => before[svc := HistoryIn(before, svc) + [Observation(tick.now, count)]]
  }

  /** The findings about the first `n` services, each judged by the plain count over its own history. */
  function ServiceFindings(observed: map<string, seq<Observation>>, cfg: Config, tick: Tick, n: nat): seq<Finding>
    requires n <= |cfg.services| == |tick.inspections|
  {
    if n == 0 then []
    else
      var svc := cfg.services[n - 1];
      var history := HistoryIn(ObservedAfter(observed, cfg, tick, n), svc);
      ServiceFindings(observed, cfg, tick, n - 1)
      + ContainerFindings(cfg, svc, tick.inspections[n - 1],
                          RisesInWindow(history, |history|, tick.now, cfg.crashLoopWindow))
  }

  // ----- The log of remediations -----

  datatype Event = Restarted(service: string, time: int) | Recovered(service: string)

  /** Restarts of a service since its last recovery. */
  function Consecutive(es: seq<Event>, n: nat, svc: string): nat
    requires n <= |es|
  {
    if n == 0 then 0
    else if es[n - 1].service != svc then Consecutive(es, n - 1, svc)
    else if es[n - 1].Restarted? then Consecutive(es, n - 1, svc) + 1
    else 0
  }

  function Restarts(es: seq<Event>, n: nat, svc: string): nat
    requires n <= |es|
  {
    if n == 0 then 0
    else Restarts(es, n - 1, svc) + if es[n - 1].Restarted? && es[n - 1].service == svc then 1 else 0
  }

  /** The latest restart of a service. */
  function LastRestart(es: seq<Event>, n: nat, svc: string): Option<int>
    requires n <= |es|
  {
    if n == 0 then None
    else if es[n - 1].Restarted? && es[n - 1].service == svc then Some(es[n - 1].time)
    else LastRestart(es, n - 1, svc)
  }

  datatype Remedy = NoAction | Suppressed | Manual | Failed | Done

  /** What one finding leads to, judged from the log alone: first the cooldown since the latest restart, then the
      breaker on the restarts since the last recovery. */
  function RemedyFor(cfg: Config, es: seq<Event>, f: Finding, now: int, succeeds: bool): Remedy {
    var last := LastRestart(es, |es|, f.service);
    if f.escalate <= 0 then NoAction
    else if last.Some? && now - last.value < cfg.restartCooldown then Suppressed
    else if Consecutive(es, |es|, f.service) >= cfg.maxConsecRestarts then Manual
    else if f.escalate <= 4 && !succeeds then Failed
    else Done
  }

  /** The log once one finding has been acted on. */
  function ActedOn(cfg: Config, es: seq<Event>, f: Finding, now: int, succeeds: bool): seq<Event> {
    match f.kind
    case Recovery => es + [Recovered(f.service)]
    case ContainerDown | Unhealthy | TicksStale =>
      if RemedyFor(cfg, es, f, now, succeeds) == Done then es + [Restarted(f.service, now)] else es
    case CrashLoop | HealthDegraded | DiskHigh => es
  }

  /** The log once the first `n` findings of a tick have been acted on. */
  function Acted(cfg: Config, es: seq<Event>, findings: seq<Finding>, outcomes: nat -> bool, n: nat, now: int): seq<Event>
    requires n <= |findings|
  {
    if n == 0 then es
    else
      ActedOn(cfg, Acted(cfg, es, findings, outcomes, n - 1, now), findings[n - 1], now, outcomes(n - 1))
  }

  /** Acting only extends the log, by restarts alone when no finding is a recovery. */
  lemma {:induction false} ActedExtends(cfg: Config, es: seq<Event>, findings: seq<Finding>, outcomes: nat -> bool, n: nat, now: int)
    requires n <= |findings|
    ensures var r := Acted(cfg, es, findings, outcomes, n, now);
      && es <= r
      && (NoRecovery(findings) ==> forall i :: |es| <= i < |r| ==> r[i].Restarted?)
  {
    if n > 0 {
      ActedExtends(cfg, es, findings, outcomes, n - 1, now);
    }
  }

  /** A finding of a tick, in whatever company, adds a restart to the log exactly if it is actionable and its
      remedy goes through; otherwise, unless it is a recovery, it leaves the log alone. */
  lemma {:induction false} OnlyActionableActs(cfg: Config, es: seq<Event>, findings: seq<Finding>, outcomes: nat -> bool, n: nat, now: int)
    requires n < |findings|
    ensures var before, after := Acted(cfg, es, findings, outcomes, n, now), Acted(cfg, es, findings, outcomes, n + 1, now);
      var f := findings[n];
      && (after == before + [Restarted(f.service, now)]
          <==> Actionable(f) && RemedyFor(cfg, before, f, now, outcomes(n)) == Done)
      && (f.kind != Recovery && !Actionable(f) ==> after == before)
  {
    var before, f := Acted(cfg, es, findings, outcomes, n, now), findings[n];
    assert before != before + [Restarted(f.service, now)];
    assert (before + [Recovered(f.service)])[|before|] != Restarted(f.service, now);
    assert (before + [Restarted(f.service, now)])[|before|] == Restarted(f.service, now);
  }

  /** Two restarts of one service are at least the cooldown apart. */
  ghost predicate Spaced(es: seq<Event>, cooldown: int) {
    forall i, j :: 0 <= i < j < |es| && es[i].Restarted? && es[j].Restarted? && es[i].service == es[j].service ==>
      es[j].time - es[i].time >= cooldown
  }

  ghost predicate NotBeyond(es: seq<Event>, now: int) {
    forall e :: e in es && e.Restarted? ==> e.time <= now
  }

  ghost predicate BreakerHolds(es: seq<Event>, limit: int) {
    forall svc :: Consecutive(es, |es|, svc) == 0 || Consecutive(es, |es|, svc) <= limit
  }

  lemma {:induction false} LogPrefix(es: seq<Event>, e: Event, n: nat, svc: string)
    requires n <= |es|
    ensures Consecutive(es + [e], n, svc) == Consecutive(es, n, svc)
    ensures Restarts(es + [e], n, svc) == Restarts(es, n, svc)
    ensures LastRestart(es + [e], n, svc) == LastRestart(es, n, svc)
  {
    if n > 0 {
      LogPrefix(es, e, n - 1, svc);
    }
  }

  lemma {:induction false} LastIsLatest(es: seq<Event>, n: nat, svc: string, cooldown: int)
    requires n <= |es| && Spaced(es, cooldown) && cooldown >= 0
    ensures match LastRestart(es, n, svc)
            case Some(t) => forall i :: 0 <= i < n && es[i].Restarted? && es[i].service == svc ==> es[i].time <= t
            case None => forall i :: 0 <= i < n ==> !(es[i].Restarted? && es[i].service == svc)
  {
    if n > 0 {
      LastIsLatest(es, n - 1, svc, cooldown);
    }
  }

  /** A restart admitted by the cooldown keeps the log spaced. */
  lemma {:induction false} RestartKeepsSpacing(es: seq<Event>, svc: string, now: int, cooldown: int)
    requires Spaced(es, cooldown) && cooldown >= 0
    requires var last := LastRestart(es, |es|, svc); last.Some? ==> now - last.value >= cooldown
    ensures Spaced(es + [Restarted(svc, now)], cooldown)
  {
    LastIsLatest(es, |es|, svc, cooldown);
  }

  /** Without recoveries the consecutive count is the total. */
  lemma {:induction false} ConsecutiveIsTotal(es: seq<Event>, n: nat, svc: string)
    requires n <= |es| && forall e :: e in es ==> e.Restarted?
    ensures Consecutive(es, n, svc) == Restarts(es, n, svc)
  {
    if n > 0 {
      ConsecutiveIsTotal(es, n - 1, svc);
      assert es[n - 1] in es;
    }
  }

  /** Everything detected in one tick. */
  function Detected(cfg: Config, observed: map<string, seq<Observation>>, tick: Tick): seq<Finding>
    requires |cfg.services| == |tick.inspections|
  {
    ServiceFindings(observed, cfg, tick, |cfg.services|) + StackFindings(cfg, tick.probes)
  }

  function EventsAfter(cfg: Config, observed: map<string, seq<Observation>>, es: seq<Event>, tick: Tick): seq<Event>
    requires |cfg.services| == |tick.inspections|
  {
    var findings := Detected(cfg, observed, tick);
    Acted(cfg, es, findings, tick.outcomes, |findings|, tick.now)
  }

  datatype Past = Past(observed: map<string, seq<Observation>>, events: seq<Event>)

  /** The past once `tick` is over. */
  function After(cfg: Config, before: Past, tick: Tick): Past
    requires |cfg.services| == |tick.inspections|
  {
    Past(ObservedAfter(before.observed, cfg, tick, |cfg.services|),
         EventsAfter(cfg, before.observed, before.events, tick))
  }

  /** What the first `n` ticks from start-up leave behind, told by histories and log alone. */
  function Replay(cfg: Config, ticks: seq<Tick>, n: nat): Past
    requires n <= |ticks| && forall i :: 0 <= i < |ticks| ==> |ticks[i].inspections| == |cfg.services|
  {
    if n == 0 then Past(map[], [])
    else
      After(cfg, Replay(cfg, ticks, n - 1), ticks[n - 1])
  }

  lemma {:induction false} ServicesNeverRecover(observed: map<string, seq<Observation>>, cfg: Config, tick: Tick, n: nat)
    requires n <= |cfg.services| == |tick.inspections|
    ensures NoRecovery(ServiceFindings(observed, cfg, tick, n))
  {
    if n > 0 {
      ServicesNeverRecover(observed, cfg, tick, n - 1);
      var history := HistoryIn(ObservedAfter(observed, cfg, tick, n), cfg.services[n - 1]);
      ContainerNeverRecovers(cfg, cfg.services[n - 1], tick.inspections[n - 1],
                             RisesInWindow(history, |history|, tick.now, cfg.crashLoopWindow));
    }
  }

  lemma {:induction false} ContainerNeverRecovers(cfg: Config, svc: string, insp: Inspection, inWindow: int)
    ensures NoRecovery(ContainerFindings(cfg, svc, insp, inWindow))
  {
  }

  /** No run ever resets the breaker: no finding the watchdog can produce is a recovery. */
  lemma {:induction false} ReplayOnlyRestarts(cfg: Config, ticks: seq<Tick>, n: nat)
    requires n <= |ticks| && forall i :: 0 <= i < |ticks| ==> |ticks[i].inspections| == |cfg.services|
    ensures forall e :: e in Replay(cfg, ticks, n).events ==> e.Restarted?
  {
    if n > 0 {
      ReplayOnlyRestarts(cfg, ticks, n - 1);
      TickOnlyRestarts(cfg, Replay(cfg, ticks, n - 1), ticks[n - 1]);
    }
  }

  lemma {:induction false} TickOnlyRestarts(cfg: Config, before: Past, tick: Tick)
    requires |cfg.services| == |tick.inspections| && forall e :: e in before.events ==> e.Restarted?
    ensures forall e :: e in EventsAfter(cfg, before.observed, before.events, tick) ==> e.Restarted?
  {
    var found, stack := ServiceFindings(before.observed, cfg, tick, |cfg.services|), StackFindings(cfg, tick.probes);
    ServicesNeverRecover(before.observed, cfg, tick, |cfg.services|);
    StackNeverRecovers(cfg, tick.probes);
    ActedExtends(cfg, before.events, found + stack, tick.outcomes, |found + stack|, tick.now);
  }

  // ----- What is reported, in plain terms -----

  /** The count of rises in the window is the number of readings that are higher than the one before and recent enough. */
  lemma {:induction false} RisesAreSize(obs: seq<Observation>, n: nat, now: int, window: int)
    requires n <= |obs|
    ensures RisesInWindow(obs, n, now, window)
            == |set i: nat | 1 <= i < n && obs[i].count > obs[i - 1].count && now - obs[i].time <= window|
  {
    var all := set i: nat | 1 <= i < n && obs[i].count > obs[i - 1].count && now - obs[i].time <= window;
    if n >= 2 {
      RisesAreSize(obs, n - 1, now, window);
      var before := set i: nat | 1 <= i < n - 1 && obs[i].count > obs[i - 1].count && now - obs[i].time <= window;
      var rose := obs[n - 1].count > obs[n - 2].count && now - obs[n - 1].time <= window;
      SetGrows(all, before, n - 1, rose);
    } else {
      assert all == {};
    }
  }

  /** At most one finding per container: gone, looping, down for longer than the grace (or for an unknown time), or
      running but sick. */
  lemma {:induction false} ContainerVerdict(cfg: Config, svc: string, insp: Inspection, inWindow: int)
    ensures var fs := ContainerFindings(cfg, svc, insp, inWindow);
      && |fs| <= 1
      && (Finding(ContainerDown, svc, 3) in fs <==> insp == Missing)
      && (Finding(CrashLoop, svc, 0) in fs <==> insp.Seen? && inWindow >= cfg.crashLoopMax)
      && (Finding(ContainerDown, svc, 1) in fs <==>
            && insp.Seen? && inWindow < cfg.crashLoopMax && !insp.running
            && (insp.stoppedFor < 0 || insp.stoppedFor > 24 * 60 * NANOS_PER_MINUTE || insp.stoppedFor >= cfg.stoppedGrace))
      && (Finding(Unhealthy, svc, 2) in fs <==> insp.Seen? && inWindow < cfg.crashLoopMax && insp.running && insp.unhealthy)
  {
  }

  /** A tick adds each service's reading to that service's history, and only to it. */
  lemma {:induction false} HistoryGrows(observed: map<string, seq<Observation>>, cfg: Config, tick: Tick, n: nat, svc: string)
    requires n <= |cfg.services| == |tick.inspections|
    requires forall i, j :: 0 <= i < j < |cfg.services| ==> cfg.services[i] != cfg.services[j]
    ensures forall i :: 0 <= i < n && cfg.services[i] == svc && tick.inspections[i].Seen? ==>
      HistoryIn(ObservedAfter(observed, cfg, tick, n), svc)
      == HistoryIn(observed, svc) + [Observation(tick.now, tick.inspections[i].restartCount)]
    ensures (forall i :: 0 <= i < n ==> cfg.services[i] != svc || tick.inspections[i] == Missing) ==>
      HistoryIn(ObservedAfter(observed, cfg, tick, n), svc) == HistoryIn(observed, svc)
  {
    if n > 0 {
      HistoryGrows(observed, cfg, tick, n - 1, svc);
    }
  }

  /** How many readings of service `i`, this tick's included, are rises within the window. */
  function RecentRises(observed: map<string, seq<Observation>>, cfg: Config, tick: Tick, i: nat): nat
    requires i < |cfg.services| && tick.inspections != [] && |tick.inspections| == |cfg.services| && tick.inspections[i].Seen?
  {
    var h := HistoryIn(observed, cfg.services[i]) + [Observation(tick.now, tick.inspections[i].restartCount)];
    |set k: nat | 1 <= k < |h| && h[k].count > h[k - 1].count && tick.now - h[k].time <= cfg.crashLoopWindow|
  }

  /** A crash loop is reported for a service exactly if the restart counter was seen to rise at least as often as the
      limit within the window, over everything observed of it so far. */
  lemma {:induction false} CrashLoopExactlyWhen(observed: map<string, seq<Observation>>, cfg: Config, tick: Tick, i: nat)
    requires i < |cfg.services| == |tick.inspections|
    requires forall j, k :: 0 <= j < k < |cfg.services| ==> cfg.services[j] != cfg.services[k]
    ensures Finding(CrashLoop, cfg.services[i], 0) in Detected(cfg, observed, tick) <==>
      tick.inspections[i].Seen? && RecentRises(observed, cfg, tick, i) >= cfg.crashLoopMax
  {
    var f := Finding(CrashLoop, cfg.services[i], 0);
    LoopOnlyFromItself(observed, cfg, tick, i, |cfg.services|);
    StackNeverLoops(cfg, tick.probes);
  }

  lemma {:induction false} StackNeverLoops(cfg: Config, p: Probes)
    ensures forall f :: f in StackFindings(cfg, p) ==> f.kind != CrashLoop
  {
    DisksOnlyWarn(cfg, p.disks, |p.disks|);
  }

  lemma {:induction false} LoopOnlyFromItself(observed: map<string, seq<Observation>>, cfg: Config, tick: Tick, i: nat, n: nat)
    requires i < |cfg.services| == |tick.inspections| && n <= |cfg.services|
    requires forall j, k :: 0 <= j < k < |cfg.services| ==> cfg.services[j] != cfg.services[k]
    ensures Finding(CrashLoop, cfg.services[i], 0) in ServiceFindings(observed, cfg, tick, n) <==>
      i < n && tick.inspections[i].Seen? && RecentRises(observed, cfg, tick, i) >= cfg.crashLoopMax
  {
    if n > 0 {
      LoopOnlyFromItself(observed, cfg, tick, i, n - 1);
      OwnLoop(observed, cfg, tick, i, n - 1);
      var history := HistoryIn(ObservedAfter(observed, cfg, tick, n), cfg.services[n - 1]);
      InEither(
        ServiceFindings(observed, cfg, tick, n - 1),
        ContainerFindings(cfg, cfg.services[n - 1], tick.inspections[n - 1],
                          RisesInWindow(history, |history|, tick.now, cfg.crashLoopWindow)),
        Finding(CrashLoop, cfg.services[i], 0));
    }
  }

  lemma {:induction false} InEither(a: seq<Finding>, b: seq<Finding>, f: Finding)
    ensures f in a + b <==> f in a || f in b
  {
  }

  lemma {:induction false} OwnLoop(observed: map<string, seq<Observation>>, cfg: Config, tick: Tick, i: nat, n: nat)
    requires i < |cfg.services| == |tick.inspections| && n < |cfg.services|
    requires forall j, k :: 0 <= j < k < |cfg.services| ==> cfg.services[j] != cfg.services[k]
    ensures var history := HistoryIn(ObservedAfter(observed, cfg, tick, n + 1), cfg.services[n]);
      var inWindow := RisesInWindow(history, |history|, tick.now, cfg.crashLoopWindow);
      Finding(CrashLoop, cfg.services[i], 0) in ContainerFindings(cfg, cfg.services[n], tick.inspections[n], inWindow) <==>
        i == n && tick.inspections[i].Seen? && RecentRises(observed, cfg, tick, i) >= cfg.crashLoopMax
  {
    var history := HistoryIn(ObservedAfter(observed, cfg, tick, n + 1), cfg.services[n]);
    HistoryGrows(observed, cfg, tick, n + 1, cfg.services[n]);
    RisesAreSize(history, |history|, tick.now, cfg.crashLoopWindow);
    ContainerVerdict(cfg, cfg.services[n], tick.inspections[n], RisesInWindow(history, |history|, tick.now, cfg.crashLoopWindow));
    NamesItsService(cfg, cfg.services[n], tick.inspections[n], RisesInWindow(history, |history|, tick.now, cfg.crashLoopWindow));
  }

  lemma {:induction false} NamesItsService(cfg: Config, svc: string, insp: Inspection, inWindow: int)
    ensures forall f :: f in ContainerFindings(cfg, svc, insp, inWindow) ==> f.service == svc
  {
  }

  /** The findings about the stack, each with its exact cause. */
  lemma {:induction false} StackVerdicts(cfg: Config, p: Probes)
    ensures var fs := StackFindings(cfg, p);
      && (Finding(HealthDegraded, "postgres", 0) in fs <==> p.pgRunning && p.tickAge == None)
      && (Finding(TicksStale, "realtime", 0) in fs <==> p.pgRunning && p.tickAge.Some? && p.tickAge.value > cfg.maxTickAge)
      && (Finding(Unhealthy, "realtime", 2) in fs <==> p.realtimeRunning && p.health == None)
      && (Finding(HealthDegraded, "realtime", 0) in fs <==>
            && p.realtimeRunning && p.health.Some?
            && (!p.health.value.statusOk || (!p.health.value.cacheOk && p.valkeyRunning)))
      && (Finding(DiskHigh, "disk", 0) in fs <==>
            exists i :: 0 <= i < |p.disks| && p.disks[i].Some? && p.disks[i].value >= cfg.diskMaxUsedPct)
  {
    DisksOnlyWarn(cfg, p.disks, |p.disks|);
    DiskWarned(cfg, p.disks, |p.disks|);
    TickVerdicts(cfg, p);
    HealthVerdicts(p);
    InThree(cfg, p, Finding(HealthDegraded, "postgres", 0));
    InThree(cfg, p, Finding(TicksStale, "realtime", 0));
    InThree(cfg, p, Finding(Unhealthy, "realtime", 2));
    InThree(cfg, p, Finding(HealthDegraded, "realtime", 0));
    InThree(cfg, p, Finding(DiskHigh, "disk", 0));
  }

  lemma {:induction false} InThree(cfg: Config, p: Probes, f: Finding)
    ensures f in StackFindings(cfg, p) <==> f in TickFindings(cfg, p) || f in HealthFindings(p) || f in DiskFindings(cfg, p.disks, |p.disks|)
  {
    InEither(TickFindings(cfg, p) + HealthFindings(p), DiskFindings(cfg, p.disks, |p.disks|), f);
    InEither(TickFindings(cfg, p), HealthFindings(p), f);
  }

  lemma {:induction false} TickVerdicts(cfg: Config, p: Probes)
    ensures var fs := TickFindings(cfg, p);
      && (Finding(HealthDegraded, "postgres", 0) in fs <==> p.pgRunning && p.tickAge == None)
      && (Finding(TicksStale, "realtime", 0) in fs <==> p.pgRunning && p.tickAge.Some? && p.tickAge.value > cfg.maxTickAge)
      && (forall f :: f in fs ==> f == Finding(HealthDegraded, "postgres", 0) || f == Finding(TicksStale, "realtime", 0))
  {
  }

  lemma {:induction false} HealthVerdicts(p: Probes)
    ensures var fs := HealthFindings(p);
      && (Finding(Unhealthy, "realtime", 2) in fs <==> p.realtimeRunning && p.health == None)
      && (Finding(HealthDegraded, "realtime", 0) in fs <==>
            && p.realtimeRunning && p.health.Some?
            && (!p.health.value.statusOk || (!p.health.value.cacheOk && p.valkeyRunning)))
      && (forall f :: f in fs ==> f.service == "realtime" && (f.kind == Unhealthy || f.kind == HealthDegraded))
  {
  }

  lemma {:induction false} DiskWarned(cfg: Config, disks: seq<Option<int>>, n: nat)
    requires n <= |disks|
    ensures Finding(DiskHigh, "disk", 0) in DiskFindings(cfg, disks, n) <==>
      exists i :: 0 <= i < n && disks[i].Some? && disks[i].value >= cfg.diskMaxUsedPct
  {
    if n > 0 {
      DiskWarned(cfg, disks, n - 1);
    }
  }

  // ----- The breaker over a whole run -----

  /** While the log holds restarts only, acting on findings never takes a service beyond the limit of restarts
      in all, and leaves one at the limit where it is. */
  lemma {:induction false} ActedWithinLimit(cfg: Config, es: seq<Event>, findings: seq<Finding>, outcomes: nat -> bool, n: nat, now: int, svc: string)
    requires n <= |findings| && NoRecovery(findings) && forall e :: e in es ==> e.Restarted?
    requires Restarts(es, |es|, svc) >= cfg.maxConsecRestarts
    ensures var r := Acted(cfg, es, findings, outcomes, n, now); Restarts(r, |r|, svc) == Restarts(es, |es|, svc)
  {
    if n > 0 {
      ActedWithinLimit(cfg, es, findings, outcomes, n - 1, now, svc);
      ActedExtends(cfg, es, findings, outcomes, n - 1, now);
      var before, f := Acted(cfg, es, findings, outcomes, n - 1, now), findings[n - 1];
      assert f in findings;
      ConsecutiveIsTotal(before, |before|, f.service);
      LogPrefix(before, Restarted(f.service, now), |before|, svc);
    }
  }

  lemma {:induction false} TickWithinLimit(cfg: Config, before: Past, tick: Tick, svc: string)
    requires |cfg.services| == |tick.inspections| && forall e :: e in before.events ==> e.Restarted?
    requires RestartsIn(before, svc) >= cfg.maxConsecRestarts
    ensures RestartsIn(After(cfg, before, tick), svc) == RestartsIn(before, svc)
  {
    var found, stack := ServiceFindings(before.observed, cfg, tick, |cfg.services|), StackFindings(cfg, tick.probes);
    ServicesNeverRecover(before.observed, cfg, tick, |cfg.services|);
    StackNeverRecovers(cfg, tick.probes);
    ActedWithinLimit(cfg, before.events, found + stack, tick.outcomes, |found + stack|, tick.now, svc);
  }

  function RestartsIn(past: Past, svc: string): nat {
    Restarts(past.events, |past.events|, svc)
  }

  lemma {:induction false} NextWithinLimit(cfg: Config, ticks: seq<Tick>, n: nat, svc: string)
    requires 0 < n <= |ticks| && forall i :: 0 <= i < |ticks| ==> |ticks[i].inspections| == |cfg.services|
    requires RestartsSoFar(cfg, ticks, n - 1, svc) >= cfg.maxConsecRestarts
    ensures RestartsSoFar(cfg, ticks, n, svc) == RestartsSoFar(cfg, ticks, n - 1, svc)
  {
    ReplayOnlyRestarts(cfg, ticks, n - 1);
    TickWithinLimit(cfg, Replay(cfg, ticks, n - 1), ticks[n - 1], svc);
  }

  /** How often a service has been restarted in the first `n` ticks from start-up. */
  function RestartsSoFar(cfg: Config, ticks: seq<Tick>, n: nat, svc: string): nat
    requires n <= |ticks| && forall i :: 0 <= i < |ticks| ==> |ticks[i].inspections| == |cfg.services|
  {
    RestartsIn(Replay(cfg, ticks, n), svc)
  }

  /** Once a service has been restarted as often as the breaker allows, counted from start-up, it is never restarted
      again, however long it has been healthy in between. */
  lemma {:induction false} NeverRestartedAgain(cfg: Config, ticks: seq<Tick>, k: nat, n: nat, svc: string)
    requires k <= n <= |ticks| && forall i :: 0 <= i < |ticks| ==> |ticks[i].inspections| == |cfg.services|
    requires RestartsSoFar(cfg, ticks, k, svc) >= cfg.maxConsecRestarts
    ensures RestartsSoFar(cfg, ticks, n, svc) == RestartsSoFar(cfg, ticks, k, svc)
  {
    CountsStay(cfg, ticks, svc);
    StaysPut(Counts(cfg, ticks, svc), cfg.maxConsecRestarts, k, n);
  }

  /** The restarts of a service before each tick and after the last. */
  function Counts(cfg: Config, ticks: seq<Tick>, svc: string): (counts: seq<nat>)
    requires forall i :: 0 <= i < |ticks| ==> |ticks[i].inspections| == |cfg.services|
    ensures |counts| == |ticks| + 1
    ensures forall i :: 0 <= i <= |ticks| ==> counts[i] == RestartsSoFar(cfg, ticks, i, svc)
  {
    seq(|ticks| + 1, i requires 0 <= i <= |ticks| => RestartsSoFar(cfg, ticks, i, svc))
  }

  lemma {:induction false} CountsStay(cfg: Config, ticks: seq<Tick>, svc: string)
    requires forall i :: 0 <= i < |ticks| ==> |ticks[i].inspections| == |cfg.services|
    ensures var counts := Counts(cfg, ticks, svc);
      forall i :: 0 <= i < |counts| - 1 && counts[i] >= cfg.maxConsecRestarts ==> counts[i + 1] == counts[i]
  {
    var counts := Counts(cfg, ticks, svc);
    forall i | 0 <= i < |counts| - 1 && counts[i] >= cfg.maxConsecRestarts
      ensures counts[i + 1] == counts[i]
    {
      CountStays(cfg, ticks, svc, counts, i);
    }
  }

  lemma {:induction false} CountStays(cfg: Config, ticks: seq<Tick>, svc: string, counts: seq<nat>, i: nat)
    requires forall i :: 0 <= i < |ticks| ==> |ticks[i].inspections| == |cfg.services|
    requires counts == Counts(cfg, ticks, svc) && i < |ticks| && counts[i] >= cfg.maxConsecRestarts
    ensures counts[i + 1] == counts[i]
  {
    NextWithinLimit(cfg, ticks, i + 1, svc);
  }

  /** A count that no longer moves once it has reached a limit stays where it got there. */
  lemma {:induction false} StaysPut(counts: seq<nat>, limit: int, k: nat, n: nat)
    requires k <= n < |counts| && counts[k] >= limit
    requires forall i :: 0 <= i < |counts| - 1 && counts[i] >= limit ==> counts[i + 1] == counts[i]
    ensures counts[n] == counts[k]
    decreases n
  {
    if k < n {
      StaysPut(counts, limit, k, n - 1);
    }
  }

  /** So at any point of any run a finding is remedied exactly if it asks for an escalation, the cooldown since the
      latest restart is over, the service has been restarted fewer times in all than the breaker allows in a row,
      and the command succeeds. */
  lemma {:induction false} RemediedExactlyWhen(cfg: Config, ticks: seq<Tick>, n: nat, f: Finding, now: int, succeeds: bool)
    requires n <= |ticks| && forall i :: 0 <= i < |ticks| ==> |ticks[i].inspections| == |cfg.services|
    ensures var es := Replay(cfg, ticks, n).events;
      var last := LastRestart(es, |es|, f.service);
      RemedyFor(cfg, es, f, now, succeeds) == Done <==>
        && f.escalate > 0
        && (last.Some? ==> now - last.value >= cfg.restartCooldown)
        && Restarts(es, |es|, f.service) < cfg.maxConsecRestarts
        && (f.escalate <= 4 ==> succeeds)
  {
    ReplayOnlyRestarts(cfg, ticks, n);
    var es := Replay(cfg, ticks, n).events;
    ConsecutiveIsTotal(es, |es|, f.service);
  }

  /** Why a finding that asks for an escalation is not remedied: a restart of its service less than a cooldown ago;
      else the breaker; else a command that failed. */
  lemma {:induction false} RefusedExactlyWhen(cfg: Config, es: seq<Event>, f: Finding, now: int, succeeds: bool)
    requires Spaced(es, cfg.restartCooldown) && cfg.restartCooldown >= 0 && f.escalate > 0
    ensures var r := RemedyFor(cfg, es, f, now, succeeds);
      var recent := exists i :: 0 <= i < |es| && es[i].Restarted? && es[i].service == f.service && now - es[i].time < cfg.restartCooldown;
      var spent := Consecutive(es, |es|, f.service) >= cfg.maxConsecRestarts;
      && (r == Suppressed <==> recent)
      && (r == Manual <==> !recent && spent)
      && (r == Failed <==> !recent && !spent && f.escalate <= 4 && !succeeds)
      && r != NoAction
  {
    LastIsLatest(es, |es|, f.service, cfg.restartCooldown);
    LastIsOne(es, |es|, f.service);
  }

  lemma {:induction false} LastIsOne(es: seq<Event>, n: nat, svc: string)
    requires n <= |es|
    ensures LastRestart(es, n, svc).Some? ==>
      exists i :: 0 <= i < n && es[i].Restarted? && es[i].service == svc && es[i].time == LastRestart(es, n, svc).value
  {
    if n > 0 {
      LastIsOne(es, n - 1, svc);
    }
  }

  // ----- A relapse -----

  /** Nothing is known of the stack; only the containers speak. */
  const SILENT: Probes := Probes(false, None, false, None, false, false, [])

  function QuietTick(now: int, insp: Inspection): Tick {
    Tick(now, [insp], SILENT, _ => true)
  }

  predicate Steady(obs: seq<Observation>) {
    forall o :: o in obs ==> o.count == 0
  }

  lemma {:induction false} SteadyNeverRises(obs: seq<Observation>, n: nat, now: int, window: int)
    requires n <= |obs| && Steady(obs)
    ensures RisesInWindow(obs, n, now, window) == 0
  {
    if n >= 2 {
      SteadyNeverRises(obs, n - 1, now, window);
      assert obs[n - 1] in obs && obs[n - 2] in obs;
    }
  }

  /** With one service whose counter stands still and a silent stack, a tick detects what that container shows. */
  lemma {:induction false} QuietTickDetects(cfg: Config, observed: map<string, seq<Observation>>, now: int, insp: Inspection)
    requires cfg.services == ["api"] && insp.Seen? && insp.restartCount == 0 && Steady(HistoryIn(observed, "api"))
    ensures Detected(cfg, observed, QuietTick(now, insp)) == ContainerFindings(cfg, "api", insp, 0)
    ensures Steady(HistoryIn(ObservedAfter(observed, cfg, QuietTick(now, insp), 1), "api"))
  {
    var tick := QuietTick(now, insp);
    var history := HistoryIn(observed, "api") + [Observation(now, 0)];
    assert ObservedAfter(observed, cfg, tick, 1) == ObservedAfter(observed, cfg, tick, 0)["api" := history];
    SteadyNeverRises(history, |history|, now, cfg.crashLoopWindow);
    assert ServiceFindings(observed, cfg, tick, 1) == ServiceFindings(observed, cfg, tick, 0) + ContainerFindings(cfg, "api", insp, 0);
    assert StackFindings(cfg, SILENT) == [];
  }

  lemma {:induction false} ActOnOne(cfg: Config, es: seq<Event>, f: Finding, now: int)
    requires f.kind == ContainerDown
    ensures Acted(cfg, es, [f], _ => true, 1, now)
            == if RemedyFor(cfg, es, f, now, true) == Done then es + [Restarted(f.service, now)] else es
  {
    assert Acted(cfg, es, [f], _ => true, 0, now) == es;
  }

  const API_DOWN: Finding := Finding(ContainerDown, "api", 1)

  function Down(cfg: Config): Inspection {
    Seen(0, false, cfg.stoppedGrace, false)
  }

  const HEALTHY: Inspection := Seen(0, true, 0, false)

  ghost predicate OneRestartAllowed(cfg: Config) {
    && cfg.services == ["api"] && cfg.crashLoopMax > 0 && cfg.maxConsecRestarts == 1
    && 0 <= cfg.stoppedGrace <= NANOS_PER_DAY && cfg.restartCooldown <= NANOS_PER_DAY
  }

  lemma {:induction false} DownTick(cfg: Config, before: Past, now: int)
    requires OneRestartAllowed(cfg) && Steady(HistoryIn(before.observed, "api"))
    ensures var tick := QuietTick(now, Down(cfg));
      && Detected(cfg, before.observed, tick) == [API_DOWN]
      && Steady(HistoryIn(After(cfg, before, tick).observed, "api"))
      && After(cfg, before, tick).events ==
         if RemedyFor(cfg, before.events, API_DOWN, now, true) == Done then before.events + [Restarted("api", now)]
         else before.events
  {
    QuietTickDetects(cfg, before.observed, now, Down(cfg));
    ActOnOne(cfg, before.events, API_DOWN, now);
  }

  lemma {:induction false} HealthyTick(cfg: Config, before: Past, now: int)
    requires OneRestartAllowed(cfg) && Steady(HistoryIn(before.observed, "api"))
    ensures var tick := QuietTick(now, HEALTHY);
      && Detected(cfg, before.observed, tick) == []
      && Steady(HistoryIn(After(cfg, before, tick).observed, "api"))
      && After(cfg, before, tick).events == before.events
  {
    QuietTickDetects(cfg, before.observed, now, HEALTHY);
  }

  /** One container, one restart allowed: it is down and restarted, seen healthy, and a year later down again. The
      relapse is left to a human although the service had recovered. */
  lemma {:induction false} RelapseWitness(cfg: Config)
    requires OneRestartAllowed(cfg)
    ensures var ticks := [QuietTick(0, Down(cfg)), QuietTick(1, HEALTHY), QuietTick(365 * NANOS_PER_DAY, Down(cfg))];
      && Replay(cfg, ticks, 1).events == [Restarted("api", 0)]
      && Detected(cfg, Replay(cfg, ticks, 1).observed, ticks[1]) == []
      && Detected(cfg, Replay(cfg, ticks, 2).observed, ticks[2]) == [API_DOWN]
      && Replay(cfg, ticks, 3).events == [Restarted("api", 0)]
  {
    var year := 365 * NANOS_PER_DAY;
    var ticks := [QuietTick(0, Down(cfg)), QuietTick(1, HEALTHY), QuietTick(year, Down(cfg))];
    assert Replay(cfg, ticks, 0) == Past(map[], []);
    DownTick(cfg, Replay(cfg, ticks, 0), 0);
    FirstRestart(cfg, year);
    HealthyTick(cfg, Replay(cfg, ticks, 1), 1);
    DownTick(cfg, Replay(cfg, ticks, 2), year);
  }

  lemma {:induction false} FirstRestart(cfg: Config, later: int)
    requires OneRestartAllowed(cfg) && later >= NANOS_PER_DAY
    ensures RemedyFor(cfg, [], API_DOWN, 0, true) == Done
    ensures RemedyFor(cfg, [Restarted("api", 0)], API_DOWN, later, true) == Manual
  {
    var es := [Restarted("api", 0)];
    assert Consecutive(es, 1, "api") == Consecutive(es, 0, "api") + 1;
  }

  // ----- The escalation nobody serves -----

  const LOST_POOL: Finding := Finding(HealthDegraded, "realtime", 2)

  /** The engine answers and reports that it lost its database although the database runs. */
  predicate PoolLost(p: Probes) {
    p.realtimeRunning && p.health.Some? && !p.health.value.dbOk && p.pgRunningForEngine
  }

  lemma {:induction false} DisksOnlyWarn(cfg: Config, disks: seq<Option<int>>, n: nat)
    requires n <= |disks|
    ensures forall f :: f in DiskFindings(cfg, disks, n) ==> f == Finding(DiskHigh, "disk", 0)
  {
    if n > 0 {
      DisksOnlyWarn(cfg, disks, n - 1);
    }
  }

  /** The restart of the engine is asked for exactly when its pool is lost. */
  lemma {:induction false} LostPoolDetectedExactlyWhen(cfg: Config, p: Probes)
    ensures LOST_POOL in StackFindings(cfg, p) <==> PoolLost(p)
    ensures forall f :: f in StackFindings(cfg, p) && f.escalate > 0 ==> f == LOST_POOL || f == Finding(Unhealthy, "realtime", 2)
  {
    DisksOnlyWarn(cfg, p.disks, |p.disks|);
  }

  /** A finding about a container that asks for an escalation is actionable. */
  lemma {:induction false} ServicesAskActionably(observed: map<string, seq<Observation>>, cfg: Config, tick: Tick, n: nat)
    requires n <= |cfg.services| == |tick.inspections|
    ensures AsksActionably(ServiceFindings(observed, cfg, tick, n))
  {
    if n > 0 {
      ServicesAskActionably(observed, cfg, tick, n - 1);
      var history := HistoryIn(ObservedAfter(observed, cfg, tick, n), cfg.services[n - 1]);
      ContainerAsksActionably(cfg, cfg.services[n - 1], tick.inspections[n - 1],
                              RisesInWindow(history, |history|, tick.now, cfg.crashLoopWindow));
    }
  }

  lemma {:induction false} ContainerAsksActionably(cfg: Config, svc: string, insp: Inspection, inWindow: int)
    ensures AsksActionably(ContainerFindings(cfg, svc, insp, inWindow))
  {
  }

  predicate AsksActionably(fs: seq<Finding>) {
    forall f :: f in fs ==> f.kind != HealthDegraded && (f.escalate > 0 ==> Actionable(f))
  }

  /** Of everything a tick detects, exactly the degraded-engine findings ask for an escalation that is never acted on;
      there is one exactly when the engine's pool is lost. */
  lemma {:induction false} UnservedExactlyWhen(observed: map<string, seq<Observation>>, cfg: Config, tick: Tick)
    requires |cfg.services| == |tick.inspections|
    ensures forall f :: f in Detected(cfg, observed, tick) && f.escalate > 0 ==> (!Actionable(f) <==> f.kind == HealthDegraded)
    ensures (exists f :: f in Detected(cfg, observed, tick) && f.escalate > 0 && !Actionable(f)) <==> PoolLost(tick.probes)
  {
    ServicesAskActionably(observed, cfg, tick, |cfg.services|);
    LostPoolDetectedExactlyWhen(cfg, tick.probes);
    if PoolLost(tick.probes) {
      assert LOST_POOL in Detected(cfg, observed, tick) && !Actionable(LOST_POOL);
    }
  }

  /** With a healthy engine container and only the pool lost, the restart is asked for and none is made, whatever
      the log and the outcomes. */
  lemma {:induction false} LostPoolIgnoredWitness(cfg: Config, es: seq<Event>, now: int, outcomes: nat -> bool)
    requires cfg.services == ["realtime"] && cfg.crashLoopMax > 0
    ensures var p := Probes(true, Some(cfg.maxTickAge), true, Some(Health(true, false, true)), true, true, []);
      var tick := Tick(now, [Seen(0, true, 0, false)], p, outcomes);
      LOST_POOL in Detected(cfg, map[], tick) && EventsAfter(cfg, map[], es, tick) == es
  {
    var p := Probes(true, Some(cfg.maxTickAge), true, Some(Health(true, false, true)), true, true, []);
    var tick := Tick(now, [Seen(0, true, 0, false)], p, outcomes);
    assert ObservedAfter(map[], cfg, tick, 1) == ObservedAfter(map[], cfg, tick, 0)["realtime" := [] + [Observation(now, 0)]];
    assert ServiceFindings(map[], cfg, tick, 1) == ServiceFindings(map[], cfg, tick, 0) + [];
    assert Detected(cfg, map[], tick) == [LOST_POOL];
    assert Acted(cfg, es, [LOST_POOL], outcomes, 1, now) == Acted(cfg, es, [LOST_POOL], outcomes, 0, now);
  }

  // ----- The state -----

  class WatchState {
    const config: Config
    var rest: map<string, int>
    var restartLog: map<string, seq<int>>
    var lastRestart: map<string, int>
    var consecRest: map<string, int>
    ghost var observed: map<string, seq<Observation>>   // every inspection that succeeded
    ghost var events: seq<Event>                        // every restart and every recovery
    ghost var clock: int                                // the latest instant seen

    ghost function History(svc: string): seq<Observation>
      reads this`observed
    {
      HistoryIn(observed, svc)
    }

    /** The stored counter and the pruned log say exactly what the history of inspections says. */
    ghost predicate InStep(svc: string)
      reads this`rest, this`restartLog, this`observed, this`clock
    {
      var obs := History(svc);
      var rises := Rises(obs, |obs|);
      if obs == [] then svc !in rest && svc !in restartLog
      else
        && svc in rest && rest[svc] == obs[|obs| - 1].count
        && svc in restartLog && restartLog[svc] == Within(rises, |rises|, obs[|obs| - 1].time, config.crashLoopWindow)
        && obs[|obs| - 1].time <= clock
    }

    ghost predicate Breaker(svc: string)
      reads this`lastRestart, this`consecRest, this`events
    {
      && (if svc in consecRest then consecRest[svc] else 0) == Consecutive(events, |events|, svc)
      && LastRestart(events, |events|, svc) == (if svc in lastRestart then Some(lastRestart[svc]) else None)
    }

    /** What detection keeps: every service's stored window agrees with its history. */
    ghost predicate Watching()
      reads this`rest, this`restartLog, this`observed, this`clock
    {
      forall svc :: InStep(svc)
    }

    /** What remediation keeps: its maps agree with the log of restarts, which is spaced and bounded. */
    ghost predicate Bounded()
      reads this`lastRestart, this`consecRest, this`events
    {
      && (forall svc :: Breaker(svc))
      && Spaced(events, config.restartCooldown)
      && BreakerHolds(events, config.maxConsecRestarts)
    }

    ghost predicate Valid()
      reads this
    {
      Watching() && Bounded() && NotBeyond(events, clock)
    }

    constructor (config: Config)
      ensures Valid() && this.config == config && events == [] && observed == map[]
    {
      this.config := config;
      rest, restartLog, lastRestart, consecRest := map[], map[], map[], map[];
      observed, events, clock := map[], [], 0;
    }

    ghost method MoveClock(now: int)
      requires Valid() && clock <= now
      modifies this`clock
      ensures Valid() && clock == now
    {
      clock := now;
      assert forall s :: old(InStep(s)) ==> InStep(s);
    }

    /** One service of the supervision loop. */
    method SuperviseOne(svc: string, insp: Inspection, now: int) returns (fs: seq<Finding>)
      requires Valid() && clock <= now
      modifies this`rest, this`restartLog, this`observed, this`clock
      ensures Valid() && clock == now
      ensures insp == Missing ==> observed == old(observed)
      ensures insp.Seen? ==> observed == old(observed)[svc := old(History(svc)) + [Observation(now, insp.restartCount)]]
      ensures fs == ContainerFindings(config, svc, insp, RisesInWindow(History(svc), |History(svc)|, now, config.crashLoopWindow))
    {
      MoveClock(now);
      if insp.Missing? {
        return [Finding(ContainerDown, svc, 3)];
      }
      var inWin := Observe(svc, insp.restartCount, now);
      if |inWin| >= config.crashLoopMax {
        return [Finding(CrashLoop, svc, 0)];
      }
      if !insp.running {
        var stopped := insp.stoppedFor;
        if stopped < 0 || stopped > NANOS_PER_DAY {
          stopped := config.stoppedGrace + NANOS_PER_MINUTE;
        }
        if stopped < config.stoppedGrace {
          return [];
        }
        return [Finding(ContainerDown, svc, 1)];
      }
      if insp.unhealthy {
        return [Finding(Unhealthy, svc, 2)];
      }
      return [];
    }

    /** Record a counter reading and prune the window. */
    method Observe(svc: string, count: int, now: int) returns (inWin: seq<int>)
      requires Valid() && clock == now
      modifies this`rest, this`restartLog, this`observed
      ensures Valid()
      ensures observed == old(observed)[svc := old(History(svc)) + [Observation(now, count)]]
      ensures |inWin| == RisesInWindow(History(svc), |History(svc)|, now, config.crashLoopWindow)
    {
      ghost var obs, o := History(svc), Observation(now, count);
      var log := Extended(svc, count, now);
      inWin := Prune(log, now);
      IncrementalWindow(obs, o, config.crashLoopWindow, log);
      WindowSize(obs + [o], |obs| + 1, now, config.crashLoopWindow);
      Store(svc, Observation(now, count), inWin);
    }

    /** The stored window with this reading's rise, if it is one. */
    method Extended(svc: string, count: int, now: int) returns (log: seq<int>)
      requires InStep(svc) && clock == now
      ensures History(svc) != [] ==> History(svc)[|History(svc)| - 1].time <= now
      ensures log == StoredWindow(History(svc), config.crashLoopWindow) + NewRise(History(svc), Observation(now, count))
    {
      log := if svc in restartLog then restartLog[svc] else [];
      if svc in rest && count > rest[svc] {
        log := log + [now];
      }
    }

    /** Put one reading and its pruned window into the maps. */
    method Store(svc: string, o: Observation, inWin: seq<int>)
      requires Watching() && o.time == clock
      requires var obs := History(svc) + [o];
        inWin == Within(Rises(obs, |obs|), |Rises(obs, |obs|)|, o.time, config.crashLoopWindow)
      modifies this`rest, this`restartLog, this`observed
      ensures Watching() && observed == old(observed)[svc := old(History(svc)) + [o]]
    {
      ghost var obs := History(svc);
      rest := rest[svc := o.count];
      restartLog := restartLog[svc := inWin];
      observed := observed[svc := obs + [o]];
      assert History(svc) == obs + [o];
      assert InStep(svc);
      forall s | s != svc
        ensures InStep(s)
      {
        assert old(InStep(s)) && History(s) == old(History(s));
      }
    }

    method Prune(log: seq<int>, now: int) returns (inWin: seq<int>)
      ensures inWin == Within(log, |log|, now, config.crashLoopWindow)
    {
      inWin := [];
      for i := 0 to |log|
        invariant inWin == Within(log, i, now, config.crashLoopWindow)
      {
        if now - log[i] <= config.crashLoopWindow {
          inWin := inWin + [log[i]];
        }
      }
    }

    /** The whole detection pass: one verdict per service, each from that service's own history, then the stack. */
    method Supervise(tick: Tick) returns (findings: seq<Finding>)
      requires Valid() && clock <= tick.now && |tick.inspections| == |config.services|
      modifies this`rest, this`restartLog, this`observed, this`clock
      ensures Valid() && clock == tick.now
      ensures observed == ObservedAfter(old(observed), config, tick, |config.services|)
      ensures findings == Detected(config, old(observed), tick)
    {
      findings := [];
      MoveClock(tick.now);
      for i := 0 to |config.services|
        invariant Valid() && clock == tick.now
        invariant observed == ObservedAfter(old(observed), config, tick, i)
        invariant findings == ServiceFindings(old(observed), config, tick, i)
      {
        var fs := SuperviseOne(config.services[i], tick.inspections[i], tick.now);
        findings := findings + fs;
      }
      findings := findings + StackFindings(config, tick.probes);
    }

    /** Escalate one finding behind the cooldown and the breaker. */
    method Remediate(f: Finding, now: int, succeeds: bool) returns (r: Remedy)
      requires Valid() && now == clock && config.restartCooldown >= 0
      modifies this`lastRestart, this`consecRest, this`events
      ensures Valid() && r == RemedyFor(config, old(events), f, now, succeeds)
      ensures events == if r == Done then old(events) + [Restarted(f.service, now)] else old(events)
    {
      if f.escalate <= 0 {
        return NoAction;
      }
      assert Breaker(f.service);
      if f.service in lastRestart && now - lastRestart[f.service] < config.restartCooldown {
        return Suppressed;
      }
      var consecutive := if f.service in consecRest then consecRest[f.service] else 0;
      if consecutive >= config.maxConsecRestarts {
        return Manual;
      }
      if 1 <= f.escalate <= 4 && !succeeds {
        return Failed;
      }
      RestartKeepsSpacing(events, f.service, now, config.restartCooldown);
      Mark(f.service, now, consecutive);
      return Done;
    }

    /** Note a restart that went through. */
    method Mark(svc: string, now: int, consecutive: int)
      requires Bounded() && consecutive == Consecutive(events, |events|, svc) < config.maxConsecRestarts
      requires Spaced(events + [Restarted(svc, now)], config.restartCooldown)
      modifies this`lastRestart, this`consecRest, this`events
      ensures Bounded() && events == old(events) + [Restarted(svc, now)]
    {
      ghost var es := events;
      lastRestart := lastRestart[svc := now];
      consecRest := consecRest[svc := consecutive + 1];
      events := events + [Restarted(svc, now)];
      forall s
        ensures Breaker(s) && (Consecutive(events, |events|, s) == 0 || Consecutive(events, |events|, s) <= config.maxConsecRestarts)
      {
        LogPrefix(es, Restarted(svc, now), |es|, s);
        assert old(Breaker(s));
      }
    }

    method Reset(svc: string)
      requires Valid()
      modifies this`consecRest, this`events
      ensures Valid() && events == old(events) + [Recovered(svc)]
    {
      ghost var es := events;
      consecRest := consecRest[svc := 0];
      events := events + [Recovered(svc)];
      forall s
        ensures Breaker(s) && (Consecutive(events, |events|, s) == 0 || Consecutive(events, |events|, s) <= config.maxConsecRestarts)
      {
        LogPrefix(es, Recovered(svc), |es|, s);
        assert old(Breaker(s));
      }
    }

    /** The dispatch loop over one tick's findings. */
    method Dispatch(findings: seq<Finding>, outcomes: nat -> bool, now: int)
      requires Valid() && now == clock && config.restartCooldown >= 0
      modifies this`lastRestart, this`consecRest, this`events
      ensures Valid() && events == Acted(config, old(events), findings, outcomes, |findings|, now)
    {
      for i := 0 to |findings|
        invariant Valid() && events == Acted(config, old(events), findings, outcomes, i, now)
      {
        ActOn(findings[i], now, outcomes(i));
      }
    }

    method ActOn(f: Finding, now: int, succeeds: bool)
      requires Valid() && now == clock && config.restartCooldown >= 0
      modifies this`lastRestart, this`consecRest, this`events
      ensures Valid() && events == ActedOn(config, old(events), f, now, succeeds)
    {
      match f.kind {
        case Recovery => Reset(f.service);
        case CrashLoop =>
        case ContainerDown => var _ := Remediate(f, now, succeeds);
        case Unhealthy => var _ := Remediate(f, now, succeeds);
        case TicksStale => var _ := Remediate(f, now, succeeds);
        case HealthDegraded =>
        case DiskHigh =>
      }
    }

    /** One tick: detect, then act. */
    method RunOnce(tick: Tick)
      requires Valid() && clock <= tick.now && |tick.inspections| == |config.services| && config.restartCooldown >= 0
      modifies this
      ensures Valid() && clock == tick.now
      ensures observed == ObservedAfter(old(observed), config, tick, |config.services|)
      ensures events == EventsAfter(config, old(observed), old(events), tick)
    {
      var findings := Supervise(tick);
      Dispatch(findings, tick.outcomes, tick.now);
    }

    /** The main loop from start-up: over any number of ticks, no service is ever restarted more often than the
        breaker allows, and never twice within the cooldown. */
    method Run(ticks: seq<Tick>)
      requires Valid() && observed == map[] && events == [] && config.restartCooldown >= 0
      requires forall i :: 0 <= i < |ticks| ==> clock <= ticks[i].now && |ticks[i].inspections| == |config.services|
      requires forall i, j :: 0 <= i <= j < |ticks| ==> ticks[i].now <= ticks[j].now
      modifies this
      ensures Valid() && Past(observed, events) == Replay(config, ticks, |ticks|)
      ensures Spaced(events, config.restartCooldown)
      ensures forall svc :: Restarts(events, |events|, svc) == 0 || Restarts(events, |events|, svc) <= config.maxConsecRestarts
    {
      for i := 0 to |ticks|
        invariant Valid() && Past(observed, events) == Replay(config, ticks, i)
        invariant forall j :: i <= j < |ticks| ==> clock <= ticks[j].now
      {
        RunOnce(ticks[i]);
      }
      ReplayOnlyRestarts(config, ticks, |ticks|);
      forall svc
        ensures Restarts(events, |events|, svc) == 0 || Restarts(events, |events|, svc) <= config.maxConsecRestarts
      {
        ConsecutiveIsTotal(events, |events|, svc);
      }
    }
  }

  /** Only these findings can lead to a restart. A degraded engine is alerted on, even when its finding asks for
      an escalation; stale ticks carry no escalation. */
  predicate Actionable(f: Finding) {
    (f.kind == ContainerDown || f.kind == Unhealthy || f.kind == TicksStale) && f.escalate > 0
  }

  /** The window as the last inspection left it. */
  function StoredWindow(obs: seq<Observation>, window: int): seq<int> {
    var rises := Rises(obs, |obs|);
    if obs == [] then [] else Within(rises, |rises|, obs[|obs| - 1].time, window)
  }

  function NewRise(obs: seq<Observation>, o: Observation): seq<int> {
    if obs != [] && o.count > obs[|obs| - 1].count then [o.time] else []
  }

  /** Appending the new rise and pruning against now gives the window of the whole history. */
  lemma {:induction false} IncrementalWindow(obs: seq<Observation>, o: Observation, window: int, appended: seq<int>)
    requires obs != [] ==> obs[|obs| - 1].time <= o.time
    requires appended == StoredWindow(obs, window) + NewRise(obs, o)
    ensures var rises' := Rises(obs + [o], |obs| + 1);
      Within(appended, |appended|, o.time, window) == Within(rises', |rises'|, o.time, window)
  {
    RisesPrefix(obs, o, |obs|);
    if obs != [] {
      var rises := Rises(obs, |obs|);
      var kept := Within(rises, |rises|, obs[|obs| - 1].time, window);
      var step := if o.count > obs[|obs| - 1].count then [o.time] else [];
      assert Rises(obs + [o], |obs| + 1) == rises + step;
      PruneTwice(rises, |rises|, obs[|obs| - 1].time, o.time, window);
      WithinAppend(kept, step, |step|, o.time, window);
      WithinAppend(rises, step, |step|, o.time, window);
    }
  }
}
