/** Durations shared by the backtest and the watchdog. Instants and durations are integer nanoseconds; instant 0 is
    the language's zero time. */
module Durations {
  const NANOS_PER_MINUTE: int := 60_000_000_000
  const NANOS_PER_DAY: int := 86_400_000_000_000
}
