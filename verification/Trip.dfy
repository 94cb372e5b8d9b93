/** The trip switch: a file whose existence means "deny everyone", re-read at most once
    per interval. */
module Trip {
  datatype TripState = TripState(lastCheck: real, cached: bool)

  /** The state after `is_tripped` at clock `now`, when the file exists or not. */
  function Checked(s: TripState, interval: real, now: real, fileExists: bool): TripState {
    if now - s.lastCheck >= interval then TripState(now, fileExists) else s
  }

  /** The state after `trip`: the next check re-reads. */
  function Reset(s: TripState): TripState {
    s.(lastCheck := 0.0)
  }

  class TripSwitch {
    const interval: real
    var lastCheck: real
    var cached: bool

    constructor (interval: real)
      ensures this.interval == interval && State() == TripState(0.0, false)
    {
      this.interval := interval;
      lastCheck, cached := 0.0, false;
    }

    function State(): TripState
      reads this
    {
      TripState(lastCheck, cached)
    }

    method IsTripped(now: real, fileExists: bool) returns (r: bool)
      modifies this
      ensures State() == Checked(old(State()), interval, now, fileExists)
      ensures r == cached
    {
      if now - lastCheck >= interval {
        cached := fileExists;
        lastCheck := now;
      }
      return cached;
    }

    method Trip()
      modifies this
      ensures State() == Reset(old(State()))
    {
      lastCheck := 0.0;
    }
  }
}
