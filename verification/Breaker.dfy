/** The circuit breaker contracts share: pause levels, paused functions and activity per period. */
module Breaker {
  import opened Common
  import opened FixedPoint

  datatype Level = Running | Partial | Full

  datatype Config = Config(maxVolume: int, maxTx: nat, period: nat)

  datatype Activity = Activity(periodStart: nat, volume: int, txCount: nat, lastTrigger: nat, level: Level)

  /** The stored activity and the functions paused by name. */
  datatype State = State(config: Config, activity: Activity, pausedFunctions: set<string>)

  datatype Tracked = Tracked(activity: Activity) | Aborted

  predicate Paused(s: State, name: string) {
    s.activity.level.Full? || (s.activity.level.Partial? && name in s.pausedFunctions)
  }

  predicate Restarts(config: Config, a: Activity, now: nat) {
    now >= a.periodStart + config.period
  }

  /** The activity of the current period. */
  function Current(config: Config, a: Activity, now: nat): Activity {
    if Restarts(config, a, now) then a.(periodStart := now, volume := 0, txCount := 0) else a
  }

  /** The clock and the period's two counters stay in range. */
  predicate TrackFits(config: Config, a: Activity, now: nat, volume: int) {
    && a.periodStart + config.period < U64
    && Fits(Current(config, a, now).volume + volume)
    && Current(config, a, now).txCount + 1 < U64
  }

  /** The activity after one more call, and whether it trips the breaker. A breaker that is already
      paused at some level is not tripped again. */
  function Track(config: Config, a: Activity, now: nat, volume: int): Tracked {
    if !TrackFits(config, a, now, volume) then Aborted
    else
      var current := Current(config, a, now);
      var added := current.(volume := current.volume + volume, txCount := current.txCount + 1);
      var triggered := added.volume >= config.maxVolume || added.txCount >= config.maxTx;
      Tracked(if triggered && added.level.Running? then added.(level := Full, lastTrigger := now) else added)
  }

  function WithLevel(s: State, level: Level): State {
    s.(activity := s.activity.(level := level))
  }

  function WithPaused(s: State, name: string): State {
    var t := s.(pausedFunctions := s.pausedFunctions + {name});
    if s.activity.level.Running? then WithLevel(t, Partial) else t
  }

  /** The level is left for the admin to lower. */
  function WithUnpaused(s: State, name: string): State {
    s.(pausedFunctions := s.pausedFunctions - {name})
  }

  class CircuitBreaker {
    const config: Config
    var activity: Activity
    var pausedFunctions: set<string>

    ghost function Stored(): State
      reads this
    {
      State(config, activity, pausedFunctions)
    }

    constructor (config: Config, now: nat)
      ensures Stored() == State(config, Activity(now, 0, 0, 0, Running), {})
    {
      this.config := config;
      activity, pausedFunctions := Activity(now, 0, 0, 0, Running), {};
    }

    method IsPaused(name: string) returns (paused: bool)
      ensures paused == Paused(Stored(), name)
    {
      if activity.level == Full {
        return true;
      }
      paused := false;
      if activity.level == Partial {
        paused := name in pausedFunctions;
      }
    }

    /** False when the call aborts. */
    method TrackActivity(volume: int, now: nat) returns (ok: bool)
      modifies this`activity
      ensures match Track(config, old(activity), now, volume)
        case Tracked(after) => ok && activity == after
        case Aborted => !ok && activity == old(activity)
    {
      var a := activity;
      if a.periodStart + config.period >= U64 {
        return false;
      }
      if now >= a.periodStart + config.period {
        a := a.(periodStart := now);
        a := a.(volume := 0);
        a := a.(txCount := 0);
      }
      if !Fits(a.volume + volume) || a.txCount + 1 >= U64 {
        return false;
      }
      a := a.(volume := a.volume + volume);
      a := a.(txCount := a.txCount + 1);
      var triggered := false;
      if a.volume >= config.maxVolume {
        triggered := true;
      }
      if a.txCount >= config.maxTx {
        triggered := true;
      }
      if triggered && a.level == Running {
        a := a.(level := Full);
        a := a.(lastTrigger := now);
      }
      activity := a;
      ok := true;
    }

    method SetPauseLevel(level: Level)
      modifies this`activity
      ensures Stored() == WithLevel(old(Stored()), level)
    {
      activity := activity.(level := level);
    }

    method PauseFunction(name: string)
      modifies this`activity, this`pausedFunctions
      ensures Stored() == WithPaused(old(Stored()), name)
    {
      pausedFunctions := pausedFunctions + {name};
      if activity.level == Running {
        activity := activity.(level := Partial);
      }
    }

    method UnpauseFunction(name: string)
      modifies this`pausedFunctions
      ensures Stored() == WithUnpaused(old(Stored()), name)
    {
      pausedFunctions := pausedFunctions - {name};
    }
  }
}
