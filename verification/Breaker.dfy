/** The circuit breaker around token acquisition. */
module Breaker {

  /** gobreaker's three states, with what each remembers. */
  datatype State = Closed(failures: nat) | Open(since: int) | HalfOpen

  /** `-cb-threshold` and `-cb-timeout`, as `validateFlags` admits them. */
  datatype Settings = Settings(threshold: nat, timeout: nat)

  predicate ValidSettings(c: Settings) {
    1 <= c.threshold < 0x1_0000_0000 && 0 < c.timeout
  }

  datatype Verdict = Admitted | OpenState | TooManyRequests

  function Before(c: Settings, b: State, now: int): (State, Verdict) {
    match b
    case Closed(_) => (b, Admitted)
    case Open(since) => if since + c.timeout <= now then (HalfOpen, Admitted) else (b, OpenState)
    case HalfOpen => (b, TooManyRequests)
  }

  function After(c: Settings, b: State, now: int, ok: bool): State {
    match b
    case Closed(failures) =>
      if ok then Closed(0) else if c.threshold <= failures + 1 then Open(now) else Closed(failures + 1)
    case HalfOpen => if ok then Closed(0) else Open(now)
    case Open(_) => b
  }

  /** The breaker object. `GetToken` holds its mutex from Enter to Leave. */
  class CircuitBreaker {
    const settings: Settings
    var state: State

    constructor (settings: Settings)
      ensures this.settings == settings && state == Closed(0)
    {
      this.settings, state := settings, Closed(0);
    }

    method Enter(now: int) returns (v: Verdict)
      modifies this
      ensures (state, v) == Before(settings, old(state), now)
    {
      if state.Open? {
        if now < state.since + settings.timeout {
          return OpenState;
        }
        state := HalfOpen;
        return Admitted;
      }
      if state.HalfOpen? {
        return TooManyRequests;
      }
      return Admitted;
    }

    method Leave(now: int, ok: bool)
      modifies this
      ensures state == After(settings, old(state), now, ok)
    {
      if state.Closed? {
        if ok {
          state := Closed(0);
        } else {
          var failures := state.failures + 1;
          state := if settings.threshold <= failures then Open(now) else Closed(failures);
        }
      } else if state.HalfOpen? {
        state := if ok then Closed(0) else Open(now);
      }
    }
  }
}
