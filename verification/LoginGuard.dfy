/** The breaker wrapped around the provider, with any number of concurrent callers. */
module LoginGuard {
  import opened Strings
  import B = Breaker
  import P = Provider

  /** A caller waits for the mutex, is let in by the breaker, has its answer from the provider. */
  datatype Caller = Waiting | Inside | Fetched(ok: bool)

  /** `lock` is the mutex `GetToken` holds across the breaker and the provider; the provider's
      ticker, its Close and the passing of time are not under it. */
  datatype Guard = Guard(settings: B.Settings, breaker: B.State, lock: Option<nat>, callers: map<nat, Caller>,
                         provider: P.Provider, failed: nat, succeeded: nat)

  datatype Action =
    | Arrive(c: nat)
    | Enter(c: nat)
    | Fetch(c: nat, w: P.World)
    | Report(c: nat)
    | Background(op: P.Op)

  function New(settings: B.Settings, mac: string -> P.Fingerprint, source: P.Source): Guard {
    Guard(settings, B.Closed(0), None, map[], P.New(mac, source), 0, 0)
  }

  predicate Is(g: Guard, c: nat, k: Caller) {
    c in g.callers && g.callers[c] == k
  }

  function Next(g: Guard, a: Action): Guard {
    match a
    case Arrive(c) => if c in g.callers then g else g.(callers := g.callers[c := Waiting])
    case Enter(c) =>
      if !Is(g, c, Waiting) || g.lock.Some? then g
      else
        var (b, v) := B.Before(g.settings, g.breaker, g.provider.clock);
        if v.Admitted? then g.(breaker := b, lock := Some(c), callers := g.callers[c := Inside])
        else g.(breaker := b, callers := g.callers - {c})
    case Fetch(c, w) =>
      if !Is(g, c, Inside) then g
      else
        var (p, ok) := P.Get(g.provider, w);
        g.(provider := p, callers := g.callers[c := Fetched(ok)])
    case Report(c) =>
      if !(c in g.callers && g.callers[c].Fetched?) then g
      else
        var ok := g.callers[c].ok;
        g.(breaker := B.After(g.settings, g.breaker, g.provider.clock, ok), lock := None, callers := g.callers - {c},
           failed := g.failed + (if ok then 0 else 1), succeeded := g.succeeded + (if ok then 1 else 0))
    case Background(op) => if op.GetToken? then g else g.(provider := P.Next(g.provider, op))
  }

  function Exec(g: Guard, schedule: seq<Action>): Guard {
    if schedule == [] then g else Next(Exec(g, schedule[..|schedule| - 1]), schedule[|schedule| - 1])
  }

  // ------------------------------------------------------------------- invariant

  /** In the middle of an acquisition. */
  predicate AtWork(g: Guard, c: nat) {
    c in g.callers && !g.callers[c].Waiting?
  }

  ghost predicate Inv(g: Guard) {
    && B.ValidSettings(g.settings)
    && (forall c: nat :: AtWork(g, c) <==> g.lock == Some(c))
    && match g.breaker
       case Closed(failures) => failures < g.settings.threshold
       case Open(since) => since <= g.provider.clock && g.lock.None?
       case HalfOpen => g.lock.Some?
  }

  lemma {:induction false} ClockMovesForward(p: P.Provider, op: P.Op)
    ensures p.clock <= P.Next(p, op).clock
  {}

  lemma {:induction false} NextKeepsInv(g: Guard, a: Action)
    requires Inv(g)
    ensures Inv(Next(g, a)) && Next(g, a).settings == g.settings && g.provider.clock <= Next(g, a).provider.clock
  {
    match a
    case Background(op) => ClockMovesForward(g.provider, op);
    case Fetch(c, w) =>
      ClockMovesForward(g.provider, P.GetToken(w));
      forall d: nat ensures AtWork(Next(g, a), d) == AtWork(g, d) {}
    case Report(c) =>
      assert c in g.callers && g.callers[c].Fetched? ==> AtWork(g, c);
      forall d: nat | d != c ensures AtWork(Next(g, a), d) == AtWork(g, d) {}
    case _ =>
  }

  lemma {:induction false} ExecKeepsInv(g: Guard, schedule: seq<Action>)
    requires Inv(g)
    ensures Inv(Exec(g, schedule)) && Exec(g, schedule).settings == g.settings
    ensures g.provider.clock <= Exec(g, schedule).provider.clock
  {
    if schedule != [] {
      ExecKeepsInv(g, schedule[..|schedule| - 1]);
      NextKeepsInv(Exec(g, schedule[..|schedule| - 1]), schedule[|schedule| - 1]);
    }
  }

  /** However many callers there are, at most one is inside an acquisition, and none is ever
      turned away because another caller's probe is running. */
  lemma {:induction false} OneAcquisitionAtATime(settings: B.Settings, mac: string -> P.Fingerprint, source: P.Source,
                              schedule: seq<Action>, c: nat, d: nat)
    requires B.ValidSettings(settings)
    ensures var g := Exec(New(settings, mac, source), schedule);
            && (AtWork(g, c) && AtWork(g, d) ==> c == d)
            && (g.lock.None? ==> !B.Before(settings, g.breaker, g.provider.clock).1.TooManyRequests?)
  {
    ExecKeepsInv(New(settings, mac, source), schedule);
  }

  // ------------------------------------------------------------ the failure budget

  /** The failures since g0, against the time since g0. */
  ghost predicate Budget(g0: Guard, g: Guard) {
    var f := g.failed - g0.failed;
    var start := g0.provider.clock;
    var n := g.settings.threshold;
    var timeout := g.settings.timeout;
    match g.breaker
    case Closed(failures) => f <= failures
    case Open(since) => if since < start then f == 0 else (f - n) * timeout <= since - start
    case HalfOpen => (f + 1 - n) * timeout <= g.provider.clock - start
  }

  lemma {:induction false} OneMore(k: int, timeout: nat)
    ensures (k + 1) * timeout == k * timeout + timeout
    ensures k <= 0 ==> k * timeout <= 0
  {}

  lemma {:induction false} NextKeepsBudget(g0: Guard, g: Guard, a: Action)
    requires Inv(g) && g0.settings == g.settings && g0.provider.clock <= g.provider.clock && g0.failed <= g.failed
    requires Budget(g0, g) && Next(g, a).succeeded == g.succeeded
    ensures Budget(g0, Next(g, a)) && g.failed <= Next(g, a).failed
  {
    var f := g.failed - g0.failed;
    var n := g.settings.threshold;
    OneMore(f - n, g.settings.timeout);
    OneMore(f - n + 1, g.settings.timeout);
    match a
    case Background(op) => ClockMovesForward(g.provider, op);
    case Fetch(c, w) => ClockMovesForward(g.provider, P.GetToken(w));
    case Report(c) => assert c in g.callers && g.callers[c].Fetched? ==> AtWork(g, c);
    case _ =>
  }

  lemma {:induction false} ExecKeepsBudget(g0: Guard, schedule: seq<Action>)
    requires Inv(g0)
    requires Exec(g0, schedule).succeeded == g0.succeeded
    ensures Budget(g0, Exec(g0, schedule)) && g0.failed <= Exec(g0, schedule).failed
  {
    OneMore(1 - g0.settings.threshold, g0.settings.timeout);
    if schedule != [] {
      var before := schedule[..|schedule| - 1];
      SuccessesOnlyGrow(g0, before);
      ExecKeepsBudget(g0, before);
      ExecKeepsInv(g0, before);
      NextKeepsBudget(g0, Exec(g0, before), schedule[|schedule| - 1]);
    }
  }

  lemma {:induction false} SuccessesOnlyGrow(g: Guard, schedule: seq<Action>)
    ensures g.succeeded <= Exec(g, schedule).succeeded
  {
    if schedule != [] { SuccessesOnlyGrow(g, schedule[..|schedule| - 1]); }
  }

  /** The lockout bound. Over any stretch of any run that sees no success, the failed
      acquisitions beyond the threshold take at least a breaker timeout each; and no more
      logins fail than acquisitions do. */
  lemma {:induction false} FailuresAreRateLimited(settings: B.Settings, mac: string -> P.Fingerprint, source: P.Source,
                               earlier: seq<Action>, stretch: seq<Action>)
    requires B.ValidSettings(settings)
    requires var g0 := Exec(New(settings, mac, source), earlier); Exec(g0, stretch).succeeded == g0.succeeded
    ensures var g0 := Exec(New(settings, mac, source), earlier);
            var g := Exec(g0, stretch);
            var elapsed := g.provider.clock - g0.provider.clock;
            var logins := FailedLogins(g.provider.log) - FailedLogins(g0.provider.log);
            && (g.failed - g0.failed - settings.threshold) * settings.timeout <= elapsed
            && (logins - settings.threshold) * settings.timeout <= elapsed
  {
    var g0 := Exec(New(settings, mac, source), earlier);
    var g := Exec(g0, stretch);
    ExecKeepsInv(New(settings, mac, source), earlier);
    ExecKeepsInv(g0, stretch);
    ExecKeepsBudget(g0, stretch);
    LoginsFailWithAcquisitions(g0, stretch);
    var f := g.failed - g0.failed - settings.threshold;
    var l := FailedLogins(g.provider.log) - FailedLogins(g0.provider.log) - settings.threshold;
    OneMore(f, settings.timeout);
    OneMore(f + 1, settings.timeout);
    Monotone(l, f + Unreported(g), settings.timeout);
  }

  lemma {:induction false} Monotone(a: int, b: int, timeout: nat)
    requires a <= b
    ensures a * timeout <= b * timeout
  {}

  // ------------------------------------------------------------------ failed logins

  function FailedLogins(log: seq<P.Event>): nat {
    if log == [] then 0
    else
      var e := log[|log| - 1];
      FailedLogins(log[..|log| - 1]) + (if e.Login? && !e.outcome.Granted? then 1 else 0)
  }

  lemma {:induction false} FailedLoginsAppend(log: seq<P.Event>, e: P.Event)
    ensures FailedLogins(log + [e]) == FailedLogins(log) + (if e.Login? && !e.outcome.Granted? then 1 else 0)
  {
    assert (log + [e])[..|log|] == log;
  }

  lemma {:induction false} RecheckSendsNoLogin(p: P.Provider, read: Option<string>)
    ensures FailedLogins(P.Recheck(p, read).0.log) == FailedLogins(p.log)
  {
    FailedLoginsAppend(p.log, P.ReadEvent(P.PasswordRead(p, read)));
  }

  /** One acquisition sends at most one login, and fails if that login does. */
  lemma {:induction false} AcquireSendsOneLogin(p: P.Provider, w: P.World)
    ensures var (p', ok) := P.Acquire(p, w);
            FailedLogins(p'.log) == FailedLogins(p.log) || (FailedLogins(p'.log) == FailedLogins(p.log) + 1 && !ok)
  {
    hide FailedLogins;
    var r := P.PasswordRead(p, w.second);
    FailedLoginsAppend(p.log, P.ReadEvent(r));
    if r.Some? {
      FailedLoginsAppend(p.log + [P.ReadEvent(r)], P.Login(r.value, w.outcome, p.clock, p.clock + w.took));
    }
  }

  lemma {:induction false} GetSendsOneLogin(p: P.Provider, w: P.World)
    ensures var (p', ok) := P.Get(p, w);
            FailedLogins(p'.log) <= FailedLogins(p.log) + (if ok then 0 else 1)
  {
    RecheckSendsNoLogin(p, w.first);
    AcquireSendsOneLogin(P.Recheck(p, w.first).0, w);
  }

  /** An acquisition has failed and is still to be reported. */
  function Unreported(g: Guard): nat {
    if g.lock.Some? && Is(g, g.lock.value, Fetched(false)) then 1 else 0
  }

  lemma {:induction false} LoginsFailWithAcquisitions(g: Guard, schedule: seq<Action>)
    requires Inv(g)
    ensures var h := Exec(g, schedule);
            FailedLogins(h.provider.log) - FailedLogins(g.provider.log) <= h.failed + Unreported(h) - g.failed
  {
    if schedule != [] {
      var before := schedule[..|schedule| - 1];
      LoginsFailWithAcquisitions(g, before);
      ExecKeepsInv(g, before);
      StepFailsWithAcquisition(Exec(g, before), schedule[|schedule| - 1]);
    }
  }

  lemma {:induction false} StepFailsWithAcquisition(g: Guard, a: Action)
    requires Inv(g)
    ensures var h := Next(g, a);
            FailedLogins(h.provider.log) - FailedLogins(g.provider.log)
            <= h.failed + Unreported(h) - g.failed - Unreported(g)
  {
    match a
    case Fetch(c, w) => if Is(g, c, Inside) { assert AtWork(g, c); GetSendsOneLogin(g.provider, w); }
    case Report(c) => if c in g.callers && g.callers[c].Fetched? { assert AtWork(g, c); }
    case Background(op) => if op.TickerFires? { RecheckSendsNoLogin(g.provider, op.read); }
    case Arrive(c) =>
    case Enter(c) =>
  }

  // ------------------------------------------------------------------- the object

  lemma {:induction false} ExecAppend(g: Guard, schedule: seq<Action>, a: Action)
    ensures Exec(g, schedule + [a]) == Next(Exec(g, schedule), a)
  {
    assert (schedule + [a])[..|schedule|] == schedule;
  }

  /** `CircuitBreakerTokenProvider`. The mutex lets one call through at a time; `caller` is where it
      stands. `run` lists the steps so far: a valid object stands where that run of the machine does,
      so whatever is proved of runs holds of it. */
  class CircuitBreakerTokenProvider {
    const inner: P.Gokrb5TokenProvider
    const cb: B.CircuitBreaker
    ghost var caller: Option<Caller>
    ghost var failed: nat
    ghost var succeeded: nat
    ghost var run: seq<Action>

    ghost function State(): Guard
      reads this, inner, cb
    {
      Guard(cb.settings, cb.state, if caller.Some? && !caller.value.Waiting? then Some(0) else None,
            if caller.Some? then map[0 := caller.value] else map[], inner.Model(), failed, succeeded)
    }

    ghost function Fresh(): Guard {
      New(cb.settings, inner.mac, inner.source)
    }

    ghost predicate Valid()
      reads this, inner, cb
    {
      B.ValidSettings(cb.settings) && inner.Valid() && State() == Exec(Fresh(), run)
    }

    constructor (settings: B.Settings, mac: string -> P.Fingerprint, source: P.Source)
      requires B.ValidSettings(settings)
      ensures Valid() && caller.None? && cb.settings == settings && inner.mac == mac && inner.source == source
      ensures fresh(inner) && fresh(cb)
    {
      cb := new B.CircuitBreaker(settings);
      inner := new P.Gokrb5TokenProvider(mac, source);
      caller, failed, succeeded, run := None, 0, 0, [];
    }

    ghost method Record(before: Guard, a: Action)
      requires before == Exec(Fresh(), run) && State() == Next(before, a)
      requires B.ValidSettings(cb.settings) && inner.Valid()
      modifies this`run
      ensures Valid() && run == old(run) + [a]
    {
      ExecAppend(Fresh(), run, a);
      run := run + [a];
    }

    /** The provider's ticker, its Close and the passing of time are not under this mutex. */
    method Interfere()
      requires Valid()
      modifies this`run, inner
      ensures Valid() && old(run) <= run && old(inner.clock) <= inner.clock
      ensures FailedLogins(inner.log) == old(FailedLogins(inner.log))
    {
      hide Exec, FailedLogins;
      var delay :| 0 <= delay;
      inner.Sleep(delay);
      Record(old(State()), Background(P.Wait(delay)));
      label slept:
      var tick := *;
      if tick && inner.warners > 0 {
        var read: Option<string> := *;
        inner.WarnTick(read);
        RecheckSendsNoLogin(old@slept(inner.Model()), read);
        Record(old@slept(State()), Background(P.TickerFires(read)));
      }
      label ticked:
      var close := *;
      if close {
        inner.Close();
        Record(old@ticked(State()), Background(P.Close));
      }
    }

    ghost method Arrive()
      requires Valid() && caller.None?
      modifies this`caller, this`run
      ensures Valid() && caller == Some(Waiting) && old(run) <= run
    {
      caller := Some(Waiting);
      Record(old(State()), Action.Arrive(0));
    }

    /** The three parts of the breaker's `Execute`: admission, the call, and its result. */
    method BeforeRequest() returns (v: B.Verdict)
      requires Valid() && caller == Some(Waiting)
      modifies this`caller, this`run, cb
      ensures Valid() && old(run) <= run && !v.TooManyRequests?
      ensures caller == if v.Admitted? then Some(Inside) else None
      ensures (cb.state, v) == B.Before(cb.settings, old(cb.state), inner.clock)
    {
      hide Exec;
      NeverHalfOpenBetweenCalls();
      v := cb.Enter(inner.clock);
      caller := if v.Admitted? then Some(Inside) else None;
      Record(old(State()), Enter(0));
    }

    lemma {:induction false} NeverHalfOpenBetweenCalls()
      requires Valid() && caller == Some(Waiting)
      ensures !cb.state.HalfOpen?
    {
      ExecKeepsInv(Fresh(), run);
    }

    method Request(w: P.World) returns (ok: bool)
      requires Valid() && caller == Some(Inside)
      modifies this`caller, this`run, inner
      ensures Valid() && caller == Some(Fetched(ok)) && old(run) <= run && old(inner.clock) <= inner.clock
      ensures FailedLogins(inner.log) <= old(FailedLogins(inner.log)) + (if ok then 0 else 1)
    {
      hide Exec, FailedLogins;
      ok := inner.GetToken(w);
      caller := Some(Fetched(ok));
      GetSendsOneLogin(old(inner.Model()), w);
      ClockMovesForward(old(inner.Model()), P.GetToken(w));
      Record(old(State()), Fetch(0, w));
    }

    method AfterRequest(ok: bool)
      requires Valid() && caller == Some(Fetched(ok))
      modifies this, cb
      ensures Valid() && caller.None? && old(run) <= run
      ensures failed == old(failed) + (if ok then 0 else 1)
      ensures cb.state == B.After(cb.settings, old(cb.state), inner.clock, ok)
    {
      hide Exec;
      cb.Leave(inner.clock, ok);
      caller := None;
      failed, succeeded := failed + (if ok then 0 else 1), succeeded + (if ok then 1 else 0);
      Record(old(State()), Report(0));
    }

    /** `GetToken`, admitted or not at instant `at`. The breaker turns a call away exactly while it is
        open, and then nothing is sent; a call that is let through is answered by the provider, sends
        at most one login that fails, and leaves the breaker closed if it succeeds, open or one
        failure further if it does not. */
    method GetToken(w: P.World) returns (verdict: B.Verdict, ok: bool, at: int)
      requires Valid() && caller.None?
      modifies this, inner, cb
      ensures Valid() && caller.None? && old(run) <= run && old(inner.clock) <= at <= inner.clock
      ensures !verdict.TooManyRequests?
      ensures verdict.OpenState? <==> old(cb.state).Open? && at < old(cb.state).since + cb.settings.timeout
      ensures verdict.OpenState? ==> !ok && cb.state == old(cb.state) && failed == old(failed)
      ensures verdict.Admitted? ==> failed == old(failed) + (if ok then 0 else 1)
      ensures FailedLogins(inner.log) <= old(FailedLogins(inner.log)) + failed - old(failed)
      ensures ok ==> cb.state == B.Closed(0)
      ensures verdict.Admitted? && !ok ==>
                if old(cb.state).Closed? && old(cb.state).failures + 1 < cb.settings.threshold
                then cb.state == B.Closed(old(cb.state).failures + 1)
                else cb.state.Open? && at <= cb.state.since <= inner.clock
    {
      hide Exec, FailedLogins;
      Arrive();
      Interfere();
      at := inner.clock;
      verdict := BeforeRequest();
      ok := false;
      if verdict.Admitted? {
        Interfere();
        ok := Request(w);
        Interfere();
        AfterRequest(ok);
      }
    }

    method Close()
      requires Valid()
      modifies this`run, inner
      ensures Valid() && inner.closed && run == old(run) + [Background(P.Close)]
    {
      hide Exec;
      inner.Close();
      Record(old(State()), Background(P.Close));
    }

    /** The bound on failures holds of the object: here since it was made. */
    lemma {:induction false} RateLimited()
      requires Valid() && succeeded == 0
      ensures (failed - cb.settings.threshold) * cb.settings.timeout <= inner.clock
      ensures (FailedLogins(inner.log) - cb.settings.threshold) * cb.settings.timeout <= inner.clock
    {
      hide FailedLogins;
      assert Exec(Fresh(), []) == Fresh() && FailedLogins([]) == 0 by { NoLoginsYet(); }
      FailuresAreRateLimited(cb.settings, inner.mac, inner.source, [], run);
    }
  }

  lemma {:induction false} NoLoginsYet()
    ensures FailedLogins([]) == 0
  {}
}
