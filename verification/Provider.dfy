/** The password-based token provider and its account-lockout guard. All operations run under
    the provider's mutex, so a sequence of operations is any interleaving of its callers. */
module Provider {
  import opened Strings
  import opened Numbers

  // -------------------------------------------------------------- ticket lifetimes

  /** The times of an AS reply, in nanoseconds; `authKnown` is false for a zero AuthTime. */
  datatype Times = Times(authKnown: bool, auth: int, end: int)

  /** `time.Time.Sub` and `time.Until` saturate at the 64-bit range. */
  function Saturate(d: int): int {
    if d < MIN_INT then MIN_INT else if MAX_INT < d then MAX_INT else d
  }

  /** Unary minus on a 64-bit integer wraps for the smallest value only. */
  function Negate(d: int): int {
    if d == MIN_INT then MIN_INT else -d
  }

  /** Go's integer division truncates toward zero. */
  function Sixth(d: int): int {
    if 0 <= d then d / 6 else -((-d) / 6)
  }

  /** `tgtRefreshDeadline`, called at instant `now`. */
  function RefreshDeadline(t: Times, now: int): int {
    var life := Saturate(t.end - t.auth);
    var lifetime := if !t.authKnown || life <= 0 then Saturate(t.end - now) else life;
    t.end + Sixth(Negate(lifetime))
  }

  predicate ValidTicket(t: Times) {
    t.authKnown && t.auth < t.end
  }

  /** The distance, in nanoseconds, that 64 bits can hold. */
  function Capped(d: int): int {
    if d < 0x7FFF_FFFF_FFFF_FFFF then d else 0x7FFF_FFFF_FFFF_FFFF
  }

  /** A sixth of a duration, to the nanosecond. */
  predicate IsSixth(x: int, d: int) {
    6 * x <= d < 6 * x + 6
  }

  /** A valid ticket is replaced a sixth of its lifetime before its end, so it is used for at least
      five sixths and never past its end. Without usable times a sixth of what is left takes that
      place, and the deadline never admits a ticket that has already expired. */
  lemma {:induction false} RefreshDeadlineIsSound(t: Times, now: int)
    ensures ValidTicket(t) ==> IsSixth(t.end - RefreshDeadline(t, now), Capped(t.end - t.auth))
    ensures ValidTicket(t) ==> 5 * (t.end - t.auth) <= 6 * (RefreshDeadline(t, now) - t.auth)
    ensures !ValidTicket(t) && now <= t.end ==> IsSixth(t.end - RefreshDeadline(t, now), Capped(t.end - now))
    ensures ValidTicket(t) || now <= t.end ==> RefreshDeadline(t, now) <= t.end
    ensures !ValidTicket(t) && t.end < now ==> RefreshDeadline(t, now) <= now
  {}

  // ------------------------------------------------------------------- the provider

  type Fingerprint = int

  datatype Outcome = Granted(times: Times) | Rejected | Unavailable

  /** What reached the password source and the KDC, in order. */
  datatype Event =
    | Read(password: string)
    | ReadFailed
    | Login(password: string, outcome: Outcome, at: int, doneAt: int)

  /** Where the password comes from: a file re-read on every use, or a terminal. */
  datatype Source = File | Terminal(typed: string)

  datatype Provider = Provider(
    mac: string -> Fingerprint, source: Source, clock: int,
    ticket: Option<int>, closed: bool, rejected: bool, rejectedFingerprint: Fingerprint,
    ticker: bool, warners: nat, stops: nat, log: seq<Event>)

  /** What one `GetToken` meets outside: up to two reads of a password file, the KDC's answer
      and how long it took, and the outcome of the security context. */
  datatype World = World(first: Option<string>, second: Option<string>, outcome: Outcome, took: nat, negotiated: bool)

  datatype Op =
    | GetToken(w: World)
    | TickerFires(read: Option<string>)
    | Close
    | Wait(delay: nat)

  function New(mac: string -> Fingerprint, source: Source): Provider {
    Provider(mac, source, 0, None, false, false, 0, false, 0, 0, [])
  }

  function PasswordRead(p: Provider, fromFile: Option<string>): Option<string> {
    if p.source.Terminal? then Some(p.source.typed) else fromFile
  }

  function Logged(p: Provider, e: Event): Provider {
    p.(log := p.log + [e])
  }

  function ReadEvent(r: Option<string>): Event {
    if r.Some? then Read(r.value) else ReadFailed
  }

  /** `checkPasswordRejected`. */
  function Recheck(p: Provider, fromFile: Option<string>): (Provider, bool) {
    if !p.rejected then (p, true)
    else
      var r := PasswordRead(p, fromFile);
      var p' := Logged(p, ReadEvent(r));
      if r.Some? && p.mac(r.value) != p.rejectedFingerprint then (p'.(rejected := false), true) else (p', false)
  }

  /** `rejectPassword`. */
  function Reject(p: Provider, fingerprint: Fingerprint): Provider {
    var p' := p.(rejected := true, rejectedFingerprint := fingerprint);
    if p.ticker then p' else p'.(ticker := true, warners := p.warners + 1)
  }

  predicate Fresh(p: Provider) {
    p.ticket.Some? && p.clock < p.ticket.value
  }

  /** `ticketGrantingClient`. */
  function Acquire(p: Provider, w: World): (Provider, bool) {
    if Fresh(p) then (p, true)
    else
      var r := PasswordRead(p, w.second);
      var p1 := Logged(p, ReadEvent(r));
      if r.None? then (p1, false)
      else
        var done := p.clock + w.took;
        var p2 := Logged(p1, Login(r.value, w.outcome, p.clock, done)).(clock := done);
        match w.outcome
        case Granted(times) => (p2.(ticket := Some(RefreshDeadline(times, done))), true)
        case Rejected => (Reject(p2, p.mac(r.value)), false)
        case Unavailable => (p2, false)
  }

  /** `Gokrb5TokenProvider.GetToken`. */
  function Get(p: Provider, w: World): (Provider, bool) {
    if p.closed then (p, false)
    else
      var (p1, allowed) := Recheck(p, w.first);
      if !allowed then (p1, false)
      else
        var (p2, ok) := Acquire(p1, w);
        (p2, ok && w.negotiated)
  }

  /** One pass of `repeatPasswordRejectionWarnings`. */
  function Fire(p: Provider, read: Option<string>): Provider {
    if !p.closed && p.rejected then Recheck(p, read).0 else p
  }

  function Shut(p: Provider): Provider {
    var p' := p.(closed := true, ticket := None, rejectedFingerprint := 0,
                 source := if p.source.Terminal? then Terminal("") else File);
    if p.ticker then p'.(ticker := false, stops := p.stops + 1) else p'
  }

  function Next(p: Provider, op: Op): Provider {
    match op
    case GetToken(w) => Get(p, w).0
    case TickerFires(read) => if p.warners > 0 then Fire(p, read) else p
    case Close => Shut(p)
    case Wait(delay) => p.(clock := p.clock + delay)
  }

  function Exec(p: Provider, ops: seq<Op>): Provider {
    if ops == [] then p else Next(Exec(p, ops[..|ops| - 1]), ops[|ops| - 1])
  }

  lemma {:induction false} ExecAppend(p: Provider, ops: seq<Op>, op: Op)
    ensures Exec(p, ops + [op]) == Next(Exec(p, ops), op)
  {
    assert (ops + [op])[..|ops|] == ops;
  }

  // ------------------------------------------------------------------- the object

  /** `Gokrb5TokenProvider`. The ticker and its goroutine appear as a flag and a count. `ops` lists the
      operations so far: a valid object stands where that run of the machine does, so whatever is
      proved of runs holds of it. */
  class Gokrb5TokenProvider {
    const mac: string -> Fingerprint
    const fromTerminal: bool
    var stdinPassword: string
    var clock: int
    var ticketRefreshAt: Option<int>
    var closed: bool
    var passwordRejected: bool
    var rejectedFingerprint: Fingerprint
    var rejectWarnTicker: bool
    var warners: nat
    var stops: nat
    var log: seq<Event>
    ghost const source: Source
    ghost var ops: seq<Op>

    ghost predicate Valid()
      reads this
    {
      Model() == Exec(New(mac, source), ops)
    }

    ghost function Model(): Provider
      reads this
    {
      Provider(mac, if fromTerminal then Terminal(stdinPassword) else File, clock, ticketRefreshAt, closed,
               passwordRejected, rejectedFingerprint, rejectWarnTicker, warners, stops, log)
    }

    constructor (mac: string -> Fingerprint, source: Source)
      ensures Valid() && this.mac == mac && this.source == source && ops == []
    {
      this.mac, this.source, ops := mac, source, [];
      fromTerminal := source.Terminal?;
      stdinPassword := if source.Terminal? then source.typed else "";
      clock, ticketRefreshAt, closed := 0, None, false;
      passwordRejected, rejectedFingerprint := false, 0;
      rejectWarnTicker, warners, stops, log := false, 0, 0, [];
    }

    method ReadPassword(fromFile: Option<string>) returns (passwd: Option<string>)
      modifies this`log
      ensures passwd == PasswordRead(old(Model()), fromFile)
      ensures Model() == Logged(old(Model()), ReadEvent(passwd))
    {
      passwd := if fromTerminal then Some(stdinPassword) else fromFile;
      log := log + [if passwd.Some? then Read(passwd.value) else ReadFailed];
    }

    /** The ticker is dereferenced only where it exists. */
    method CheckPasswordRejected(fromFile: Option<string>) returns (allowed: bool)
      requires passwordRejected ==> rejectWarnTicker
      modifies this
      ensures ops == old(ops)
      ensures (Model(), allowed) == Recheck(old(Model()), fromFile)
    {
      if !passwordRejected {
        return true;
      }
      var passwd := ReadPassword(fromFile);
      if passwd.None? {
        return false;
      }
      if mac(passwd.value) != rejectedFingerprint {
        passwordRejected := false;
        return true;
      }
      return false;
    }

    method RejectPassword(fingerprint: Fingerprint)
      modifies this
      ensures ops == old(ops)
      ensures Model() == Reject(old(Model()), fingerprint)
    {
      passwordRejected := true;
      rejectedFingerprint := fingerprint;
      if rejectWarnTicker {
        return;
      }
      rejectWarnTicker := true;
      warners := warners + 1;
    }

    method TicketGrantingClient(w: World) returns (ok: bool)
      modifies this
      ensures ops == old(ops)
      ensures (Model(), ok) == Acquire(old(Model()), w)
    {
      if ticketRefreshAt.Some? && clock < ticketRefreshAt.value {
        return true;
      }
      var passwd := ReadPassword(w.second);
      if passwd.None? {
        return false;
      }
      var fingerprint := mac(passwd.value);
      log := log + [Login(passwd.value, w.outcome, clock, clock + w.took)];
      clock := clock + w.took;
      match w.outcome {
        case Rejected =>
          RejectPassword(fingerprint);
          return false;
        case Unavailable =>
          return false;
        case Granted(times) =>
          ticketRefreshAt := Some(RefreshDeadline(times, clock));
          return true;
      }
    }

    method GetToken(w: World) returns (ok: bool)
      requires Valid()
      modifies this
      ensures Valid() && ops == old(ops) + [Op.GetToken(w)] && (Model(), ok) == Get(old(Model()), w)
    {
      hide Exec, Get;
      ExecKeepsLife(mac, source, ops);
      ok := Locked(w);
      Record(old(Model()), Op.GetToken(w));
    }

    /** `GetToken` under the mutex. */
    method Locked(w: World) returns (ok: bool)
      requires LifeInv(Model())
      modifies this
      ensures (Model(), ok) == Get(old(Model()), w) && ops == old(ops)
    {
      hide Acquire;
      if closed {
        return false;
      }
      var allowed := CheckPasswordRejected(w.first);
      if !allowed {
        return false;
      }
      ok := TicketGrantingClient(w);
      ok := ok && w.negotiated;
    }

    /** The body of the warning loop for one tick. */
    method WarnTick(read: Option<string>)
      requires Valid() && 0 < warners
      modifies this
      ensures Valid() && ops == old(ops) + [TickerFires(read)] && Model() == Next(old(Model()), TickerFires(read))
    {
      hide Exec, Recheck;
      ExecKeepsLife(mac, source, ops);
      if !closed && passwordRejected {
        var _ := CheckPasswordRejected(read);
      }
      Record(old(Model()), TickerFires(read));
    }

    /** Time passes between the operations. */
    method Sleep(delay: nat)
      requires Valid()
      modifies this
      ensures Valid() && ops == old(ops) + [Wait(delay)] && Model() == Next(old(Model()), Wait(delay))
    {
      hide Exec;
      clock := clock + delay;
      Record(old(Model()), Wait(delay));
    }

    method Close()
      requires Valid()
      modifies this
      ensures Valid() && ops == old(ops) + [Op.Close] && Model() == Next(old(Model()), Op.Close)
    {
      hide Exec;
      closed := true;
      ticketRefreshAt := None;
      if rejectWarnTicker {
        stops := stops + 1;
        rejectWarnTicker := false;
      }
      stdinPassword := "";
      rejectedFingerprint := 0;
      Record(old(Model()), Op.Close);
    }

    ghost method Record(before: Provider, op: Op)
      requires before == Exec(New(mac, source), ops) && Model() == Next(before, op)
      modifies this`ops
      ensures Valid() && ops == old(ops) + [op]
    {
      ExecAppend(New(mac, source), ops, op);
      ops := ops + [op];
    }
  }

  // ------------------------------------------------------- the ticker's life and Close

  ghost predicate LifeInv(p: Provider) {
    && (p.rejected && !p.closed ==> p.ticker)
    && (p.closed ==> !p.ticker && p.ticket.None?)
    && p.warners <= 1 && p.stops <= p.warners
    && (p.ticker <==> p.warners == 1 && p.stops == 0)
    && (!p.closed ==> p.stops == 0)
  }

  lemma {:induction false} ExecKeepsLife(mac: string -> Fingerprint, source: Source, ops: seq<Op>)
    ensures LifeInv(Exec(New(mac, source), ops))
  {
    if ops != [] {
      ExecKeepsLife(mac, source, ops[..|ops| - 1]);
      NextKeepsLife(Exec(New(mac, source), ops[..|ops| - 1]), ops[|ops| - 1]);
    }
  }

  lemma {:induction false} AcquireKeepsLife(p: Provider, w: World)
    requires LifeInv(p) && !p.closed
    ensures LifeInv(Acquire(p, w).0)
  {}

  lemma {:induction false} NextKeepsLife(p: Provider, op: Op)
    requires LifeInv(p)
    ensures LifeInv(Next(p, op)) && Next(p, op).mac == p.mac
  {
    match op
    case GetToken(w) => if !p.closed { AcquireKeepsLife(Recheck(p, w.first).0, w); }
    case _ =>
  }

  /** Over every run: a rejected, open provider has its ticker; at most one warning goroutine is
      ever started; its stop channel is closed at most once, and only by Close. */
  lemma {:induction false} WarningGoroutineIsStartedAndStoppedOnce(mac: string -> Fingerprint, source: Source,
          ops: seq<Op>)
    ensures var p := Exec(New(mac, source), ops);
            && (p.rejected && !p.closed ==> p.ticker)
            && p.warners <= 1 && p.stops <= 1
            && (p.closed ==> p.stops == p.warners) && (!p.closed ==> p.stops == 0)
  {
    ExecKeepsLife(mac, source, ops);
  }

  /** Close is idempotent and final: nothing but the passing of time happens after it, and no ticket,
      typed password or fingerprint is left. */
  lemma {:induction false} CloseIsFinal(mac: string -> Fingerprint, source: Source, ops: seq<Op>, more: seq<Op>)
    ensures var p := Shut(Exec(New(mac, source), ops));
            && Exec(p, more) == p.(clock := Exec(p, more).clock)
            && p.closed && p.ticket.None? && p.rejectedFingerprint == 0 && p.source in {File, Terminal("")}
  {
    ExecKeepsLife(mac, source, ops);
    if more != [] { CloseIsFinal(mac, source, ops, more[..|more| - 1]); }
  }

  // --------------------------------------------------------------- the guard's claim

  predicate IsRejection(e: Event) {
    e.Login? && e.outcome.Rejected?
  }

  /** Between events i and j some read of the source showed another fingerprint. */
  ghost predicate ChangeSeen(mac: string -> Fingerprint, log: seq<Event>, i: int, j: int)
    requires 0 <= i < j <= |log| && log[i].Login?
  {
    exists k :: i < k < j && log[k].Read? && mac(log[k].password) != mac(log[i].password)
  }

  /** A rejection is answered by a change, or still latched, or the provider is closed. */
  ghost predicate Guarded(p: Provider, i: int)
    requires 0 <= i < |p.log| && p.log[i].Login?
  {
    || ChangeSeen(p.mac, p.log, i, |p.log|) || p.closed
    || (p.rejected && p.rejectedFingerprint == p.mac(p.log[i].password))
  }

  ghost predicate LockoutInv(p: Provider) {
    && (forall i :: 0 <= i < |p.log| && IsRejection(p.log[i]) ==> Guarded(p, i))
    && (forall i, j :: 0 <= i < j < |p.log| && IsRejection(p.log[i]) && p.log[j].Login? ==>
         ChangeSeen(p.mac, p.log, i, j))
    && (forall j :: 0 <= j < |p.log| && p.log[j].Login? ==> 0 < j && p.log[j - 1] == Read(p.log[j].password))
  }

  lemma {:induction false} ChangeStillSeen(mac: string -> Fingerprint, log: seq<Event>, e: Event, i: int, j: int)
    requires 0 <= i < j <= |log| && log[i].Login? && ChangeSeen(mac, log, i, j)
    ensures ChangeSeen(mac, log + [e], i, j) && ChangeSeen(mac, log + [e], i, |log| + 1)
  {
    var k :| i < k < j && log[k].Read? && mac(log[k].password) != mac(log[i].password);
    assert (log + [e])[k] == log[k] && (log + [e])[i] == log[i];
  }

  /** Logging anything but a login keeps the invariant. */
  lemma {:induction false} ReadKeepsLockout(p: Provider, e: Event)
    requires LockoutInv(p) && !e.Login?
    ensures LockoutInv(Logged(p, e))
  {
    var p' := Logged(p, e);
    forall i | 0 <= i < |p'.log| && IsRejection(p'.log[i]) ensures Guarded(p', i) {
      assert Guarded(p, i);
      if ChangeSeen(p.mac, p.log, i, |p.log|) { ChangeStillSeen(p.mac, p.log, e, i, |p.log|); }
    }
    forall i, j | 0 <= i < j < |p'.log| && IsRejection(p'.log[i]) && p'.log[j].Login?
      ensures ChangeSeen(p'.mac, p'.log, i, j)
    {
      ChangeStillSeen(p.mac, p.log, e, i, j);
    }
  }

  lemma {:induction false} RecheckKeepsLockout(p: Provider, fromFile: Option<string>)
    requires LockoutInv(p)
    ensures LockoutInv(Recheck(p, fromFile).0)
    ensures Recheck(p, fromFile).1 ==> !Recheck(p, fromFile).0.rejected
  {
    var r := PasswordRead(p, fromFile);
    var p1 := Logged(p, ReadEvent(r));
    if p.rejected {
      ReadKeepsLockout(p, ReadEvent(r));
      if r.Some? && p.mac(r.value) != p.rejectedFingerprint {
        var p2 := p1.(rejected := false);
        forall i | 0 <= i < |p2.log| && IsRejection(p2.log[i]) ensures Guarded(p2, i) {
          assert Guarded(p1, i);
          assert p1.log[|p.log|] == Read(r.value);
        }
      }
    }
  }

  lemma {:induction false} LoginKeepsLockout(p: Provider, password: string, outcome: Outcome, at: int, doneAt: int)
    requires LockoutInv(p) && !p.rejected && !p.closed
    requires p.log != [] && p.log[|p.log| - 1] == Read(password)
    ensures LockoutInv(var q := Logged(p, Login(password, outcome, at, doneAt));
                       if outcome.Rejected? then Reject(q, p.mac(password)) else q)
  {
    var e := Login(password, outcome, at, doneAt);
    var q := Logged(p, e);
    var p' := if outcome.Rejected? then Reject(q, p.mac(password)) else q;
    forall i | 0 <= i < |p.log| && IsRejection(p.log[i])
      ensures ChangeSeen(p'.mac, p'.log, i, |p.log|) && ChangeSeen(p'.mac, p'.log, i, |p'.log|)
    {
      assert Guarded(p, i);
      ChangeStillSeen(p.mac, p.log, e, i, |p.log|);
    }
    forall i, j | 0 <= i < j < |p.log| && IsRejection(p.log[i]) && p.log[j].Login?
      ensures ChangeSeen(p'.mac, p'.log, i, j)
    {
      ChangeStillSeen(p.mac, p.log, e, i, j);
    }
  }

  /** The clock and the cached ticket do not matter to the guard. */
  lemma {:induction false} LockoutIgnoresTicket(p: Provider, clock: int, ticket: Option<int>)
    requires LockoutInv(p)
    ensures LockoutInv(p.(clock := clock, ticket := ticket))
  {
    var p' := p.(clock := clock, ticket := ticket);
    forall i | 0 <= i < |p'.log| && IsRejection(p'.log[i]) ensures Guarded(p', i) { assert Guarded(p, i); }
  }

  lemma {:induction false} AcquireKeepsLockout(p: Provider, w: World)
    requires LockoutInv(p) && !p.rejected && !p.closed
    ensures LockoutInv(Acquire(p, w).0)
  {
    if !Fresh(p) {
      var r := PasswordRead(p, w.second);
      ReadKeepsLockout(p, ReadEvent(r));
      if r.Some? {
        var p1 := Logged(p, ReadEvent(r));
        var done := p.clock + w.took;
        LoginKeepsLockout(p1, r.value, w.outcome, p.clock, done);
        var q := Logged(p1, Login(r.value, w.outcome, p.clock, done));
        var q' := if w.outcome.Rejected? then Reject(q, p.mac(r.value)) else q;
        LockoutIgnoresTicket(q', done, Acquire(p, w).0.ticket);
        assert Acquire(p, w).0 == q'.(clock := done, ticket := Acquire(p, w).0.ticket);
      }
    }
  }

  lemma {:induction false} NextKeepsLockout(p: Provider, op: Op)
    requires LockoutInv(p)
    ensures LockoutInv(Next(p, op))
  {
    match op
    case GetToken(w) =>
      if !p.closed {
        RecheckKeepsLockout(p, w.first);
        if Recheck(p, w.first).1 { AcquireKeepsLockout(Recheck(p, w.first).0, w); }
      }
    case TickerFires(read) => RecheckKeepsLockout(p, read);
    case Close =>
    case Wait(delay) =>
      forall i | 0 <= i < |p.log| && IsRejection(p.log[i]) ensures Guarded(Next(p, op), i) { assert Guarded(p, i); }
  }

  lemma {:induction false} ExecKeepsLockout(mac: string -> Fingerprint, source: Source, ops: seq<Op>)
    ensures LockoutInv(Exec(New(mac, source), ops))
  {
    if ops != [] {
      ExecKeepsLockout(mac, source, ops[..|ops| - 1]);
      NextKeepsLockout(Exec(New(mac, source), ops[..|ops| - 1]), ops[|ops| - 1]);
    }
  }

  /** Between a rejected login and any later login, some read of the password source, by a
      caller or by the ticker, showed a different fingerprint; and each login sends exactly the
      password read just before it. */
  lemma {:induction false} NoLoginWithoutAPasswordChange(mac: string -> Fingerprint, source: Source, ops: seq<Op>,
                                                         i: int, j: int)
    requires var log := Exec(New(mac, source), ops).log;
             0 <= i < j < |log| && IsRejection(log[i]) && log[j].Login?
    ensures var log := Exec(New(mac, source), ops).log;
            && (exists k :: i < k < j && log[k].Read? && mac(log[k].password) != mac(log[i].password))
            && log[j - 1] == Read(log[j].password)
  {
    ExecKeepsLockout(mac, source, ops);
    MacIsFixed(mac, source, ops);
    var p := Exec(New(mac, source), ops);
    assert ChangeSeen(p.mac, p.log, i, j);
  }

  lemma {:induction false} MacIsFixed(mac: string -> Fingerprint, source: Source, ops: seq<Op>)
    ensures Exec(New(mac, source), ops).mac == mac
  {
    if ops != [] {
      MacIsFixed(mac, source, ops[..|ops| - 1]);
      ExecKeepsLife(mac, source, ops[..|ops| - 1]);
      NextKeepsLife(Exec(New(mac, source), ops[..|ops| - 1]), ops[|ops| - 1]);
    }
  }

  // ---------------------------------------------------------- a typed password

  ghost predicate TypedInv(p: Provider, typed: string) {
    && (p.closed || p.source == Terminal(typed))
    && forall i :: 0 <= i < |p.log| && p.log[i].Read? ==> p.log[i].password == typed
  }

  lemma {:induction false} ExecKeepsTyped(mac: string -> Fingerprint, typed: string, ops: seq<Op>)
    ensures TypedInv(Exec(New(mac, Terminal(typed)), ops), typed)
  {
    if ops != [] {
      ExecKeepsTyped(mac, typed, ops[..|ops| - 1]);
      NextKeepsTyped(Exec(New(mac, Terminal(typed)), ops[..|ops| - 1]), ops[|ops| - 1], typed);
    }
  }

  lemma {:induction false} RecheckKeepsTyped(p: Provider, fromFile: Option<string>, typed: string)
    requires TypedInv(p, typed) && !p.closed
    ensures TypedInv(Recheck(p, fromFile).0, typed) && !Recheck(p, fromFile).0.closed
  {}

  lemma {:induction false} AcquireKeepsTyped(p: Provider, w: World, typed: string)
    requires TypedInv(p, typed) && !p.closed
    ensures TypedInv(Acquire(p, w).0, typed)
  {}

  lemma {:induction false} NextKeepsTyped(p: Provider, op: Op, typed: string)
    requires TypedInv(p, typed)
    ensures TypedInv(Next(p, op), typed)
  {
    match op
    case GetToken(w) =>
      if !p.closed {
        RecheckKeepsTyped(p, w.first, typed);
        AcquireKeepsTyped(Recheck(p, w.first).0, w, typed);
      }
    case TickerFires(read) => if !p.closed { RecheckKeepsTyped(p, read, typed); }
    case _ =>
  }

  /** A password typed at a terminal is sent to the KDC at most until it is first rejected:
      after a rejection there is no further login, for the rest of the provider's life. */
  lemma {:induction false} TypedPasswordIsRejectedAtMostOnce(mac: string -> Fingerprint, typed: string, ops: seq<Op>,
                                                             i: int, j: int)
    requires var log := Exec(New(mac, Terminal(typed)), ops).log; 0 <= i < j < |log| && IsRejection(log[i])
    ensures !Exec(New(mac, Terminal(typed)), ops).log[j].Login?
  {
    var p := Exec(New(mac, Terminal(typed)), ops);
    ExecKeepsLockout(mac, Terminal(typed), ops);
    ExecKeepsTyped(mac, typed, ops);
    assert p.log[i - 1] == Read(p.log[i].password);
    assert p.log[j].Login? ==> ChangeSeen(p.mac, p.log, i, j);
  }

  // ------------------------------------------------- what the guard does not promise

  /** What the outside must offer a call for it to log in with fingerprint f: no ticket to use, a
      second read that shows f, and, if a rejection is latched, a first read that shows another
      fingerprint than the rejected one. Nothing ties the two reads to each other. */
  predicate WouldSend(p: Provider, w: World, f: Fingerprint) {
    var first, second := PasswordRead(p, w.first), PasswordRead(p, w.second);
    && !p.closed && !Fresh(p) && second.Some? && p.mac(second.value) == f
    && (p.rejected ==> first.Some? && p.mac(first.value) != p.rejectedFingerprint)
  }

  predicate LoginWith(mac: string -> Fingerprint, e: Event, f: Fingerprint) {
    e.Login? && mac(e.password) == f
  }

  /** What a call logs: the read of the check, the read of the login, the login. */
  function CallEvents(p: Provider, w: World): seq<Event> {
    var first, second := PasswordRead(p, w.first), PasswordRead(p, w.second);
    if p.closed then []
    else
      (if p.rejected then [ReadEvent(first)] else []) +
      if Fresh(p) || (p.rejected && !(first.Some? && p.mac(first.value) != p.rejectedFingerprint)) then []
      else if second.None? then [ReadFailed]
      else [Read(second.value), Login(second.value, w.outcome, p.clock, p.clock + w.took)]
  }

  lemma {:induction false} GetLogs(p: Provider, w: World)
    ensures Get(p, w).0.log == p.log + CallEvents(p, w)
  {
    hide RefreshDeadline;
    AcquireLogs(Recheck(p, w.first).0, w);
    RecheckLogs(p, w.first);
  }

  lemma {:induction false} RecheckLogs(p: Provider, fromFile: Option<string>)
    ensures var (p', allowed) := Recheck(p, fromFile);
            && p'.log == p.log + (if p.rejected then [ReadEvent(PasswordRead(p, fromFile))] else [])
            && p' == p.(log := p'.log, rejected := p'.rejected)
  {}

  lemma {:induction false} AcquireLogs(p: Provider, w: World)
    ensures var r := PasswordRead(p, w.second);
            Acquire(p, w).0.log == p.log + if Fresh(p) then [] else if r.None? then [ReadFailed]
                                           else [Read(r.value), Login(r.value, w.outcome, p.clock, p.clock + w.took)]
  {
    hide RefreshDeadline;
  }

  /** A call logs its reads and then at most one login, with fingerprint f if and only if that is so. */
  lemma {:induction false} SendsExactlyWhen(p: Provider, w: World, f: Fingerprint)
    ensures var log := Get(p, w).0.log;
            && p.log <= log
            && (forall k :: |p.log| <= k < |log| - 1 ==> !log[k].Login?)
            && (|p.log| < |log| && LoginWith(p.mac, log[|log| - 1], f) <==> WouldSend(p, w, f))
  {
    hide Get;
    GetLogs(p, w);
  }

  predicate Repeats(mac: string -> Fingerprint, log: seq<Event>, i: int, j: int) {
    0 <= i < j < |log| && IsRejection(log[i]) && LoginWith(mac, log[j], mac(log[i].password))
  }

  /** Some rejected fingerprint was sent again. */
  ghost predicate Resent(mac: string -> Fingerprint, log: seq<Event>) {
    exists i, j :: Repeats(mac, log, i, j)
  }

  /** The property that the guard might seem to promise, and the exact point where a run loses it: at
      a call that would send a fingerprint rejected before, and nowhere else. */
  lemma {:induction false} ResentExactlyWhen(p: Provider, op: Op)
    ensures Resent(p.mac, Next(p, op).log) <==> Resent(p.mac, p.log) || (op.GetToken? && WouldRepeat(p, op.w))
  {
    hide Next, WouldSend;
    var log := Next(p, op).log;
    LogGrows(p, op);
    if Resent(p.mac, p.log) {
      var i, j :| Repeats(p.mac, p.log, i, j);
      assert Repeats(p.mac, log, i, j);
    }
    if Resent(p.mac, log) {
      var i, j :| Repeats(p.mac, log, i, j);
      if j < |p.log| {
        assert Repeats(p.mac, p.log, i, j);
      } else {
        NewLoginIsTheCalls(p, op, i, j);
      }
    }
    if op.GetToken? && WouldRepeat(p, op.w) {
      var i :| 0 <= i < |p.log| && IsRejection(p.log[i]) && WouldSend(p, op.w, p.mac(p.log[i].password));
      CallSends(p, op.w, i);
    }
  }

  /** The call would send a fingerprint that was rejected before. */
  ghost predicate WouldRepeat(p: Provider, w: World) {
    exists i :: 0 <= i < |p.log| && IsRejection(p.log[i]) && WouldSend(p, w, p.mac(p.log[i].password))
  }

  lemma {:induction false} LogGrows(p: Provider, op: Op)
    ensures p.log <= Next(p, op).log
  {
    if op.GetToken? { SendsExactlyWhen(p, op.w, 0); }
  }

  lemma {:induction false} CallSends(p: Provider, w: World, i: int)
    requires 0 <= i < |p.log| && IsRejection(p.log[i]) && WouldSend(p, w, p.mac(p.log[i].password))
    ensures Resent(p.mac, Next(p, GetToken(w)).log)
  {
    hide Get, WouldSend;
    SendsExactlyWhen(p, w, p.mac(p.log[i].password));
    var log := Next(p, GetToken(w)).log;
    assert Repeats(p.mac, log, i, |log| - 1);
  }

  lemma {:induction false} NewLoginIsTheCalls(p: Provider, op: Op, i: int, j: int)
    requires Repeats(p.mac, Next(p, op).log, i, j) && |p.log| <= j
    ensures op.GetToken? && WouldRepeat(p, op.w)
  {
    hide Get, WouldSend;
    var log := Next(p, op).log;
    if op.GetToken? {
      SendsExactlyWhen(p, op.w, p.mac(log[i].password));
      assert IsRejection(p.log[i]) && WouldSend(p, op.w, p.mac(p.log[i].password));
    }
  }

  /** Over every run, a login that repeats a rejected fingerprint means that the source flipped back:
      after the rejection a read showed another one, and the last read before the login showed the
      rejected one again. */
  lemma {:induction false} RepeatedLoginMeansTheFileFlippedBack(mac: string -> Fingerprint, source: Source,
          ops: seq<Op>, i: int, j: int)
    requires Repeats(mac, Exec(New(mac, source), ops).log, i, j)
    ensures var log := Exec(New(mac, source), ops).log;
            && (exists k :: i < k < j - 1 && log[k].Read? && mac(log[k].password) != mac(log[i].password))
            && log[j - 1] == Read(log[j].password) && mac(log[j - 1].password) == mac(log[i].password)
  {
    NoLoginWithoutAPasswordChange(mac, source, ops, i, j);
  }

  /** Such a run exists: one rejected password, sent and rejected twice. */
  lemma {:induction false} FlippedBackFileIsSentTwice(mac: string -> Fingerprint)
    requires mac("old") != mac("new")
    ensures exists ops :: Resent(mac, Exec(New(mac, File), ops).log)
  {
    var first := GetToken(World(None, Some("old"), Rejected, 0, true));
    var second := GetToken(World(Some("new"), Some("old"), Rejected, 0, true));
    var p1 := RejectedOnce(mac, first);
    assert [first, second][..1] == [first];
    var p2 := Exec(New(mac, File), [first, second]);
    assert p2 == Next(p1, second);
    assert p2.log == p1.log + [Read("new")] + [Read("old")] + [Login("old", Rejected, 0, 0)];
    assert Repeats(mac, p2.log, 1, 4);
  }

  /** So does one in which the ticker lifts the latch and the file flips back before the next call. */
  lemma {:induction false} FlipSeenByTheTickerIsSentTwice(mac: string -> Fingerprint)
    requires mac("old") != mac("new")
    ensures exists ops :: Resent(mac, Exec(New(mac, File), ops).log) && TickerFires(Some("new")) in ops
  {
    var call := GetToken(World(None, Some("old"), Rejected, 0, true));
    var tick := TickerFires(Some("new"));
    var p1 := RejectedOnce(mac, call);
    assert [call, tick][..1] == [call] && [call, tick, call][..2] == [call, tick];
    var p2 := Exec(New(mac, File), [call, tick]);
    assert p2 == Next(p1, tick);
    assert p2.log == p1.log + [Read("new")] && !p2.rejected;
    var ops := [call, tick, call];
    var p3 := Exec(New(mac, File), ops);
    assert p3 == Next(p2, call);
    assert p3.log == p2.log + [Read("old")] + [Login("old", Rejected, 0, 0)];
    assert Repeats(mac, p3.log, 1, 4);
  }

  lemma {:induction false} RejectedOnce(mac: string -> Fingerprint, call: Op) returns (p: Provider)
    requires call == GetToken(World(None, Some("old"), Rejected, 0, true))
    ensures p == Exec(New(mac, File), [call]) && p.log == [Read("old"), Login("old", Rejected, 0, 0)]
    ensures p.rejected && p.rejectedFingerprint == mac("old") && !p.closed && p.ticker && p.warners == 1
    ensures p.mac == mac && p.source == File && p.clock == 0 && p.ticket == None
  {
    assert [call][..0] == [] && Exec(New(mac, File), []) == New(mac, File);
    p := Exec(New(mac, File), [call]);
    assert p == Next(New(mac, File), call);
  }

  // -------------------------------------------------------------- ticket caching

  /** When the ticket of a granted login must be replaced. */
  function ReplaceAt(e: Event): int
    requires e.Login? && e.outcome.Granted?
  {
    RefreshDeadline(e.outcome.times, e.doneAt)
  }

  predicate IsGrant(e: Event) {
    e.Login? && e.outcome.Granted?
  }

  ghost predicate TicketInv(p: Provider) {
    && (forall i :: 0 <= i < |p.log| && IsGrant(p.log[i]) ==>
          p.closed || ReplaceAt(p.log[i]) <= p.clock || (p.ticket.Some? && ReplaceAt(p.log[i]) <= p.ticket.value))
    && (forall i, j :: 0 <= i < j < |p.log| && IsGrant(p.log[i]) && p.log[j].Login? ==>
         ReplaceAt(p.log[i]) <= p.log[j].at)
  }

  /** A login made when no cached ticket was fresh. */
  lemma {:induction false} LoginKeepsTickets(p: Provider, p': Provider, e: Event)
    requires TicketInv(p) && !p.closed && !Fresh(p) && e.Login? && e.at == p.clock
    requires p'.log == p.log + [e] && p'.clock == e.doneAt >= e.at
    requires if IsGrant(e) then p'.ticket == Some(ReplaceAt(e)) else p'.ticket == p.ticket
    ensures TicketInv(p')
  {
    forall i | 0 <= i < |p.log| && IsGrant(p.log[i]) ensures ReplaceAt(p.log[i]) <= p.clock {}
  }

  lemma {:induction false} ReadKeepsTickets(p: Provider, p': Provider, e: Event)
    requires TicketInv(p) && !e.Login?
    requires p'.log == p.log + [e] && p'.clock == p.clock && p'.ticket == p.ticket && p'.closed == p.closed
    ensures TicketInv(p')
  {}

  lemma {:induction false} AcquireKeepsTickets(p: Provider, w: World)
    requires TicketInv(p) && !p.closed
    ensures TicketInv(Acquire(p, w).0)
  {
    if !Fresh(p) {
      var r := PasswordRead(p, w.second);
      var p1 := Logged(p, ReadEvent(r));
      ReadKeepsTickets(p, p1, ReadEvent(r));
      if r.Some? {
        LoginKeepsTickets(p1, Acquire(p, w).0, Login(r.value, w.outcome, p.clock, p.clock + w.took));
      }
    }
  }

  lemma {:induction false} ExecKeepsTickets(mac: string -> Fingerprint, source: Source, ops: seq<Op>)
    ensures TicketInv(Exec(New(mac, source), ops))
  {
    if ops != [] {
      ExecKeepsTickets(mac, source, ops[..|ops| - 1]);
      NextKeepsTickets(Exec(New(mac, source), ops[..|ops| - 1]), ops[|ops| - 1]);
    }
  }

  lemma {:induction false} RecheckKeepsTickets(p: Provider, fromFile: Option<string>)
    requires TicketInv(p)
    ensures TicketInv(Recheck(p, fromFile).0) && Recheck(p, fromFile).0.closed == p.closed
  {}

  lemma {:induction false} NextKeepsTickets(p: Provider, op: Op)
    requires TicketInv(p)
    ensures TicketInv(Next(p, op))
  {
    match op
    case GetToken(w) =>
      RecheckKeepsTickets(p, w.first);
      if !p.closed { AcquireKeepsTickets(Recheck(p, w.first).0, w); }
    case TickerFires(read) => RecheckKeepsTickets(p, read);
    case _ =>
  }

  /** A valid ticket is always used for at least five sixths of its lifetime: no later login, of
      any kind, happens before that. */
  lemma {:induction false} TicketsAreReusedForMostOfTheirLife(mac: string -> Fingerprint, source: Source,
          ops: seq<Op>, i: int, j: int)
    requires var log := Exec(New(mac, source), ops).log;
             0 <= i < j < |log| && IsGrant(log[i]) && ValidTicket(log[i].outcome.times) && log[j].Login?
    ensures var log := Exec(New(mac, source), ops).log;
            var t := log[i].outcome.times;
            5 * (t.end - t.auth) <= 6 * (log[j].at - t.auth)
  {
    ExecKeepsTickets(mac, source, ops);
    var log := Exec(New(mac, source), ops).log;
    RefreshDeadlineIsSound(log[i].outcome.times, log[i].doneAt);
  }

  /** The cached ticket is that of login i. */
  predicate CachedFrom(p: Provider, i: int) {
    0 <= i < |p.log| && IsGrant(p.log[i]) && p.ticket == Some(ReplaceAt(p.log[i])) && p.log[i].doneAt <= p.clock
  }

  predicate UnexpiredFrom(p: Provider, i: int) {
    CachedFrom(p, i) && p.clock < p.log[i].outcome.times.end
  }

  ghost predicate CacheInv(p: Provider) {
    p.ticket.Some? ==> exists i :: CachedFrom(p, i)
  }

  lemma {:induction false} LogKeepsCache(p: Provider, p': Provider)
    requires CacheInv(p) && p.log <= p'.log && p.clock <= p'.clock && p'.ticket == p.ticket
    ensures CacheInv(p')
  {
    if p.ticket.Some? {
      var i :| CachedFrom(p, i);
      assert CachedFrom(p', i);
    }
  }

  lemma {:induction false} AcquireKeepsCache(p: Provider, w: World)
    requires CacheInv(p)
    ensures CacheInv(Acquire(p, w).0)
  {
    var p' := Acquire(p, w).0;
    if p'.ticket == p.ticket {
      LogKeepsCache(p, p');
    } else {
      assert CachedFrom(p', |p'.log| - 1);
    }
  }

  lemma {:induction false} NextKeepsCache(p: Provider, op: Op)
    requires CacheInv(p)
    ensures CacheInv(Next(p, op))
  {
    match op
    case GetToken(w) =>
      LogKeepsCache(p, Recheck(p, w.first).0);
      AcquireKeepsCache(Recheck(p, w.first).0, w);
    case TickerFires(read) => LogKeepsCache(p, Recheck(p, read).0);
    case Close =>
    case Wait(delay) => LogKeepsCache(p, p.(clock := p.clock + delay));
  }

  lemma {:induction false} ExecKeepsCache(mac: string -> Fingerprint, source: Source, ops: seq<Op>)
    ensures CacheInv(Exec(New(mac, source), ops))
  {
    if ops != [] {
      ExecKeepsCache(mac, source, ops[..|ops| - 1]);
      NextKeepsCache(Exec(New(mac, source), ops[..|ops| - 1]), ops[|ops| - 1]);
    }
  }

  /** In every run, a ticket that would be reused came from an earlier login and has not expired,
      even if the KDC's times made no sense. */
  lemma {:induction false} NoExpiredTicketIsReused(mac: string -> Fingerprint, source: Source, ops: seq<Op>)
    requires Fresh(Exec(New(mac, source), ops))
    ensures exists i :: UnexpiredFrom(Exec(New(mac, source), ops), i)
  {
    var p := Exec(New(mac, source), ops);
    ExecKeepsCache(mac, source, ops);
    var i :| CachedFrom(p, i);
    RefreshDeadlineIsSound(p.log[i].outcome.times, p.log[i].doneAt);
    assert UnexpiredFrom(p, i);
  }

  // ------------------------------------------------------------------- tokens granted

  ghost predicate ServingInv(p: Provider) {
    p.rejected ==> !Fresh(p)
  }

  lemma {:induction false} AcquireKeepsServing(p: Provider, w: World)
    requires !p.rejected
    ensures ServingInv(Acquire(p, w).0)
  {
    hide RefreshDeadline;
  }

  lemma {:induction false} ExecKeepsServing(mac: string -> Fingerprint, source: Source, ops: seq<Op>)
    ensures ServingInv(Exec(New(mac, source), ops))
  {
    hide Acquire;
    if ops != [] {
      var (p, op) := (Exec(New(mac, source), ops[..|ops| - 1]), ops[|ops| - 1]);
      ExecKeepsServing(mac, source, ops[..|ops| - 1]);
      if op.GetToken? && !p.closed && Recheck(p, op.w.first).1 { AcquireKeepsServing(Recheck(p, op.w.first).0, op.w); }
    }
  }

  /** Over every run, a call is answered with a token exactly in two cases. With a usable ticket, the
      security context decides, and neither the password nor the KDC is touched, whatever was rejected
      before. Without one, also the login must be granted, for a password that the guard lets through. */
  lemma {:induction false} ServesExactlyWhen(mac: string -> Fingerprint, source: Source, ops: seq<Op>, w: World)
    ensures var p := Exec(New(mac, source), ops);
            var (p', ok) := Get(p, w);
            var second := PasswordRead(p, w.second);
            if Fresh(p) then ok == w.negotiated && p' == p
            else ok <==> && w.negotiated && w.outcome.Granted? && second.Some? && WouldSend(p, w, p.mac(second.value))
  {
    hide RefreshDeadline;
    ExecKeepsServing(mac, source, ops);
    ExecKeepsLife(mac, source, ops);
    AnswersExactlyWhen(Exec(New(mac, source), ops), w);
  }

  lemma {:induction false} AnswersExactlyWhen(p: Provider, w: World)
    requires (p.rejected ==> !Fresh(p)) && (p.closed ==> p.ticket.None?)
    ensures var (p', ok) := Get(p, w);
            var second := PasswordRead(p, w.second);
            if Fresh(p) then ok == w.negotiated && p' == p
            else ok <==> && w.negotiated && w.outcome.Granted? && second.Some? && WouldSend(p, w, p.mac(second.value))
  {
    hide RefreshDeadline;
    RecheckLogs(p, w.first);
  }
}
