/** One direction of a tunnel: the copy loop and the tracked writes it makes. Whatever the
    other direction does to the shared clock meanwhile is interference on it. */
module TunnelCopy {
  import opened Strings
  import opened TunnelClock

  type Byte = bv8

  const COPY_BUFFER := 32 * 1024

  datatype Error = NoError | TimedOut | NoProgress | OtherError | IdleTimeout

  // ---------------------------------------------------------------- tracked writes

  /** `tunnelConn.Write` with an armed clock. `accepted` is what the transport took; a write that
      times out has waited a whole timeout for its last chunk. */
  method Write(clock: Clock, p: seq<Byte>, timeout: int) returns (accepted: seq<Byte>, err: Error)
    requires clock.Valid() && 0 < timeout
    modifies clock
    ensures clock.Valid() && old(clock.last) <= clock.last && old(clock.time) <= clock.time
    ensures |clock.others| <= |old(clock.others)|
    ensures accepted <= p
    ensures err == NoError ==> accepted == p
    ensures accepted != [] ==> old(clock.time) <= clock.last
    ensures err == NoProgress ==> accepted < p
    ensures err == TimedOut ==> old(clock.time) + timeout <= clock.time
    ensures err != IdleTimeout
  {
    accepted := [];
    var rest := p;
    while rest != []
      invariant clock.Valid() && old(clock.last) <= clock.last && old(clock.time) <= clock.time
      invariant |clock.others| <= |old(clock.others)|
      invariant accepted + rest == p
      invariant accepted != [] ==> old(clock.time) <= clock.last
      decreases |rest|
    {
      var n, chunkErr := WriteChunk(clock, rest, timeout);
      if n > 0 {
        clock.Touch();
        accepted := accepted + rest[..n];
        rest := rest[n..];
      }
      if chunkErr != NoError {
        return accepted, chunkErr;
      }
      if n == 0 {
        return accepted, NoProgress;
      }
    }
    return accepted, NoError;
  }

  /** `writeTunnelChunk`. A raw socket takes some of the bytes or fails, no later than the deadline
      armed for it; any other connection is probed. */
  method WriteChunk(clock: Clock, p: seq<Byte>, timeout: int) returns (n: nat, err: Error)
    requires clock.Valid() && 0 < timeout && p != []
    modifies clock
    ensures clock.Valid() && old(clock.last) <= clock.last && old(clock.time) <= clock.time
    ensures |clock.others| <= |old(clock.others)|
    ensures n <= |p| && err in {NoError, TimedOut, OtherError}
    ensures err == TimedOut ==> n == 0 && old(clock.time) + timeout <= clock.time
  {
    var start := clock.time;
    var raw := *;
    if raw {
      n, err := WriteRaw(clock, p, start + timeout);
    } else {
      n, err := WriteProbing(clock, p, start, timeout);
    }
  }

  method WriteRaw(clock: Clock, p: seq<Byte>, deadline: int) returns (n: nat, err: Error)
    requires clock.Valid()
    modifies clock
    ensures clock.Valid() && old(clock.last) <= clock.last && old(clock.time) <= clock.time
    ensures |clock.others| <= |old(clock.others)|
    ensures n <= |p| && err in {NoError, TimedOut, OtherError} && (err != NoError ==> n == 0)
    ensures err == TimedOut ==> deadline <= clock.time
  {
    clock.Interfere();
    n :| 0 <= n <= |p|;
    err :| err == NoError || err == TimedOut || err == OtherError;
    if err != NoError {
      n := 0;
    }
    if err == TimedOut {
      clock.WaitUntil(deadline);
    }
  }

  /** `writeTunnelBuffered` on whatever transport; one that never answers fails when the tunnel is
      torn down. */
  method WriteProbing(clock: Clock, p: seq<Byte>, start: int, timeout: int) returns (n: nat, err: Error)
    requires clock.Valid() && 0 < timeout && p != []
    modifies clock
    ensures clock.Valid() && old(clock.last) <= clock.last && old(clock.time) <= clock.time
    ensures |clock.others| <= |old(clock.others)|
    ensures n <= |p| && err in {NoError, TimedOut, OtherError}
    ensures err == TimedOut ==> n == 0 && start + timeout <= clock.time
  {
    var attempts: seq<Attempt> := *;
    if !HonestSchedule(attempts, |p|, start, timeout) {
      attempts := [];
    }
    var r, used, _ := WriteBuffered(|p|, start, timeout, attempts);
    clock.Interfere();
    if r.Pending? {
      return 0, OtherError;
    }
    clock.WaitUntil(attempts[used - 1].doneAt);
    return r.n, r.err;
  }

  /** One pass of the loop in `writeTunnelBuffered`, as the transport answered it. */
  datatype Attempt = Attempt(armedAt: int, armed: bool, n: nat, err: Error, doneAt: int)

  datatype Answer = Answer(n: nat, err: Error) | Pending

  function Probe(a: Attempt, start: int, timeout: int): int {
    var probe := a.armedAt + timeout / 4;
    if start + timeout < probe then start + timeout else probe
  }

  /** The transport's side: a short write reports an error, and a write times out no earlier
      than its deadline. */
  predicate Honest(a: Attempt, size: nat, start: int, timeout: int) {
    && a.armedAt <= a.doneAt && a.n <= size
    && a.err in {NoError, TimedOut, OtherError}
    && (a.err == NoError ==> a.n == size)
    && (a.err == TimedOut ==> Probe(a, start, timeout) <= a.doneAt)
  }

  /** k times the quarter, for the first four probes. */
  ghost function FourAtMost(k: nat, quarter: int): int {
    if k == 0 then 0 else if k == 1 then quarter else if k == 2 then 2 * quarter
    else if k == 3 then 3 * quarter else 4 * quarter
  }

  predicate HonestSchedule(attempts: seq<Attempt>, size: nat, start: int, timeout: int) {
    && (forall i :: 0 <= i < |attempts| ==> Honest(attempts[i], size, start, timeout))
    && (forall i :: 0 <= i < |attempts| ==> start <= attempts[i].armedAt)
    && (forall i :: 0 < i < |attempts| ==> attempts[i - 1].doneAt <= attempts[i].armedAt)
  }

  /** `writeTunnelBuffered`: short probe deadlines inside one overall deadline. All bytes the
      transport took are reported, no probe outlives the deadline, giving up with nothing
      written means the whole timeout has passed, and five probes always suffice. */
  method WriteBuffered(size: nat, start: int, timeout: int, attempts: seq<Attempt>)
    returns (r: Answer, used: nat, deadlines: seq<int>)
    requires 0 < timeout && 0 < size
    requires HonestSchedule(attempts, size, start, timeout)
    ensures used <= |attempts|
    ensures forall d :: d in deadlines ==> d <= start + timeout
    ensures forall i :: 0 <= i < used - 1 ==> attempts[i].armed && attempts[i].n == 0
    ensures r.Answer? ==> 0 < used && r.err in {NoError, TimedOut, OtherError}
    ensures r.Answer? ==> r.n == if attempts[used - 1].armed then attempts[used - 1].n else 0
    ensures r.Answer? && r.err == TimedOut ==> r.n == 0 && start + timeout <= attempts[used - 1].doneAt
    ensures r.Answer? && r.err == NoError ==> 0 < r.n
    ensures r.Answer? && r.err == NoError && r.n < size ==> attempts[used - 1].err == TimedOut
    ensures r.Pending? ==> used == |attempts|
    ensures 12 <= timeout ==> used <= 5
  {
    var deadline := start + timeout;
    var quarter := timeout / 4;
    ghost var floor := 0;
    used, deadlines := 0, [];
    while used < |attempts|
      invariant used <= |attempts|
      invariant forall d :: d in deadlines ==> d <= deadline
      invariant forall i :: 0 <= i < used ==> attempts[i].armed && attempts[i].n == 0
      invariant 0 < used ==> attempts[used - 1].doneAt < deadline
      invariant if used == 0 then floor == 0 else start + floor <= attempts[used - 1].doneAt
      invariant 12 <= timeout ==> used <= 4 && floor == FourAtMost(used, quarter)
    {
      var a := attempts[used];
      used, floor := used + 1, floor + quarter;
      if !a.armed {
        return Answer(0, OtherError), used, deadlines;
      }
      deadlines := deadlines + [Probe(a, start, timeout)];
      if a.err == TimedOut {
        if a.n > 0 {
          return Answer(a.n, NoError), used, deadlines;
        }
        if a.doneAt < deadline {
          continue;
        }
      }
      return Answer(a.n, a.err), used, deadlines;
    }
    r := Pending;
  }

  // ------------------------------------------------------------------ the copy loop

  /** A connection being read: the bytes its peer has sent or will send, in order, starting
      with what the HTTP reader already holds in its buffer. */
  class Source {
    var pending: seq<Byte>

    constructor (pending: seq<Byte>)
      ensures this.pending == pending
    {
      this.pending := pending;
    }

    /** One read: some bytes, an error, or both. End of file comes only after the last byte,
        and a timeout no earlier than the deadline, if there is one. */
    method Read(clock: Clock, deadline: Option<int>) returns (chunk: seq<Byte>, eof: bool, err: Error)
      requires clock.Valid()
      modifies this, clock
      ensures clock.Valid() && old(clock.last) <= clock.last && old(clock.time) <= clock.time
      ensures |clock.others| <= |old(clock.others)|
      ensures clock.last != old(clock.last) ==> |clock.others| < |old(clock.others)|
      ensures chunk + pending == old(pending) && |chunk| <= COPY_BUFFER
      ensures eof ==> pending == []
      ensures err == TimedOut ==> deadline.Some? && deadline.value <= clock.time
      ensures err in {NoError, TimedOut, OtherError} && (eof ==> err == NoError)
      ensures chunk == [] ==> eof || err != NoError
    {
      clock.Interfere();
      var n :| 0 <= n <= |pending| && n <= COPY_BUFFER;
      chunk := pending[..n];
      pending := pending[n..];
      err :| err == NoError || err == OtherError || (err == TimedOut && deadline.Some?);
      if chunk == [] && pending != [] && err == NoError {
        err := OtherError;
      }
      eof := *;
      eof := (eof || chunk == []) && pending == [] && err == NoError;
      if err == TimedOut {
        clock.WaitUntil(deadline.value);
      }
    }
  }

  /** A read that brought bytes is progress, and so is every part of them that is written. */
  method PassOn(clock: Clock, chunk: seq<Byte>, timeout: int) returns (accepted: seq<Byte>, err: Error)
    requires clock.Valid() && 0 < timeout
    modifies clock
    ensures clock.Valid() && old(clock.time) <= clock.last && old(clock.time) <= clock.time
    ensures old(clock.last) <= clock.last && |clock.others| <= |old(clock.others)|
    ensures accepted <= chunk && (err == NoError ==> accepted == chunk) && err != IdleTimeout
  {
    clock.Touch();
    accepted, err := Write(clock, chunk, timeout);
  }

  /** `io.Copy`, which a tunnel without a timeout uses: no deadlines and no clock. */
  method PlainCopy(clock: Clock, src: Source) returns (delivered: seq<Byte>, err: Error)
    requires clock.Valid()
    modifies clock, src
    ensures clock.Valid() && old(clock.last) <= clock.last && old(clock.time) <= clock.time
    ensures delivered <= old(src.pending) && |delivered| + |src.pending| <= |old(src.pending)|
    ensures err == NoError ==> delivered == old(src.pending)
    ensures err != IdleTimeout
  {
    delivered := [];
    ghost var whole := src.pending;
    while true
      invariant clock.Valid() && old(clock.last) <= clock.last && old(clock.time) <= clock.time
      invariant delivered + src.pending == whole
      decreases |src.pending|
    {
      var chunk, eof, readErr := src.Read(clock, None);
      assert (delivered + chunk) + src.pending == whole;
      var n :| 0 <= n <= |chunk|;
      delivered := delivered + chunk[..n];
      if n < |chunk| {
        return delivered, OtherError;
      }
      if eof || readErr != NoError {
        return delivered, readErr;
      }
    }
  }

  /** `idleCopy`. Nothing is lost, duplicated or reordered; end of file means
      everything arrived; an idle ending means that at instant `at`, sampled during the call,
      neither direction had published progress for the whole timeout. The loop stops as soon as
      both the source and the other direction stop making progress. */
  method IdleCopy(clock: Clock, src: Source, timeout: int)
    returns (delivered: seq<Byte>, err: Error, at: int)
    requires clock.Valid()
    modifies clock, src
    ensures clock.Valid() && old(clock.last) <= clock.last
    ensures delivered <= old(src.pending)
    ensures |delivered| + |src.pending| <= |old(src.pending)|
    ensures err == NoError ==> delivered == old(src.pending)
    ensures err == IdleTimeout ==> 0 < timeout && clock.last + timeout <= at <= clock.time
    ensures 0 < timeout && src.pending != old(src.pending) ==> old(clock.time) <= clock.last
  {
    if timeout <= 0 {
      delivered, err := PlainCopy(clock, src);
      return delivered, err, clock.time;
    }
    delivered, at := [], clock.time;
    ghost var whole := src.pending;
    while true
      invariant clock.Valid() && old(clock.last) <= clock.last
      invariant delivered + src.pending == whole && old(clock.time) <= clock.time
      invariant src.pending != whole ==> old(clock.time) <= clock.last
      decreases |src.pending| + |clock.others|, 1
    {
      var remaining, armedAt := clock.Remaining(timeout);
      if remaining <= 0 {
        return delivered, IdleTimeout, armedAt;
      }
      var deadline := clock.time + remaining;
      ghost var lastArmed := clock.last;
      var chunk, eof, readErr := src.Read(clock, Some(deadline));
      assert (delivered + chunk) + src.pending == whole;
      if chunk != [] {
        var accepted, writeErr := PassOn(clock, chunk, timeout);
        delivered := delivered + accepted;
        if writeErr != NoError {
          return delivered, writeErr, at;
        }
      }
      if readErr == TimedOut {
        var idle, sampled := clock.Idle(timeout);
        if idle {
          return delivered, IdleTimeout, sampled;
        }
        assert chunk == [] ==> lastArmed < clock.last;
      } else if eof {
        return delivered, NoError, at;
      } else if readErr != NoError {
        return delivered, readErr, at;
      }
    }
  }
}
