/** The accept loop, its retry schedule and the drain at shutdown. Times are milliseconds. */
module Server {
  const INITIAL := 5
  const MAX := 1000

  function NextDelay(delay: nat): nat {
    if delay == 0 then INITIAL else if delay * 2 > MAX then MAX else delay * 2
  }

  class AcceptBackoff {
    var delay: nat

    constructor ()
      ensures delay == 0
    {
      delay := 0;
    }

    method Next() returns (d: nat)
      modifies this
      ensures d == delay == NextDelay(old(delay))
    {
      if delay == 0 {
        delay := INITIAL;
      } else {
        delay := delay * 2;
        if delay > MAX {
          delay := MAX;
        }
      }
      return delay;
    }

    method Reset()
      modifies this
      ensures delay == 0
    {
      delay := 0;
    }
  }

  function Pow2(n: nat): nat {
    if n == 0 then 1 else 2 * Pow2(n - 1)
  }

  /** The wait after the n-th error in a row: 5ms, doubled each time, up to 1s. */
  function Wait(n: nat): nat {
    if n == 0 then 0 else if n <= 8 then INITIAL * Pow2(n - 1) else MAX
  }

  lemma {:induction false} DoublingUpToTheCap(n: nat)
    ensures NextDelay(Wait(n)) == Wait(n + 1)
    ensures 0 < n ==> INITIAL <= Wait(n) <= MAX
  {
    assert Pow2(0) == 1 && Pow2(1) == 2 && Pow2(2) == 4 && Pow2(3) == 8;
    assert Pow2(4) == 16 && Pow2(5) == 32 && Pow2(6) == 64;
    assert Pow2(7) == 128;
    if 1 <= n < 8 {
      assert Pow2(n) == 2 * Pow2(n - 1);
    }
  }

  /** The errors in a row that a history of accepts ends with. */
  function Streak(accepts: seq<bool>): nat {
    if accepts == [] || accepts[|accepts| - 1] then 0 else Streak(accepts[..|accepts| - 1]) + 1
  }

  /** The waits that a history of accepts calls for: after each error, by how many in a row it ends. */
  function Waits(accepts: seq<bool>): seq<nat> {
    if accepts == [] then []
    else
      var before := Waits(accepts[..|accepts| - 1]);
      if accepts[|accepts| - 1] then before else before + [Wait(Streak(accepts))]
  }

  /** The accept loop, given what each `Accept` returns until cancellation: one session for each
      connection, and after the n-th error in a row the n-th wait of the schedule. */
  method AcceptLoop(accepts: seq<bool>) returns (waits: seq<nat>, sessions: nat)
    ensures waits == Waits(accepts)
    ensures sessions + |waits| == |accepts|
  {
    var backoff := new AcceptBackoff();
    waits, sessions := [], 0;
    for i := 0 to |accepts|
      invariant waits == Waits(accepts[..i]) && sessions + |waits| == i
      invariant backoff.delay == Wait(Streak(accepts[..i]))
    {
      assert accepts[..i + 1][..i] == accepts[..i];
      DoublingUpToTheCap(Streak(accepts[..i]));
      if accepts[i] {
        backoff.Reset();
        sessions := sessions + 1;
      } else {
        var d := backoff.Next();
        waits := waits + [d];
      }
    }
    assert accepts[..|accepts|] == accepts;
  }

  // ----------------------------------------------------- accept loop and main goroutine

  /** Holding: `Accept` returned a connection whose session is not yet registered. */
  datatype Loop = Accepting | Holding | Waiting | Stopped
  datatype Main = Serving | Joining | Draining | Drained | GaveUp

  /** `errors` counts the failed accepts since the last successful one, `accepted` the connections
      accepted; `started` and `ended` count the sessions registered with, and released from, the wait
      group. */
  datatype State = State(cancelled: bool, open: bool, loop: Loop, main: Main, delay: nat, errors: nat,
                         accepted: nat, started: nat, ended: nat)

  datatype Action = Cancel | AcceptReturns | AcceptFails | StartSession | TimerFires | WaitCancelled | SessionEnds
                  | CloseListener | SeeLoopDone | SeeSessionsDone | DrainTimeout

  const Start := State(false, true, Accepting, Serving, 0, 0, 0, 0, 0)

  /** One atomic step of any goroutine; an action that is not enabled does nothing. */
  function Next(s: State, a: Action): State {
    match a
    case Cancel => s.(cancelled := true)
    case AcceptReturns => if s.loop.Accepting? && s.open then s.(loop := Holding, accepted := s.accepted + 1) else s
    case StartSession =>
      if s.loop.Holding? then s.(loop := Accepting, delay := 0, errors := 0, started := s.started + 1) else s
    case AcceptFails =>
      if !s.loop.Accepting? then s
      else if s.cancelled then s.(loop := Stopped)
      else s.(loop := Waiting, delay := NextDelay(s.delay), errors := s.errors + 1)
    case TimerFires => if s.loop.Waiting? then s.(loop := Accepting) else s
    case WaitCancelled => if s.loop.Waiting? && s.cancelled then s.(loop := Stopped) else s
    case SessionEnds => if s.ended < s.started then s.(ended := s.ended + 1) else s
    case CloseListener => if s.main.Serving? && s.cancelled then s.(open := false, main := Joining) else s
    case SeeLoopDone => if s.main.Joining? && s.loop.Stopped? then s.(main := Draining) else s
    case SeeSessionsDone => if s.main.Draining? && s.ended == s.started then s.(main := Drained) else s
    case DrainTimeout => if s.main.Draining? then s.(main := GaveUp) else s
  }

  function Exec(s: State, schedule: seq<Action>): State {
    if schedule == [] then s else Next(Exec(s, schedule[..|schedule| - 1]), schedule[|schedule| - 1])
  }

  predicate Past(m: Main) {
    m.Draining? || m.Drained? || m.GaveUp?
  }

  ghost predicate Inv(s: State) {
    && s.ended <= s.started && s.delay == Wait(s.errors)
    && s.accepted == s.started + (if s.loop.Holding? then 1 else 0)
    && (!s.main.Serving? ==> s.cancelled && !s.open)
    && (s.loop.Stopped? ==> s.cancelled)
    && (Past(s.main) ==> s.loop.Stopped?)
    && (s.main.Drained? ==> s.ended == s.started)
  }

  lemma {:induction false} NextKeepsInv(s: State, a: Action)
    requires Inv(s)
    ensures Inv(Next(s, a))
  {
    DoublingUpToTheCap(s.errors);
  }

  lemma {:induction false} ExecKeepsInv(s: State, schedule: seq<Action>)
    requires Inv(s)
    ensures Inv(Exec(s, schedule))
  {
    if schedule != [] {
      ExecKeepsInv(s, schedule[..|schedule| - 1]);
      NextKeepsInv(Exec(s, schedule[..|schedule| - 1]), schedule[|schedule| - 1]);
    }
  }

  /** In every run the wait before a retry follows the schedule, restarting after each success,
      and a drain that reports success has seen the session of every accepted connection end. */
  lemma {:induction false} RetriesAndDrain(schedule: seq<Action>)
    ensures var s := Exec(Start, schedule);
            && s.delay == Wait(s.errors) && s.ended <= s.started <= s.accepted <= s.started + 1
            && (s.main.Drained? ==> s.ended == s.accepted)
  {
    assert Inv(Start);
    ExecKeepsInv(Start, schedule);
  }

  /** No session is registered once the drain has begun to wait: the wait group's counter never
      grows beside the wait, so neither a report of success nor the timeout is overtaken. */
  lemma {:induction false} NoSessionStartsDuringTheDrain(before: seq<Action>, after: seq<Action>)
    requires Past(Exec(Start, before).main)
    ensures var s := Exec(Start, before);
            var t := Exec(s, after);
            && Past(t.main) && t.started == s.started && s.ended <= t.ended
            && (s.main.Drained? ==> t.main.Drained? && t.ended == t.started)
  {
    assert Inv(Start);
    ExecKeepsInv(Start, before);
    DrainIsClosed(Exec(Start, before), after);
  }

  lemma {:induction false} DrainIsClosed(s: State, after: seq<Action>)
    requires Inv(s) && Past(s.main)
    ensures var t := Exec(s, after);
            && Inv(t) && Past(t.main) && t.started == s.started && s.ended <= t.ended
            && (s.main.Drained? ==> t.main.Drained?)
  {
    if after != [] {
      DrainIsClosed(s, after[..|after| - 1]);
      NextKeepsInv(Exec(s, after[..|after| - 1]), after[|after| - 1]);
    }
  }

  /** The join cannot hang: once the listener is closed the loop's next two steps, whichever they
      are, stop it, unless it already has. */
  lemma {:induction false} LoopStopsSoon(schedule: seq<Action>, a: Action, b: Action)
    requires !Exec(Start, schedule).open
    requires OfLoop(Exec(Start, schedule), a) && OfLoop(Exec(Start, schedule + [a]), b)
    ensures Exec(Start, schedule + [a, b]).loop.Stopped?
  {
    OpenOnlyWhileServing(schedule);
    assert (schedule + [a, b])[..|schedule| + 1] == schedule + [a];
    assert (schedule + [a])[..|schedule|] == schedule;
    assert Exec(Start, schedule + [a]) == Next(Exec(Start, schedule), a);
    assert Exec(Start, schedule + [a, b]) == Next(Exec(Start, schedule + [a]), b);
  }

  lemma {:induction false} OpenOnlyWhileServing(schedule: seq<Action>)
    ensures Exec(Start, schedule).open <==> Exec(Start, schedule).main.Serving?
    ensures Exec(Start, schedule).main.Serving? || Exec(Start, schedule).cancelled
  {
    if schedule != [] {
      OpenOnlyWhileServing(schedule[..|schedule| - 1]);
    }
  }

  /** A step the accept loop takes from its present place; a stopped loop takes none. */
  predicate OfLoop(s: State, a: Action) {
    match s.loop
    case Accepting => a.AcceptFails? || (a.AcceptReturns? && s.open)
    case Holding => a.StartSession?
    case Waiting => a.TimerFires? || (a.WaitCancelled? && s.cancelled)
    case Stopped => true
  }

  /** A way out from any state: cancellation, the listener's close, the loop's last steps, the timeout. */
  function WayOut(s: State): seq<Action> {
    [Cancel, CloseListener] +
    (match s.loop
     case Accepting => [AcceptFails]
     case Holding => [StartSession, AcceptFails]
     case Waiting => [WaitCancelled]
     case Stopped => []) +
    [SeeLoopDone, DrainTimeout]
  }

  lemma {:induction false} ExecFirst(s: State, a: Action, rest: seq<Action>)
    ensures Exec(s, [a] + rest) == Exec(Next(s, a), rest)
  {
    hide Next;
    if rest == [] {
      assert [a] + rest == [a] && [a][..0] == [];
    } else {
      var n := |rest| - 1;
      assert ([a] + rest)[..|rest|] == [a] + rest[..n];
      ExecFirst(s, a, rest[..n]);
    }
  }

  /** `Serve` can never hang: from every reachable state it returns after cancellation and at most five
      more steps, whatever the sessions do; and it reports success as soon as they have all ended. */
  lemma {:induction false} ServeReturnsAfterCancellation(schedule: seq<Action>)
    ensures var s := Exec(Start, schedule);
            var t := Exec(s, WayOut(s));
            && (t.main.Drained? || t.main.GaveUp?)
            && (s.main.Draining? && s.ended == s.started ==> Next(s, SeeSessionsDone).main.Drained?)
  {
    var s := Exec(Start, schedule);
    assert Inv(Start);
    ExecKeepsInv(Start, schedule);
    WayOutInSteps(s);
    StepsLeadOut(s);
  }

  lemma {:induction false} StepsLeadOut(s: State)
    requires Inv(s)
    ensures var t := Next(Next(LoopEnd(Next(Next(s, Cancel), CloseListener)), SeeLoopDone), DrainTimeout);
            t.main.Drained? || t.main.GaveUp?
  {}

  lemma {:induction false} WayOutInSteps(s: State)
    ensures Exec(s, WayOut(s))
         == Next(Next(LoopEnd(Next(Next(s, Cancel), CloseListener)), SeeLoopDone), DrainTimeout)
  {
    hide Exec, LoopEnd;
    var last := [SeeLoopDone] + ([DrainTimeout] + []);
    var loop := match s.loop
      case Accepting => [AcceptFails] case Holding => [StartSession] + [AcceptFails] case Waiting => [WaitCancelled]
      case Stopped => [];
    assert WayOut(s) == [Cancel] + ([CloseListener] + (loop + last));
    ExecFirst(s, Cancel, [CloseListener] + (loop + last));
    ExecFirst(Next(s, Cancel), CloseListener, loop + last);
    var t := Next(Next(s, Cancel), CloseListener);
    LoopLeaves(t, loop, last);
    ExecFirst(LoopEnd(t), SeeLoopDone, [DrainTimeout] + []);
    ExecFirst(Next(LoopEnd(t), SeeLoopDone), DrainTimeout, []);
    ExecNothing(Next(Next(LoopEnd(t), SeeLoopDone), DrainTimeout));
  }

  lemma {:induction false} ExecNothing(s: State)
    ensures Exec(s, []) == s
  {}

  function LoopEnd(t: State): State {
    match t.loop
    case Accepting => Next(t, AcceptFails)
    case Holding => Next(Next(t, StartSession), AcceptFails)
    case Waiting => Next(t, WaitCancelled)
    case Stopped => t
  }

  lemma {:induction false} LoopLeaves(t: State, loop: seq<Action>, last: seq<Action>)
    requires loop == match t.loop
                     case Accepting => [AcceptFails] case Holding => [StartSession] + [AcceptFails]
                     case Waiting => [WaitCancelled] case Stopped => []
    ensures Exec(t, loop + last) == Exec(LoopEnd(t), last)
  {
    match t.loop
    case Accepting => ExecFirst(t, AcceptFails, last);
    case Holding =>
      assert loop + last == [StartSession] + ([AcceptFails] + last);
      ExecFirst(t, StartSession, [AcceptFails] + last);
      ExecFirst(Next(t, StartSession), AcceptFails, last);
    case Waiting => ExecFirst(t, WaitCancelled, last);
    case Stopped => assert loop + last == last;
  }
}
