/** A whole CONNECT tunnel: both copy loops, their shared clock, half-close and teardown,
    interleaved in every order with the two peers. */
module Tunnel {
  import Clock = TunnelClock
  import TunnelCopy

  type Byte = TunnelCopy.Byte

  /** Up carries the client's bytes to the peer, Down the peer's to the client. */
  datatype Dir = Up | Down

  /** What ended a read: nothing, a deadline, the end of the stream, or a failure. */
  datatype ReadEnd = More | Deadline | AtEof | Broken

  /** Why a half stopped. An idle one records the instant its quiet time was measured at, and what
      had been published when that measurement was confirmed. */
  datatype Why = Clean | Idle(at: int, seen: seq<int>) | Failure

  /** Where a half stands in its copy loop. While it is Budgeting or Doubting it runs the clock's
      `quietForSince`, while it is Touching the clock's `touchAt`, one atomic operation at a time. */
  datatype Pc =
    | Arming
    | Budgeting
    | Reading(deadline: int)
    | Publishing(rest: seq<Byte>, end: ReadEnd, failed: bool)
    | Touching(rest: seq<Byte>, end: ReadEnd, failed: bool)
    | Writing(rest: seq<Byte>, end: ReadEnd)
    | Deciding(end: ReadEnd)
    | Doubting
    | HalfClosing
    | TearingDown(why: Why, closed: nat)
    | Ended(why: Why)

  /** One direction. `sent` is all the source peer has sent, including bytes the HTTP reader had
      buffered; `taken` of them have been read; `fin` is the half-close sent to the destination;
      `moved` is when a byte was last read or written. */
  datatype Half = Half(sent: seq<Byte>, finished: bool, taken: nat, delivered: seq<Byte>, fin: bool, moved: int, pc: Pc)

  /** The shared clock is the register of TunnelClock, with one goroutine per half. */
  datatype Tunnel = Tunnel(timeout: int, clock: Clock.State, up: Half, down: Half, clientOpen: bool, peerOpen: bool)

  /** The steps of one half and of the peer it reads from. */
  datatype HalfAction =
    | Send(bytes: seq<Byte>)
    | Finish
    | Arm
    | Read(n: nat, end: ReadEnd)
    | Touch
    | Accept(n: nat, failed: bool)
    | Decide
    | ClockGoes
    | ClockAnswers
    | CloseWrite(ok: bool)
    | CloseNext

  datatype Action = Tick(delay: nat) | On(d: Dir, step: HalfAction)

  /** What a half sees of the rest of the tunnel: the time, where it stands in its own operation on
      the clock, and whether its destination is open. */
  datatype View = View(timeout: int, time: int, own: Clock.Pc, destinationOpen: bool)

  function Of(t: Tunnel, d: Dir): Half {
    if d.Up? then t.up else t.down
  }

  function With(t: Tunnel, d: Dir, h: Half): Tunnel {
    if d.Up? then t.(up := h) else t.(down := h)
  }

  function Id(d: Dir): nat {
    if d.Up? then 0 else 1
  }

  function ViewOf(t: Tunnel, d: Dir): View {
    View(t.timeout, t.clock.time, Clock.PcOf(t.clock, Id(d)), if d.Up? then t.peerOpen else t.clientOpen)
  }

  function Start(timeout: int, up: seq<Byte>, down: seq<Byte>): Tunnel {
    Tunnel(timeout, Clock.INITIAL, Half(up, false, 0, [], false, 0, Arming), Half(down, false, 0, [], false, 0, Arming),
           true, true)
  }

  function GiveUp(h: Half, why: Why): Half {
    h.(pc := TearingDown(why, 0))
  }

  /** A step that is not enabled leaves the half as it is. Without a timeout the clock is not used. */
  function StepHalf(h: Half, v: View, a: HalfAction): Half {
    match a
    case Send(bytes) => if h.finished then h else h.(sent := h.sent + bytes)
    case Finish => h.(finished := true)
    case Arm => if h.pc.Arming? then h.(pc := if 0 < v.timeout then Budgeting else Reading(0)) else h
    case Read(n, end) => if h.pc.Reading? then ReadStep(h, v, n, end) else h
    case Touch =>
      if !h.pc.Publishing? then h
      else if 0 < v.timeout then h.(pc := Touching(h.pc.rest, h.pc.end, h.pc.failed))
      else Touched(h, h.pc.rest, h.pc.end, h.pc.failed)
    case Accept(n, failed) => if h.pc.Writing? then AcceptStep(h, v, n, failed) else h
    case Decide => if h.pc.Deciding? then DecideStep(h) else h
    case ClockGoes => h
    case ClockAnswers => AnswerStep(h, v)
    case CloseWrite(ok) =>
      if !h.pc.HalfClosing? then h
      else if ok then h.(fin := true, pc := Ended(Clean))
      else GiveUp(h, Failure)
    case CloseNext =>
      if !h.pc.TearingDown? then h
      else if h.pc.closed == 0 then h.(pc := TearingDown(h.pc.why, 1))
      else h.(pc := Ended(h.pc.why))
  }

  /** A read takes the next n bytes. End of file is reported only once the source has finished
      and nothing is left, a deadline only once it has passed. */
  function ReadStep(h: Half, v: View, n: nat, end: ReadEnd): Half
    requires h.pc.Reading?
  {
    if |h.sent| - h.taken < n || (n == 0 && end.More?) then h
    else if end.AtEof? && !(h.finished && h.taken + n == |h.sent|) then h
    else if end.Deadline? && !(0 < v.timeout && h.pc.deadline <= v.time) then h
    else if n == 0 then h.(pc := Deciding(end))
    else h.(taken := h.taken + n, moved := v.time, pc := Publishing(h.sent[h.taken..h.taken + n], end, false))
  }

  /** The destination takes some of the bytes in hand, or refuses, or both. */
  function AcceptStep(h: Half, v: View, n: nat, failed: bool): Half
    requires h.pc.Writing?
  {
    if |h.pc.rest| < n || (0 < n && !v.destinationOpen) then h
    else if n == 0 then GiveUp(h, Failure)
    else
      h.(delivered := h.delivered + h.pc.rest[..n], moved := v.time,
         pc := Publishing(h.pc.rest[n..], h.pc.end, failed))
  }

  /** What follows a touch. */
  function Touched(h: Half, rest: seq<Byte>, end: ReadEnd, failed: bool): Half {
    if failed then GiveUp(h, Failure) else if rest == [] then h.(pc := Deciding(end)) else h.(pc := Writing(rest, end))
  }

  function DecideStep(h: Half): Half
    requires h.pc.Deciding?
  {
    match h.pc.end
    case More => h.(pc := Arming)
    case Deadline => h.(pc := Doubting)
    case AtEof => h.(pc := HalfClosing)
    case Broken => GiveUp(h, Failure)
  }

  /** The clock operation has returned. */
  function AnswerStep(h: Half, v: View): Half {
    if h.pc.Touching? && v.own.Away? then Touched(h, h.pc.rest, h.pc.end, h.pc.failed)
    else if (h.pc.Budgeting? || h.pc.Doubting?) && v.own.Reported? then
      if v.timeout <= v.own.quiet then GiveUp(h, Idle(v.own.elapsed, v.own.after))
      else h.(pc := if h.pc.Doubting? then Arming else Reading(v.time + v.timeout - v.own.quiet))
    else h
  }

  /** What a half's step does to the clock; most do nothing. */
  function ClockAction(t: Tunnel, d: Dir, step: HalfAction): Clock.Action {
    var pc := Of(t, d).pc;
    if t.timeout <= 0 then Clock.Tick(0)
    else if (step.Arm? && pc.Arming?) || (step.Decide? && pc == Deciding(Deadline)) then Clock.StartQuiet(Id(d))
    else if step.Touch? && pc.Publishing? then Clock.StartTouch(Id(d))
    else if step.ClockGoes? then Clock.Go(Id(d))
    else Clock.Tick(0)
  }

  function ClockStep(t: Tunnel, d: Dir, step: HalfAction): Clock.State {
    Clock.Next(t.clock, ClockAction(t, d, step))
  }

  function Next(t: Tunnel, a: Action): Tunnel {
    match a
    case Tick(delay) => t.(clock := Clock.Next(t.clock, Clock.Tick(delay)))
    case On(d, step) =>
      var h := Of(t, d);
      var t' := With(t, d, StepHalf(h, ViewOf(t, d), step)).(clock := ClockStep(t, d, step));
      if step.CloseNext? && h.pc.TearingDown? then
        if h.pc.closed == 0 then t'.(clientOpen := false) else t'.(peerOpen := false)
      else t'
  }

  function Exec(t: Tunnel, schedule: seq<Action>): Tunnel {
    if schedule == [] then t else Next(Exec(t, schedule[..|schedule| - 1]), schedule[|schedule| - 1])
  }

  // ------------------------------------------------------------------- invariants

  /** The bytes read and not yet handed on. */
  function InHand(pc: Pc): seq<Byte> {
    if pc.Publishing? || pc.Touching? || pc.Writing? then pc.rest else []
  }

  predicate Stopped(pc: Pc) {
    pc.TearingDown? || pc.Ended?
  }

  ghost predicate SawEof(pc: Pc) {
    ((pc.Publishing? || pc.Touching? || pc.Writing? || pc.Deciding?) && pc.end.AtEof?) || pc.HalfClosing?
  }

  ghost predicate BytesOk(h: Half) {
    && h.taken <= |h.sent|
    && h.delivered <= h.sent[..h.taken]
    && (!Stopped(h.pc) ==> h.delivered + InHand(h.pc) == h.sent[..h.taken])
    && (SawEof(h.pc) ==> h.finished && h.taken == |h.sent|)
    && (h.fin <==> h.pc == Ended(Clean))
    && (h.fin ==> h.finished && h.delivered == h.sent)
    && (h.pc.TearingDown? ==> !h.pc.why.Clean? && h.pc.closed <= 1)
  }

  /** The half gave up, for whatever reason but end of file. */
  predicate GaveUp(h: Half) {
    Stopped(h.pc) && !h.pc.why.Clean?
  }

  ghost predicate HasClosed(t: Tunnel, h: Half) {
    GaveUp(h) ==>
      && (h.pc.Ended? || h.pc.closed == 1 ==> !t.clientOpen)
      && (h.pc.Ended? ==> !t.peerOpen)
  }

  ghost predicate ClosedOk(t: Tunnel) {
    && (!t.clientOpen || !t.peerOpen ==> GaveUp(t.up) || GaveUp(t.down))
    && HasClosed(t, t.up) && HasClosed(t, t.down)
  }

  ghost predicate Inv(t: Tunnel) {
    && BytesOk(t.up) && BytesOk(t.down)
    && ClosedOk(t)
    && Clock.Inv(t.clock) && QuietOk(t.timeout, t.clock, 0, t.up) && QuietOk(t.timeout, t.clock, 1, t.down)
  }

  /** A half's last movement is in the register as soon as its touch is over, and what it then asks
      the clock takes it into account. */
  ghost predicate QuietOk(timeout: int, clock: Clock.State, id: nat, h: Half) {
    var own := Clock.PcOf(clock, id);
    && h.moved <= clock.time
    && (if Stopped(h.pc) then h.pc.why.Idle? ==> IdleOk(timeout, clock, h.moved, h.pc.why)
        else if 0 < timeout then Registered(clock, own, h)
        else !h.pc.Budgeting? && !h.pc.Doubting? && !h.pc.Touching? && !Late(h.pc))
  }

  /** A read ran into its deadline. */
  predicate Late(pc: Pc) {
    (pc.Publishing? || pc.Touching? || pc.Writing? || pc.Deciding?) && pc.end.Deadline?
  }

  ghost predicate Registered(clock: Clock.State, own: Clock.Pc, h: Half) {
    match h.pc
    case Publishing(_, _, _) => own.Away? || own.Reported?
    case Touching(_, _, _) =>
      if own.Away? then h.moved <= clock.last else (own.Touching? || own.Swapping?) && h.moved <= own.now
    case Budgeting => Answering(clock, own, h.moved)
    case Doubting => Answering(clock, own, h.moved)
    case _ => (own.Away? || own.Reported?) && h.moved <= clock.last
  }

  ghost predicate Answering(clock: Clock.State, own: Clock.Pc, moved: int) {
    match own
    case Asking => moved <= clock.last
    case Sampling(seen) => moved <= seen
    case Confirming(seen, _, _) => moved <= seen
    case Reported(quiet, elapsed, _, _) => moved <= elapsed - quiet
    case _ => false
  }

  /** A sound idle verdict. */
  ghost predicate IdleOk(timeout: int, clock: Clock.State, moved: int, why: Why)
    requires why.Idle?
  {
    && 0 < timeout && why.at <= clock.time && why.seen <= clock.published
    && Clock.Latest(why.seen) + timeout <= why.at && moved + timeout <= why.at
  }

  lemma {:induction false} ReadKeepsBytes(h: Half, v: View, n: nat, end: ReadEnd)
    requires h.pc.Reading? && BytesOk(h)
    ensures BytesOk(ReadStep(h, v, n, end))
  {
    if n <= |h.sent| - h.taken {
      assert h.delivered == h.sent[..h.taken];
      assert h.sent[..h.taken] + h.sent[h.taken..h.taken + n] == h.sent[..h.taken + n];
    }
  }

  lemma {:induction false} AcceptKeepsBytes(h: Half, v: View, n: nat, failed: bool)
    requires h.pc.Writing? && BytesOk(h)
    ensures BytesOk(AcceptStep(h, v, n, failed))
  {
    if n <= |h.pc.rest| {
      assert h.pc.rest == h.pc.rest[..n] + h.pc.rest[n..];
      assert (h.delivered + h.pc.rest[..n]) + h.pc.rest[n..] == h.delivered + h.pc.rest;
    }
  }

  lemma {:induction false} StepKeepsBytes(h: Half, v: View, a: HalfAction)
    requires BytesOk(h)
    ensures BytesOk(StepHalf(h, v, a))
  {
    hide ReadStep, AcceptStep;
    match a
    case Read(n, end) => if h.pc.Reading? { ReadKeepsBytes(h, v, n, end); }
    case Accept(n, failed) => if h.pc.Writing? { AcceptKeepsBytes(h, v, n, failed); }
    case Send(bytes) => assert (h.sent + bytes)[..h.taken] == h.sent[..h.taken];
    case CloseWrite(ok) => if h.pc.HalfClosing? { assert h.sent[..h.taken] == h.sent; }
    case _ =>
  }

  lemma {:induction false} NextKeepsInv(t: Tunnel, a: Action)
    requires Inv(t)
    ensures Inv(Next(t, a))
  {
    NextKeepsBytes(t, a);
    NextKeepsClosed(t, a);
    NextKeepsQuiet(t, a);
  }

  lemma {:induction false} NextKeepsBytes(t: Tunnel, a: Action)
    requires BytesOk(t.up) && BytesOk(t.down)
    ensures BytesOk(Next(t, a).up) && BytesOk(Next(t, a).down)
  {
    if a.On? { StepKeepsBytes(Of(t, a.d), ViewOf(t, a.d), a.step); }
  }

  lemma {:induction false} NextKeepsClosed(t: Tunnel, a: Action)
    requires ClosedOk(t) && BytesOk(t.up) && BytesOk(t.down)
    ensures ClosedOk(Next(t, a))
  {
    if a.On? {
      var h := Of(t, a.d);
      StepClosesInOrder(h, ViewOf(t, a.d), a.step);
      var h' := StepHalf(h, ViewOf(t, a.d), a.step);
      var t' := Next(t, a);
      assert t'.up == (if a.d.Up? then h' else t.up) && t'.down == (if a.d.Up? then t.down else h');
      assert HasClosed(t', h');
    }
  }

  /** How many of the two connections a half has closed after giving up. */
  function Closed(h: Half): int {
    if !GaveUp(h) then -1 else if h.pc.Ended? then 2 else h.pc.closed
  }

  lemma {:induction false} StepClosesInOrder(h: Half, v: View, a: HalfAction)
    requires BytesOk(h)
    ensures var h' := StepHalf(h, v, a);
            if a.CloseNext? && h.pc.TearingDown? then Closed(h') == Closed(h) + 1 && Closed(h) == h.pc.closed
            else Closed(h') == Closed(h) || (Closed(h) == -1 && Closed(h') == 0)
  {}

  // ---------------------------------------------------------- the clock inside the tunnel

  lemma {:induction false} NextKeepsQuiet(t: Tunnel, a: Action)
    requires Inv(t)
    ensures var t' := Next(t, a);
            && Clock.Inv(t'.clock) && QuietOk(t.timeout, t'.clock, 0, t'.up) && QuietOk(t.timeout, t'.clock, 1, t'.down)
  {
    match a
    case Tick(delay) =>
      Clock.NextKeepsInv(t.clock, Clock.Tick(delay));
      LaterKeepsQuiet(t.timeout, t.clock, Clock.Next(t.clock, Clock.Tick(delay)), 0, t.up);
      LaterKeepsQuiet(t.timeout, t.clock, Clock.Next(t.clock, Clock.Tick(delay)), 1, t.down);
    case On(d, step) =>
      ClockStepIsLater(t, d, step);
      OwnStepKeepsQuiet(t, d, step);
      var other := if d.Up? then Down else Up;
      LaterKeepsQuiet(t.timeout, t.clock, ClockStep(t, d, step), Id(other), Of(t, other));
  }

  lemma {:induction false} ClockStepIsLater(t: Tunnel, d: Dir, step: HalfAction)
    requires Clock.Inv(t.clock)
    ensures var clock := ClockStep(t, d, step);
            && Clock.Inv(clock) && t.clock.last <= clock.last && t.clock.time <= clock.time
            && t.clock.published <= clock.published && Clock.PcOf(clock, 1 - Id(d)) == Clock.PcOf(t.clock, 1 - Id(d))
  {
    Clock.NextKeepsInv(t.clock, ClockAction(t, d, step));
    Clock.OthersStay(t.clock, ClockAction(t, d, step), 1 - Id(d));
  }

  /** What others do to the clock harms nobody. */
  lemma {:induction false} LaterKeepsQuiet(timeout: int, clock: Clock.State, clock': Clock.State, id: nat, h: Half)
    requires QuietOk(timeout, clock, id, h) && Clock.PcOf(clock', id) == Clock.PcOf(clock, id)
    requires clock.last <= clock'.last && clock.time <= clock'.time && clock.published <= clock'.published
    ensures QuietOk(timeout, clock', id, h)
  {}

  lemma {:induction false} OwnStepKeepsQuiet(t: Tunnel, d: Dir, step: HalfAction)
    requires Clock.Inv(t.clock) && BytesOk(Of(t, d)) && QuietOk(t.timeout, t.clock, Id(d), Of(t, d))
    ensures QuietOk(t.timeout, ClockStep(t, d, step), Id(d), StepHalf(Of(t, d), ViewOf(t, d), step))
  {
    hide QuietOk, StepHalf;
    var h, v := Of(t, d), ViewOf(t, d);
    if step.Arm? || step.Touch? || step.Decide? {
      StartKeepsQuiet(t, d, step);
    } else if step.ClockGoes? {
      GoKeepsQuiet(t, d);
    } else {
      assert ClockStep(t, d, step) == t.clock;
      if step.ClockAnswers? {
        AnswerKeepsQuiet(t.timeout, t.clock, Id(d), h, v);
      } else {
        MoveKeepsQuiet(t.timeout, t.clock, Id(d), h, v, step);
      }
    }
  }

  /** The steps that do not concern the clock. */
  lemma {:induction false} MoveKeepsQuiet(timeout: int, clock: Clock.State, id: nat, h: Half, v: View, step: HalfAction)
    requires QuietOk(timeout, clock, id, h) && v.time == clock.time && v.timeout == timeout
    requires step.Send? || step.Finish? || step.Read? || step.Accept? || step.CloseWrite? || step.CloseNext?
    ensures QuietOk(timeout, clock, id, StepHalf(h, v, step))
  {}

  lemma {:induction false} AnswerKeepsQuiet(timeout: int, clock: Clock.State, id: nat, h: Half, v: View)
    requires Clock.Inv(clock) && QuietOk(timeout, clock, id, h)
    requires v.timeout == timeout && v.own == Clock.PcOf(clock, id)
    ensures QuietOk(timeout, clock, id, StepHalf(h, v, ClockAnswers))
  {
    assert Clock.PcOk(clock, v.own);
  }

  lemma {:induction false} StartKeepsQuiet(t: Tunnel, d: Dir, step: HalfAction)
    requires Clock.Inv(t.clock) && QuietOk(t.timeout, t.clock, Id(d), Of(t, d))
             && (step.Arm? || step.Touch? || step.Decide?)
    ensures QuietOk(t.timeout, ClockStep(t, d, step), Id(d), StepHalf(Of(t, d), ViewOf(t, d), step))
  {}

  /** A half's own operation on the clock goes one step further. */
  lemma {:induction false} GoKeepsQuiet(t: Tunnel, d: Dir)
    requires Clock.Inv(t.clock) && QuietOk(t.timeout, t.clock, Id(d), Of(t, d))
    ensures QuietOk(t.timeout, ClockStep(t, d, ClockGoes), Id(d), StepHalf(Of(t, d), ViewOf(t, d), ClockGoes))
  {
    Clock.NextKeepsInv(t.clock, Clock.Go(Id(d)));
    assert Clock.PcOk(t.clock, Clock.PcOf(t.clock, Id(d)));
  }

  lemma {:induction false} ExecKeepsInv(t: Tunnel, schedule: seq<Action>)
    requires Inv(t)
    ensures Inv(Exec(t, schedule))
  {
    if schedule != [] {
      ExecKeepsInv(t, schedule[..|schedule| - 1]);
      NextKeepsInv(Exec(t, schedule[..|schedule| - 1]), schedule[|schedule| - 1]);
    }
  }

  // --------------------------------------------------------------------- theorems

  /** At every moment of every run, what a side received is a prefix of what the other sent,
      and a half-close is sent only after the last byte was delivered. */
  lemma {:induction false} BytesArriveInOrder(timeout: int, up: seq<Byte>, down: seq<Byte>, schedule: seq<Action>,
                                              d: Dir)
    ensures var h := Of(Exec(Start(timeout, up, down), schedule), d);
            && h.delivered <= h.sent && h.taken <= |h.sent|
            && (h.fin ==> h.finished && h.delivered == h.sent)
            && (!Stopped(h.pc) ==> h.delivered + InHand(h.pc) + h.sent[h.taken..] == h.sent)
  {
    StartIsOk(timeout, up, down);
    ExecKeepsInv(Start(timeout, up, down), schedule);
    var h := Of(Exec(Start(timeout, up, down), schedule), d);
    assert h.sent[..h.taken] + h.sent[h.taken..] == h.sent;
  }

  /** A half gives up as idle only if, at an instant it sampled while asking, nothing that either
      direction had published by the time the answer was confirmed, and no byte it moved itself, was
      younger than the whole timeout; the other half may well publish between the answer and the
      teardown. */
  lemma {:induction false} IdleMeansWholeTunnelQuiet(timeout: int, up: seq<Byte>, down: seq<Byte>,
                                                     schedule: seq<Action>, d: Dir, progress: int)
    requires var h := Of(Exec(Start(timeout, up, down), schedule), d);
             Stopped(h.pc) && h.pc.why.Idle? && progress in h.pc.why.seen
    ensures var t := Exec(Start(timeout, up, down), schedule);
            var h := Of(t, d);
            && 0 < timeout && h.pc.why.at <= t.clock.time && h.pc.why.seen <= t.clock.published
            && progress + timeout <= h.pc.why.at && h.moved + timeout <= h.pc.why.at
  {
    var t := Exec(Start(timeout, up, down), schedule);
    StartIsOk(timeout, up, down);
    ExecKeepsInv(Start(timeout, up, down), schedule);
    TimeoutIsFixed(Start(timeout, up, down), schedule);
    Clock.LatestBounds(Of(t, d).pc.why.seen, progress);
  }

  /** And it does give up: at the clock's answer, exactly if that reports a whole timeout of quiet;
      otherwise it reads on until the rest of the timeout has passed. */
  lemma {:induction false} QuietAnswerEndsTheHalf(h: Half, v: View)
    requires (h.pc.Budgeting? || h.pc.Doubting?) && v.own.Reported?
    ensures var pc := StepHalf(h, v, ClockAnswers).pc;
            if v.timeout <= v.own.quiet then pc == TearingDown(Idle(v.own.elapsed, v.own.after), 0)
            else if h.pc.Doubting? then pc.Arming?
            else pc.Reading? && pc.deadline - v.time == v.timeout - v.own.quiet > 0
  {}

  lemma {:induction false} StartIsOk(timeout: int, up: seq<Byte>, down: seq<Byte>)
    ensures Inv(Start(timeout, up, down))
  {}

  lemma {:induction false} TimeoutIsFixed(t: Tunnel, schedule: seq<Action>)
    ensures Exec(t, schedule).timeout == t.timeout
  {
    if schedule != [] { TimeoutIsFixed(t, schedule[..|schedule| - 1]); }
  }

  /** Any half that gave up ends with both connections closed; while neither has, both stay open. */
  lemma {:induction false} FailureClosesBoth(timeout: int, up: seq<Byte>, down: seq<Byte>, schedule: seq<Action>)
    ensures var t := Exec(Start(timeout, up, down), schedule);
            && (forall d :: Of(t, d).pc.Ended? && GaveUp(Of(t, d)) ==> !t.clientOpen && !t.peerOpen)
            && (!GaveUp(t.up) && !GaveUp(t.down) ==> t.clientOpen && t.peerOpen)
  {
    StartIsOk(timeout, up, down);
    ExecKeepsInv(Start(timeout, up, down), schedule);
  }

  /** Something outside goes wrong: a read breaks, a write or a half-close fails. */
  predicate Fault(a: Action) {
    && a.On?
    && match a.step
       case Read(_, end) => end.Broken?
       case Accept(n, failed) => n == 0 || failed
       case CloseWrite(ok) => !ok
       case _ => false
  }

  /** The half has met no fault. */
  predicate Sound(h: Half) {
    match h.pc
    case Publishing(_, end, failed) => !end.Broken? && !failed
    case Touching(_, end, failed) => !end.Broken? && !failed
    case Writing(_, end) => !end.Broken?
    case Deciding(end) => !end.Broken?
    case TearingDown(why, _) => why.Idle?
    case Ended(why) => !why.Failure?
    case _ => true
  }

  lemma {:induction false} StepKeepsSound(h: Half, v: View, a: HalfAction, d: Dir)
    requires Sound(h) && !Fault(On(d, a))
    ensures Sound(StepHalf(h, v, a))
  {}

  lemma {:induction false} ExecKeepsSound(t: Tunnel, schedule: seq<Action>)
    requires Sound(t.up) && Sound(t.down)
    requires forall a :: a in schedule ==> !Fault(a)
    ensures Sound(Exec(t, schedule).up) && Sound(Exec(t, schedule).down)
  {
    if schedule != [] {
      var n := |schedule| - 1;
      ExecKeepsSound(t, schedule[..n]);
      var (t', a) := (Exec(t, schedule[..n]), schedule[n]);
      if a.On? { StepKeepsSound(Of(t', a.d), ViewOf(t', a.d), a.step, a.d); }
    }
  }

  /** End of file is no failure: as long as nothing outside goes wrong, whatever has ended and however
      the halves interleave, a half gives up only as idle; and unless one has, both connections are
      open. Without a timeout neither ever does. */
  lemma {:induction false} EofClosesNeither(timeout: int, up: seq<Byte>, down: seq<Byte>, schedule: seq<Action>)
    requires forall a :: a in schedule ==> !Fault(a)
    ensures var t := Exec(Start(timeout, up, down), schedule);
            && (forall d :: GaveUp(Of(t, d)) ==> Of(t, d).pc.why.Idle? && 0 < timeout)
            && (!GaveUp(t.up) && !GaveUp(t.down) ==> t.clientOpen && t.peerOpen)
  {
    var t := Exec(Start(timeout, up, down), schedule);
    StartIsOk(timeout, up, down);
    ExecKeepsInv(Start(timeout, up, down), schedule);
    ExecKeepsSound(Start(timeout, up, down), schedule);
    TimeoutIsFixed(Start(timeout, up, down), schedule);
  }

  /** The half has met a fault and cannot go on for long: it may still hand over what it holds. */
  predicate Doomed(h: Half) {
    match h.pc
    case Publishing(_, end, failed) => end.Broken? || failed
    case Touching(_, end, failed) => end.Broken? || failed
    case Writing(_, end) => end.Broken?
    case Deciding(end) => end.Broken?
    case TearingDown(why, _) => why.Failure?
    case Ended(why) => why.Failure?
    case _ => false
  }

  /** A fault that a half meets dooms it. */
  lemma {:induction false} FaultDooms(h: Half, v: View, a: HalfAction)
    requires || (a.Read? && a.end.Broken? && h.pc.Reading? && a.n <= |h.sent| - h.taken)
             || (a.Accept? && h.pc.Writing? && (a.n == 0 || (a.failed && a.n <= |h.pc.rest| && v.destinationOpen)))
             || (a.CloseWrite? && !a.ok && h.pc.HalfClosing?)
    ensures Doomed(StepHalf(h, v, a))
  {}

  /** How far a doomed half is from having closed both connections. */
  function Doom(h: Half): nat {
    match h.pc
    case Writing(rest, _) => 3 * |rest| + 5
    case Publishing(rest, _, _) => 3 * |rest| + 7
    case Touching(rest, _, _) => 3 * |rest| + 6
    case Deciding(_) => 3
    case TearingDown(_, closed) => if closed == 0 then 2 else 1
    case _ => 0
  }

  lemma {:induction false} DoomIsFinal(h: Half, v: View, a: HalfAction)
    requires Doomed(h) && BytesOk(h)
    ensures Doomed(StepHalf(h, v, a)) && (StepHalf(h, v, a).pc == h.pc || Doom(StepHalf(h, v, a)) < Doom(h))
  {
    StepKeepsBytes(h, v, a);
  }

  /** A fault is fatal: in every continuation the half never reads or half-closes again, and when it has
      ended both connections are closed. */
  lemma {:induction false} FaultIsFatal(timeout: int, up: seq<Byte>, down: seq<Byte>, before: seq<Action>,
                                        after: seq<Action>, d: Dir)
    requires Doomed(Of(Exec(Start(timeout, up, down), before), d))
    ensures var t := Exec(Exec(Start(timeout, up, down), before), after);
            Doomed(Of(t, d)) && !Of(t, d).fin && (Of(t, d).pc.Ended? ==> !t.clientOpen && !t.peerOpen)
  {
    StartIsOk(timeout, up, down);
    ExecKeepsInv(Start(timeout, up, down), before);
    StaysDoomed(Exec(Start(timeout, up, down), before), after, d);
  }

  lemma {:induction false} StaysDoomed(t: Tunnel, schedule: seq<Action>, d: Dir)
    requires Inv(t) && Doomed(Of(t, d))
    ensures Inv(Exec(t, schedule)) && Doomed(Of(Exec(t, schedule), d))
  {
    hide Inv, StepHalf;
    if schedule != [] {
      var n := |schedule| - 1;
      StaysDoomed(t, schedule[..n], d);
      var (t', a) := (Exec(t, schedule[..n]), schedule[n]);
      NextKeepsInv(t', a);
      BytesAreOk(t', d);
      if a.On? && a.d == d { DoomIsFinal(Of(t', d), ViewOf(t', d), a.step); }
    }
  }

  lemma {:induction false} BytesAreOk(t: Tunnel, d: Dir)
    requires Inv(t)
    ensures BytesOk(Of(t, d))
  {}

  /** What remains to a half that has read its end of file. */
  function Left(h: Half): nat {
    match h.pc
    case Writing(rest, _) => 3 * |rest| + 4
    case Publishing(rest, _, _) => 3 * |rest| + 6
    case Touching(rest, _, _) => 3 * |rest| + 5
    case Deciding(_) => 2
    case HalfClosing => 1
    case _ => 0
  }

  /** A half that has read its end of file can only go on to deliver the rest and send its half-close:
      each of its steps that succeeds brings it closer, and the last one is the half-close. */
  lemma {:induction false} EofLeadsToHalfClose(h: Half, v: View, a: HalfAction, d: Dir)
    requires BytesOk(h) && SawEof(h.pc) && Sound(h) && !Fault(On(d, a))
    ensures var h' := StepHalf(h, v, a);
            || (h'.pc == h.pc && h'.delivered == h.delivered)
            || (SawEof(h'.pc) && Left(h') < Left(h))
            || (h'.fin && h'.pc == Ended(Clean) && h'.delivered == h'.sent)
  {
    StepKeepsBytes(h, v, a);
  }

  /** What was delivered and every half-close are final. */
  lemma {:induction false} DeliveryIsFinal(t: Tunnel, schedule: seq<Action>, d: Dir)
    requires Inv(t)
    ensures Of(t, d).delivered <= Of(Exec(t, schedule), d).delivered
    ensures Of(t, d).sent <= Of(Exec(t, schedule), d).sent
    ensures Of(t, d).fin ==> Of(Exec(t, schedule), d) == Of(t, d)
  {
    if schedule != [] {
      var n := |schedule| - 1;
      DeliveryIsFinal(t, schedule[..n], d);
      ExecKeepsInv(t, schedule[..n]);
      NextIsFinal(Exec(t, schedule[..n]), schedule[n], d);
    }
  }

  lemma {:induction false} NextIsFinal(t: Tunnel, a: Action, d: Dir)
    requires Inv(t)
    ensures Of(t, d).delivered <= Of(Next(t, a), d).delivered && Of(t, d).sent <= Of(Next(t, a), d).sent
    ensures Of(t, d).fin ==> Of(Next(t, a), d) == Of(t, d)
  {
    if a.On? { StepIsFinal(Of(t, a.d), ViewOf(t, a.d), a.step); }
  }

  lemma {:induction false} StepIsFinal(h: Half, v: View, a: HalfAction)
    requires BytesOk(h)
    ensures h.delivered <= StepHalf(h, v, a).delivered && h.sent <= StepHalf(h, v, a).sent
    ensures h.fin ==> StepHalf(h, v, a) == h
  {}
}
