/** The tunnel's shared activity clock: a compare-and-swap maximum register read by a
    double-load sample. Times are nanoseconds since the clock's origin. */
module TunnelClock {

  function Max(a: int, b: int): int {
    if a < b then b else a
  }

  /** The latest of the published instants; the origin when there is none. */
  function Latest(published: seq<int>): int {
    if published == [] then 0
    else Max(Latest(published[..|published| - 1]), published[|published| - 1])
  }

  // ------------------------------------------------- the loops, under interference

  /** One goroutine's view of the clock. `others` is the progress that concurrent goroutines
      have still to publish; any part of it can land between two atomic operations. */
  class Clock {
    var last: int
    var time: int
    var others: seq<int>

    ghost predicate Valid()
      reads this
    {
      0 <= last <= time
    }

    constructor (others: seq<int>)
      ensures Valid() && last == 0 && this.others == others
    {
      last, time, this.others := 0, 0, others;
    }

    /** Time passes and other goroutines touch the clock: what happens between two of ours. */
    method Interfere()
      requires Valid()
      modifies this
      ensures Valid() && old(last) <= last && old(time) <= time
      ensures |others| <= |old(others)|
      ensures last != old(last) ==> |others| < |old(others)|
    {
      var delay :| 0 <= delay;
      time := time + delay;
      var n :| 0 <= n;
      while 0 < n && others != []
        invariant Valid() && old(last) <= last && old(time) <= time
        invariant |others| <= |old(others)|
        invariant last != old(last) ==> |others| < |old(others)|
      {
        if last < others[0] <= time {
          last := others[0];
        }
        others := others[1..];
        n := n - 1;
      }
    }

    /** A blocked call returns no earlier than the given instant. */
    method WaitUntil(instant: int)
      requires Valid()
      modifies this
      ensures Valid() && old(last) <= last && old(time) <= time && instant <= time
      ensures |others| <= |old(others)| && (last != old(last) ==> |others| < |old(others)|)
    {
      Interfere();
      time := Max(time, instant);
    }

    /** `touchAt`: every failed compare-and-swap met a strictly larger `last`. */
    method TouchAt(now: int)
      requires Valid() && now <= time
      modifies this
      ensures Valid() && now <= last && old(last) <= last && old(time) <= time
      ensures |others| <= |old(others)|
    {
      Interfere();
      var seen := last;
      while seen < now
        invariant Valid() && now <= time && old(last) <= seen <= last && old(time) <= time
        invariant |others| <= |old(others)|
        decreases now - seen
      {
        Interfere();
        if last == seen {
          last := now;
          return;
        }
        Interfere();
        seen := last;
      }
    }

    method Touch()
      requires Valid()
      modifies this
      ensures Valid() && old(time) <= last && old(last) <= last && old(time) <= time
      ensures |others| <= |old(others)|
    {
      TouchAt(time);
    }

    /** `quietFor`: the age, at an instant sampled during the call, of the latest progress
        published by the end of the call. A failed confirmation consumed someone's touch. */
    method QuietFor() returns (quiet: int, elapsed: int)
      requires Valid()
      modifies this
      ensures Valid() && old(last) <= last && old(time) <= elapsed <= time
      ensures quiet == elapsed - last && 0 <= quiet
      ensures |others| <= |old(others)| && (last != old(last) ==> |others| < |old(others)|)
    {
      while true
        invariant Valid() && old(last) <= last && old(time) <= time
        invariant |others| <= |old(others)| && (last != old(last) ==> |others| < |old(others)|)
        decreases |others|
      {
        Interfere();
        var seen := last;
        Interfere();
        elapsed := time;
        ghost var atSample := last;
        Interfere();
        if last == seen {
          assert atSample == seen;
          return elapsed - seen, elapsed;
        }
      }
    }

    method Idle(timeout: int) returns (idle: bool, elapsed: int)
      requires Valid()
      modifies this
      ensures Valid() && old(last) <= last && old(time) <= elapsed <= time
      ensures idle <==> timeout <= elapsed - last
      ensures |others| <= |old(others)| && (last != old(last) ==> |others| < |old(others)|)
    {
      var quiet;
      quiet, elapsed := QuietFor();
      idle := timeout <= quiet;
    }

    method Remaining(timeout: int) returns (left: int, elapsed: int)
      requires Valid()
      modifies this
      ensures Valid() && old(last) <= last && old(time) <= elapsed <= time
      ensures left == timeout - (elapsed - last) && left <= timeout
      ensures |others| <= |old(others)| && (last != old(last) ==> |others| < |old(others)|)
    {
      var quiet;
      quiet, elapsed := QuietFor();
      left := timeout - quiet;
    }
  }

  // --------------------------------------------------- every interleaving of goroutines

  /** Where one goroutine stands in `touchAt` or `quietForSince`. `before` and `after` record
      what had been published when the instant was sampled and when it was confirmed. */
  datatype Pc =
    | Away
    | Touching(now: int)
    | Swapping(now: int, seen: int)
    | Asking
    | Sampling(seen: int)
    | Confirming(seen: int, elapsed: int, before: seq<int>)
    | Reported(quiet: int, elapsed: int, before: seq<int>, after: seq<int>)

  datatype Action =
    | Tick(delay: nat)
    | StartTouch(t: nat)
    | StartQuiet(t: nat)
    | Go(t: nat)

  /** `published` lists every touch in the order in which it took effect. */
  datatype State = State(time: int, last: int, published: seq<int>, pcs: map<nat, Pc>)

  const INITIAL := State(0, 0, [], map[])

  function PcOf(s: State, t: nat): Pc {
    if t in s.pcs then s.pcs[t] else Away
  }

  function Move(s: State, t: nat, pc: Pc): State {
    s.(pcs := s.pcs[t := pc])
  }

  /** One atomic operation of goroutine t. */
  function Advance(s: State, t: nat): State {
    match PcOf(s, t)
    case Touching(now) =>
      if s.last < now then Move(s, t, Swapping(now, s.last))
      else Move(s.(published := s.published + [now]), t, Away)
    case Swapping(now, seen) =>
      if s.last == seen then Move(s.(last := now, published := s.published + [now]), t, Away)
      else Move(s, t, Touching(now))
    case Asking => Move(s, t, Sampling(s.last))
    case Sampling(seen) => Move(s, t, Confirming(seen, s.time, s.published))
    case Confirming(seen, elapsed, before) =>
      if s.last == seen then Move(s, t, Reported(elapsed - seen, elapsed, before, s.published))
      else Move(s, t, Asking)
    case _ => s
  }

  function Next(s: State, a: Action): State {
    match a
    case Tick(delay) => s.(time := s.time + delay)
    case StartTouch(t) =>
      if PcOf(s, t).Away? || PcOf(s, t).Reported? then Move(s, t, Touching(s.time)) else s
    case StartQuiet(t) =>
      if PcOf(s, t).Away? || PcOf(s, t).Reported? then Move(s, t, Asking) else s
    case Go(t) => Advance(s, t)
  }

  /** A schedule: any number of goroutines, interleaved in any order. */
  function Exec(s: State, schedule: seq<Action>): State {
    if schedule == [] then s else Next(Exec(s, schedule[..|schedule| - 1]), schedule[|schedule| - 1])
  }

  ghost predicate PcOk(s: State, pc: Pc) {
    match pc
    case Touching(now) => now <= s.time
    case Swapping(now, seen) => now <= s.time && seen < now && seen <= s.last
    case Sampling(seen) => seen <= s.last
    case Confirming(seen, elapsed, before) =>
      seen <= Latest(before) <= elapsed <= s.time && Latest(before) <= s.last && before <= s.published
    case Reported(quiet, elapsed, before, after) =>
      && Latest(before) == Latest(after) <= elapsed <= s.time && quiet == elapsed - Latest(before)
      && Latest(after) <= s.last && before <= after <= s.published
    case _ => true
  }

  ghost predicate Inv(s: State) {
    && 0 <= s.last <= s.time && s.last == Latest(s.published)
    && forall t :: t in s.pcs ==> PcOk(s, s.pcs[t])
  }

  lemma {:induction false} LatestAppend(published: seq<int>, x: int)
    ensures Latest(published + [x]) == Max(Latest(published), x)
  {
    assert (published + [x])[..|published|] == published;
  }

  lemma {:induction false} NextKeepsInv(s: State, a: Action)
    requires Inv(s)
    ensures Inv(Next(s, a))
    ensures s.last <= Next(s, a).last && s.time <= Next(s, a).time && s.published <= Next(s, a).published
  {
    match a
    case Go(t) => AdvanceKeepsInv(s, t);
    case _ =>
  }

  /** A goroutine's place changes by its own steps only. */
  lemma {:induction false} OthersStay(s: State, a: Action, u: nat)
    requires a.Tick? || a.t != u
    ensures PcOf(Next(s, a), u) == PcOf(s, u)
  {}

  /** Facts about a goroutine survive as long as time, `last` and the published list only grow. */
  lemma {:induction false} PcStaysOk(s: State, s': State, pc: Pc)
    requires PcOk(s, pc) && s.last <= s'.last && s.time <= s'.time && s.published <= s'.published
    ensures PcOk(s', pc)
  {}

  /** One goroutine moves on while the register grows from s to s1. */
  lemma {:induction false} MoveKeepsInv(s: State, s1: State, t: nat, pc: Pc)
    requires Inv(s) && s1.pcs == s.pcs && s.last <= s1.last <= s1.time && s.time == s1.time
             && s.published <= s1.published
    requires s1.last == Latest(s1.published) && PcOk(s1, pc)
    ensures Inv(Move(s1, t, pc))
  {
    var s' := Move(s1, t, pc);
    forall u | u in s'.pcs ensures PcOk(s', s'.pcs[u]) {
      if u == t { PcStaysOk(s1, s', pc); } else { PcStaysOk(s, s', s.pcs[u]); }
    }
  }

  lemma {:induction false} AdvanceKeepsInv(s: State, t: nat)
    requires Inv(s)
    ensures var s' := Advance(s, t);
            Inv(s') && s.last <= s'.last && s.time == s'.time && s.published <= s'.published
  {
    hide Latest;
    var pc := PcOf(s, t);
    assert PcOk(s, pc);
    match pc
    case Touching(now) =>
      LatestAppend(s.published, now);
      if s.last < now { MoveKeepsInv(s, s, t, Swapping(now, s.last)); }
      else { MoveKeepsInv(s, s.(published := s.published + [now]), t, Away); }
    case Swapping(now, seen) =>
      LatestAppend(s.published, now);
      if s.last == seen { MoveKeepsInv(s, s.(last := now, published := s.published + [now]), t, Away); }
      else { MoveKeepsInv(s, s, t, Touching(now)); }
    case Asking => MoveKeepsInv(s, s, t, Sampling(s.last));
    case Sampling(seen) => MoveKeepsInv(s, s, t, Confirming(seen, s.time, s.published));
    case Confirming(seen, elapsed, before) =>
      if s.last == seen { MoveKeepsInv(s, s, t, Reported(elapsed - seen, elapsed, before, s.published)); }
      else { MoveKeepsInv(s, s, t, Asking); }
    case _ =>
  }

  lemma {:induction false} ExecKeepsInv(s: State, schedule: seq<Action>)
    requires Inv(s)
    ensures Inv(Exec(s, schedule))
    ensures s.last <= Exec(s, schedule).last && s.time <= Exec(s, schedule).time
    ensures s.published <= Exec(s, schedule).published
  {
    if schedule != [] {
      ExecKeepsInv(s, schedule[..|schedule| - 1]);
      NextKeepsInv(Exec(s, schedule[..|schedule| - 1]), schedule[|schedule| - 1]);
    }
  }

  lemma {:induction false} ExecConcat(s: State, a: seq<Action>, b: seq<Action>)
    ensures Exec(s, a + b) == Exec(Exec(s, a), b)
  {
    if b == [] {
      assert a + b == a;
    } else {
      assert (a + b)[..|a + b| - 1] == a + b[..|b| - 1];
      ExecConcat(s, a, b[..|b| - 1]);
    }
  }

  lemma {:induction false} LatestBounds(published: seq<int>, x: int)
    requires x in published
    ensures x <= Latest(published)
  {
    var n := |published| - 1;
    if x != published[n] { LatestBounds(published[..n], x); }
  }

  /** `last` never decreases, over any part of any run. */
  lemma {:induction false} LastNeverDecreases(earlier: seq<Action>, more: seq<Action>)
    ensures Exec(INITIAL, earlier).last <= Exec(INITIAL, earlier + more).last
  {
    ExecKeepsInv(INITIAL, earlier);
    ExecKeepsInv(Exec(INITIAL, earlier), more);
    ExecConcat(INITIAL, earlier, more);
  }

  /** What `quietForSince` returns: the sampled instant minus the latest progress published by
      that instant, and no later progress was published before the answer was confirmed. */
  lemma {:induction false} QuietIsExact(schedule: seq<Action>, t: nat)
    ensures var s := Exec(INITIAL, schedule);
            PcOf(s, t).Reported? ==>
              var r := PcOf(s, t);
              && r.quiet == r.elapsed - Latest(r.before) && 0 <= r.quiet && r.elapsed <= s.time
              && Latest(r.after) == Latest(r.before) && r.before <= r.after <= s.published
  {
    ExecKeepsInv(INITIAL, schedule);
  }

  /** An idle verdict is sound: every touch that took effect before it is at least a full
      timeout older than the sampled instant. */
  lemma {:induction false} IdleVerdictIsSound(schedule: seq<Action>, t: nat, timeout: int, progress: int)
    requires PcOf(Exec(INITIAL, schedule), t).Reported?
    requires timeout <= PcOf(Exec(INITIAL, schedule), t).quiet
    requires progress in PcOf(Exec(INITIAL, schedule), t).after
    ensures progress + timeout <= PcOf(Exec(INITIAL, schedule), t).elapsed
  {
    QuietIsExact(schedule, t);
    LatestBounds(PcOf(Exec(INITIAL, schedule), t).after, progress);
  }

  /** A touch that has returned is in the register, and one that lost its swap lost it to a
      larger value, so max(0, now - seen) shrinks with every retry. */
  lemma {:induction false} TouchTakesEffectOrRetriesCloser(schedule: seq<Action>, t: nat)
    requires var pc := PcOf(Exec(INITIAL, schedule), t); pc.Touching? || pc.Swapping?
    ensures var s := Exec(INITIAL, schedule);
            var s' := Next(s, Go(t));
            var now := PcOf(s, t).now;
            && (PcOf(s', t).Away? ==> now <= s'.last && now in s'.published)
            && (PcOf(s, t).Swapping? && !PcOf(s', t).Away? ==>
                 PcOf(s', t) == Touching(now) && PcOf(s, t).seen < s'.last)
  {
    ExecKeepsInv(INITIAL, schedule);
    var s := Exec(INITIAL, schedule);
    assert t in s.pcs;
  }

  /** A measurement is confirmed, or starts again because a larger value came in between. */
  lemma {:induction false} MeasurementIsConfirmedOrRepeated(schedule: seq<Action>, t: nat)
    requires PcOf(Exec(INITIAL, schedule), t).Confirming?
    ensures var s := Exec(INITIAL, schedule);
            var (pc, pc') := (PcOf(s, t), PcOf(Next(s, Go(t)), t));
            if s.last == pc.seen then pc'.Reported? && pc'.elapsed == pc.elapsed else pc'.Asking? && pc.seen < s.last
  {
    ExecKeepsInv(INITIAL, schedule);
  }
}
