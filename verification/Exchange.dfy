/** `exchangeRequest`: an upload that may still be running when its response is read. */
module Exchange {
  import opened Strings

  /** The upload goroutine, from `writeRequest` to its send on the `written` channel. */
  datatype Writer =
    | NotStarted
    | Uploading
    | Waking
    | Sending(ok: bool)
    | Finished(ok: bool)

  /** The calling goroutine. The first two belong to the path without an Expect upload. */
  datatype Main =
    | SyncWrite
    | SyncRead
    | Reading
    | Choosing
    | CancelRead
    | CancelWrite
    | Joining
    | Restoring
    | Clearing
    | Marking
    | Returned

  /** How `readThroughInterim` ended. */
  datatype ReadResult = Final(close: bool) | ClientGone | UpstreamFailed

  /** How the read ended, and what the call has to report: the Close mark the response is returned
      with, and the three errors. */
  datatype Results = Results(got: Option<ReadResult>, resp: Option<bool>, requestErr: bool, clientErr: bool,
                             readErr: bool)

  /** On which side a deadline in the past is set. */
  datatype Expired = Expired(clientRead: bool, upstreamWrite: bool, upstreamRead: bool)

  /** `complete` says that the whole request was written without error, `overtaken` that a response
      or failure was in hand before the upload had reported. */
  datatype State = State(writer: Writer, channel: Option<bool>, main: Main, out: Results, late: Expired,
                         complete: bool, overtaken: bool)

  datatype Action = UploadEnds(ok: bool) | WriterGoes | ReadEnds(r: ReadResult) | MainGoes

  function Start(expectsContinue: bool): State {
    State(if expectsContinue then Uploading else NotStarted, None, if expectsContinue then Reading else SyncWrite,
          Results(None, None, false, false, false), Expired(false, false, false), false, false)
  }

  function Store(out: Results, r: ReadResult): Results {
    match r
    case Final(close) => out.(got := Some(r), resp := Some(close))
    case ClientGone => out.(got := Some(r), clientErr := true)
    case UpstreamFailed => out.(got := Some(r), readErr := true)
  }

  function Next(s: State, a: Action): State {
    match a
    case UploadEnds(ok) =>
      if s.writer.Uploading? then s.(writer := if ok then Sending(true) else Waking, complete := ok)
      else if s.main.SyncWrite? then
        if ok then s.(main := SyncRead, complete := true)
        else s.(main := Returned, out := s.out.(requestErr := true))
      else s
    case WriterGoes =>
      if s.writer.Waking? then s.(writer := Sending(false), late := s.late.(upstreamRead := true))
      else if s.writer.Sending? then s.(writer := Finished(s.writer.ok), channel := Some(s.writer.ok))
      else s
    case ReadEnds(r) =>
      if s.main.Reading? then s.(out := Store(s.out, r), main := Choosing)
      else if s.main.SyncRead? then s.(out := Store(s.out, r), main := Returned)
      else s
    case MainGoes => MainStep(s)
  }

  function MainStep(s: State): State {
    match s.main
    case Choosing =>
      if s.channel.Some? then s.(out := s.out.(requestErr := !s.channel.value), channel := None, main := Clearing)
      else s.(main := CancelRead, overtaken := true)
    case CancelRead => s.(late := s.late.(clientRead := true), main := CancelWrite)
    case CancelWrite => s.(late := s.late.(upstreamWrite := true), main := Joining)
    case Joining =>
      if s.channel.None? then s
      else if s.channel.value then s.(channel := None, main := Restoring)
      else s.(out := s.out.(requestErr := s.out.resp.Some?), channel := None, main := Clearing)
    case Restoring =>
      s.(late := s.late.(clientRead := false, upstreamWrite := false), out := Closed(s.out), main := Clearing)
    case Clearing => s.(late := s.late.(upstreamRead := false), main := Marking)
    case Marking =>
      s.(out := if s.out.resp.Some? && s.out.requestErr then Closed(s.out).(requestErr := false) else s.out,
         main := Returned)
    case _ => s
  }

  /** A response, if there is one, is marked Close. */
  function Closed(out: Results): Results {
    if out.resp.Some? then out.(resp := Some(true)) else out
  }

  function Exec(s: State, schedule: seq<Action>): State {
    if schedule == [] then s else Next(Exec(s, schedule[..|schedule| - 1]), schedule[|schedule| - 1])
  }

  // ------------------------------------------------------------------- invariant

  predicate Joined(m: Main) {
    m.Restoring? || m.Clearing? || m.Marking? || m.Returned?
  }

  predicate HasRead(m: Main) {
    m.Choosing? || m.CancelRead? || m.CancelWrite? || m.Joining? || Joined(m)
  }

  /** What the read gave is what will be reported; a mark may have been added. */
  predicate OneResult(s: State) {
    && s.out.got.Some?
    && (s.out.resp.Some? <==> s.out.got.value.Final?)
    && (s.out.clientErr <==> s.out.got.value.ClientGone?)
    && (s.out.readErr <==> s.out.got.value.UpstreamFailed?)
    && (s.out.resp.Some? && s.out.got.value.close ==> s.out.resp.value)
    && (s.out.resp.Some? && s.out.got.value.close != s.out.resp.value ==>
         Joined(s.main) && (s.overtaken || !s.complete))
  }

  predicate NoResult(s: State) {
    s.out.got.None? && s.out.resp.None? && !s.out.clientErr && !s.out.readErr
  }

  ghost predicate SyncInv(s: State) {
    && s.writer.NotStarted? && (s.main.SyncWrite? || s.main.SyncRead? || s.main.Returned?)
    && !s.late.clientRead && !s.late.upstreamWrite && !s.late.upstreamRead
    && (s.main.SyncRead? ==> s.complete)
    && (if s.main.Returned? && !s.out.requestErr then OneResult(s) && s.complete else NoResult(s))
    && (s.main.SyncWrite? || s.out.requestErr ==> !s.complete)
    && (s.out.requestErr ==> s.main.Returned?) && !s.overtaken
  }

  ghost predicate RaceInv(s: State) {
    && (s.main.Reading? || HasRead(s.main)) && !s.writer.NotStarted?
    && (if s.main.Reading? then NoResult(s) else OneResult(s))
    // the channel carries the writer's verdict, once
    && (s.channel.Some? ==> s.writer == Finished(s.channel.value) && !Joined(s.main))
    && (s.writer.Finished? ==> s.channel.Some? || Joined(s.main))
    && (Joined(s.main) ==> s.writer.Finished?)
    && (s.writer.Sending? || s.writer.Finished? ==> s.writer.ok == s.complete)
    && (s.writer.Uploading? || s.writer.Waking? ==> !s.complete)
    // deadlines
    && (s.late.upstreamRead ==> (s.writer.Sending? || s.writer.Finished?) && !s.writer.ok)
    && ((s.writer.Sending? || s.writer.Finished?) && !s.writer.ok && !(s.main.Marking? || s.main.Returned?) ==>
         s.late.upstreamRead)
    && (s.main.Marking? || s.main.Returned? ==> !s.late.upstreamRead)
    && (s.main.Joining? || s.main.Restoring? ==> s.late.clientRead && s.late.upstreamWrite)
    && (s.main.CancelWrite? ==> s.late.clientRead)
    && (s.late.clientRead || s.late.upstreamWrite ==>
          s.main.CancelWrite? || s.main.Joining? || s.main.Restoring? || (Joined(s.main) && !s.complete))
    && (s.overtaken && !s.complete && Joined(s.main) ==> s.late.clientRead)
    && (s.late.clientRead || s.late.upstreamWrite ==> s.overtaken)
    // errors
    && (!Joined(s.main) ==> !s.out.requestErr)
    && (s.main.Restoring? ==> s.complete && !s.out.requestErr && s.overtaken)
    && (s.main.Reading? || s.main.Choosing? ==> !s.overtaken)
    && (s.main.CancelRead? || s.main.CancelWrite? || s.main.Joining? ==> s.overtaken)
    && (s.overtaken && s.complete && (s.main.Clearing? || s.main.Marking? || s.main.Returned?) ==>
         s.out.resp != Some(false))
    && (s.main.Clearing? || s.main.Marking? ==>
         (s.out.requestErr ==> !s.complete) && (s.out.resp.Some? && !s.complete ==> s.out.requestErr))
    && (s.overtaken && s.out.requestErr ==> s.out.resp.Some?)
    && (s.out.requestErr ==> !s.complete)
    && (Joined(s.main) && !s.complete && !s.overtaken && s.out.resp.None? ==> s.out.requestErr)
    && (s.main.Returned? && s.out.requestErr ==> s.out.resp.None?)
    && (s.main.Returned? && s.out.resp.Some? && !s.complete ==> s.out.resp.value)
  }

  ghost predicate Inv(s: State) {
    if s.writer.NotStarted? then SyncInv(s) else RaceInv(s)
  }

  lemma {:induction false} MainStepKeepsInv(s: State)
    requires RaceInv(s)
    ensures RaceInv(MainStep(s))
  {
    match s.main
    case Choosing =>
    case Joining =>
    case Restoring =>
    case Clearing =>
    case Marking =>
    case _ =>
  }

  lemma {:induction false} NextKeepsInv(s: State, a: Action)
    requires Inv(s)
    ensures Inv(Next(s, a))
  {
    if a.MainGoes? && !s.writer.NotStarted? { MainStepKeepsInv(s); }
  }

  lemma {:induction false} ExecKeepsInv(expectsContinue: bool, schedule: seq<Action>)
    ensures Inv(Exec(Start(expectsContinue), schedule))
  {
    if schedule != [] {
      ExecKeepsInv(expectsContinue, schedule[..|schedule| - 1]);
      NextKeepsInv(Exec(Start(expectsContinue), schedule[..|schedule| - 1]), schedule[|schedule| - 1]);
    }
  }

  // --------------------------------------------------------------------- theorems

  /** A call that has returned. */
  datatype End = End(out: Results, complete: bool, overtaken: bool, deadlineLeft: bool)

  function EndOf(s: State): End {
    End(s.out, s.complete, s.overtaken, s.late.clientRead || s.late.upstreamWrite || s.late.upstreamRead)
  }

  /** What the callers of `exchangeRequest` rely on: exactly when there is a response, when it is
      marked Close, which error is reported, and when a deadline is left behind. */
  predicate Outcome(expectsContinue: bool, e: End) {
    var (out, final) := (e.out, e.out.got.Some? && e.out.got.value.Final?);
    && (out.resp.Some? <==> final)
    && (out.resp.Some? <==> !out.requestErr && !out.clientErr && !out.readErr)
    && (final ==> (out.resp.value <==> out.got.value.close || e.overtaken || !e.complete))
    && (out.clientErr <==> out.got == Some(ClientGone)) && (out.readErr <==> out.got == Some(UpstreamFailed))
    && (out.requestErr <==> !final && !e.complete && !e.overtaken)
    && (e.deadlineLeft <==> e.overtaken && !e.complete)
    && (!expectsContinue ==> !e.overtaken && (out.got.Some? <==> e.complete))
  }

  /** When `exchangeRequest` returns, whatever the interleaving, the upload goroutine has been joined
      and the outcome is as above: a response carries the Close mark exactly if it was read with it,
      beat its upload, or its upload failed. The read deadline is clear either way. */
  lemma {:induction false} ReturnsCleanly(expectsContinue: bool, schedule: seq<Action>)
    ensures var s := Exec(Start(expectsContinue), schedule);
            s.main.Returned? ==>
              && (s.writer.NotStarted? || s.writer.Finished?)
              && Outcome(expectsContinue, EndOf(s)) && !s.late.upstreamRead
  {
    ExecKeepsInv(expectsContinue, schedule);
    WriterStarts(expectsContinue, schedule);
  }

  lemma {:induction false} WriterStarts(expectsContinue: bool, schedule: seq<Action>)
    ensures Exec(Start(expectsContinue), schedule).writer.NotStarted? <==> !expectsContinue
  {
    if schedule != [] {
      var s := Exec(Start(expectsContinue), schedule[..|schedule| - 1]);
      WriterStarts(expectsContinue, schedule[..|schedule| - 1]);
      ExecKeepsInv(expectsContinue, schedule[..|schedule| - 1]);
      WriterStays(s, schedule[|schedule| - 1]);
    }
  }

  lemma {:induction false} WriterStays(s: State, a: Action)
    ensures Next(s, a).writer.NotStarted? <==> s.writer.NotStarted?
  {}

  /** The read deadline is cleared only once the upload goroutine can no longer set it, and it
      stays clear. */
  lemma {:induction false} ReadDeadlineStaysClear(expectsContinue: bool, schedule: seq<Action>, more: seq<Action>)
    requires var m := Exec(Start(expectsContinue), schedule).main; m.Marking? || m.Returned?
    ensures !Exec(Exec(Start(expectsContinue), schedule), more).late.upstreamRead
    ensures !Exec(Exec(Start(expectsContinue), schedule), more).writer.Waking?
  {
    ExecKeepsInv(expectsContinue, schedule);
    StaysClear(Exec(Start(expectsContinue), schedule), more);
  }

  lemma {:induction false} StaysClear(s: State, more: seq<Action>)
    requires Inv(s) && (s.main.Marking? || s.main.Returned?)
    ensures var s' := Exec(s, more);
            Inv(s') && (s'.main.Marking? || s'.main.Returned?) && !s'.late.upstreamRead && !s'.writer.Waking?
  {
    hide Next, Inv;
    if more != [] {
      StaysClear(s, more[..|more| - 1]);
      NextKeepsInv(Exec(s, more[..|more| - 1]), more[|more| - 1]);
      StaysMarked(Exec(s, more[..|more| - 1]), more[|more| - 1]);
    }
    ClearOnceMarked(Exec(s, more));
  }

  lemma {:induction false} StaysMarked(s: State, a: Action)
    requires s.main.Marking? || s.main.Returned?
    ensures Next(s, a).main.Marking? || Next(s, a).main.Returned?
  {}

  lemma {:induction false} ClearOnceMarked(s: State)
    requires Inv(s) && (s.main.Marking? || s.main.Returned?)
    ensures !s.late.upstreamRead && !s.writer.Waking?
  {}

  /** Neither goroutine can wait for the other for ever: a read that outlives a failed upload
      has an expired deadline, an upload that outlives the response has both of its waits
      expired, and until it returns the call always has a step to take. */
  lemma {:induction false} NobodyWaitsForEver(expectsContinue: bool, schedule: seq<Action>)
    ensures var s := Exec(Start(expectsContinue), schedule);
            && (s.main.Reading? && (s.writer.Sending? || s.writer.Finished?) && !s.writer.ok ==> s.late.upstreamRead)
            && (s.main.Joining? && s.writer.Uploading? ==> s.late.clientRead && s.late.upstreamWrite)
            && (!s.main.Returned? ==> exists a :: Enabled(s, a))
  {
    ExecKeepsInv(expectsContinue, schedule);
    var s := Exec(Start(expectsContinue), schedule);
    if !s.main.Returned? {
      var a := if s.main.SyncWrite? then UploadEnds(true)
               else if s.main.Reading? || s.main.SyncRead? then ReadEnds(UpstreamFailed)
               else if !s.main.Joining? || s.channel.Some? then MainGoes
               else if s.writer.Uploading? then UploadEnds(true)
               else WriterGoes;
      assert Enabled(s, a);
    }
  }

  /** How far the two goroutines are from their ends. */
  function Rank(s: State): nat {
    WriterRank(s.writer) + MainRank(s.main)
  }

  function WriterRank(w: Writer): nat {
    match w
    case Uploading => 3
    case Waking => 2
    case Sending(_) => 1
    case _ => 0
  }

  function MainRank(m: Main): nat {
    match m
    case SyncWrite => 9
    case SyncRead => 8
    case Reading => 8
    case Choosing => 7
    case CancelRead => 6
    case CancelWrite => 5
    case Joining => 4
    case Restoring => 3
    case Clearing => 2
    case Marking => 1
    case Returned => 0
  }

  /** The steps of a schedule that did something; the others changed nothing. */
  function Moves(s: State, schedule: seq<Action>): nat {
    if schedule == [] then 0
    else
      var before := schedule[..|schedule| - 1];
      Moves(s, before) + if Enabled(Exec(s, before), schedule[|schedule| - 1]) then 1 else 0
  }

  predicate MainCanGo(s: State) {
    || s.main.Choosing? || s.main.CancelRead? || s.main.CancelWrite? || (s.main.Joining? && s.channel.Some?)
    || s.main.Restoring? || s.main.Clearing? || s.main.Marking?
  }

  predicate Enabled(s: State, a: Action) {
    match a
    case UploadEnds(_) => s.writer.Uploading? || s.main.SyncWrite?
    case WriterGoes => s.writer.Waking? || s.writer.Sending?
    case ReadEnds(_) => s.main.Reading? || s.main.SyncRead?
    case MainGoes => MainCanGo(s)
  }

  lemma {:induction false} NextLowersRank(s: State, a: Action)
    ensures if Enabled(s, a) then Rank(Next(s, a)) < Rank(s) else Next(s, a) == s
  {}

  /** Whoever is scheduled, the call has returned after at most eleven steps that do anything; and
      while it has not, `NobodyWaitsForEver` finds one. */
  lemma {:induction false} ReturnsAfterElevenMoves(expectsContinue: bool, schedule: seq<Action>)
    ensures Moves(Start(expectsContinue), schedule) + Rank(Exec(Start(expectsContinue), schedule)) <= 11
    ensures Moves(Start(expectsContinue), schedule) == 11 ==> Exec(Start(expectsContinue), schedule).main.Returned?
  {
    if schedule != [] {
      var before := schedule[..|schedule| - 1];
      ReturnsAfterElevenMoves(expectsContinue, before);
      NextLowersRank(Exec(Start(expectsContinue), before), schedule[|schedule| - 1]);
    }
  }

  /** A response that beat its upload never lets the connection be used again, even if the
      upload then completed: the upstream may have answered without reading it all. A failure
      that beat the upload is reported as itself, not as the cancellation it caused. */
  lemma {:induction false} OvertakenUploadClosesTheConnection(expectsContinue: bool, schedule: seq<Action>)
    ensures var s := Exec(Start(expectsContinue), schedule);
            && (s.main.Returned? && s.out.resp.Some? && (s.overtaken || !s.complete) ==> s.out.resp.value)
            && (s.main.Returned? && s.overtaken ==> !s.out.requestErr)
  {
    ExecKeepsInv(expectsContinue, schedule);
  }
}
