/** Reading a response stream past its 1xx interim responses. */
module Interim {
  import opened Strings

  /** One parsed response. `clean` says that no header name or value holds a forbidden octet;
      `content` stands for everything else it carries. */
  datatype Response = Response(status: int, close: bool, clean: bool, content: string)

  /** What reading one response from a connection yields. */
  datatype ReadOne = Got(resp: Response) | Failed

  datatype ReadResult = Final(resp: Response) | ClientGone | Malformed | ReadFailed

  /** The result, the unread rest of the stream, and the interim responses the client was sent. */
  datatype Drained = Drained(result: ReadResult, rest: seq<ReadOne>, relayed: seq<Response>)

  predicate IsInterim(r: Response) {
    100 <= r.status < 200 && r.status != 101
  }

  /** `readThroughInterim` on a stream whose end reads as a failure. The client takes `takes`
      more interim responses before its connection breaks. */
  function Drain(stream: seq<ReadOne>, http11: bool, takes: nat): Drained {
    if stream == [] then Drained(ReadFailed, [], [])
    else if stream[0].Failed? then Drained(ReadFailed, stream[1..], [])
    else
      var r := stream[0].resp;
      if !IsInterim(r) then Drained(Final(r), stream[1..], [])
      else if !r.clean then Drained(Malformed, stream[1..], [])
      else if !http11 then Drain(stream[1..], http11, takes)
      else if takes == 0 then Drained(ClientGone, stream[1..], [])
      else
        var d := Drain(stream[1..], http11, takes - 1);
        d.(relayed := [r] + d.relayed)
  }

  method ReadThroughInterim(stream: seq<ReadOne>, http11: bool, takes: nat) returns (d: Drained)
    ensures d == Drain(stream, http11, takes)
  {
    var rest, left, relayed := stream, takes, [];
    while rest != []
      invariant 0 <= left <= takes
      invariant Drain(stream, http11, takes)
             == (var e := Drain(rest, http11, left); e.(relayed := relayed + e.relayed))
      decreases |rest|
    {
      var one := rest[0];
      rest := rest[1..];
      if one.Failed? {
        assert relayed + [] == relayed;
        return Drained(ReadFailed, rest, relayed);
      }
      if !IsInterim(one.resp) {
        assert relayed + [] == relayed;
        return Drained(Final(one.resp), rest, relayed);
      }
      if !one.resp.clean {
        assert relayed + [] == relayed;
        return Drained(Malformed, rest, relayed);
      }
      if http11 {
        if left == 0 {
          assert relayed + [] == relayed;
          return Drained(ClientGone, rest, relayed);
        }
        ghost var tail := Drain(rest, http11, left - 1).relayed;
        assert relayed + ([one.resp] + tail) == (relayed + [one.resp]) + tail;
        left := left - 1;
        relayed := relayed + [one.resp];
      }
    }
    assert relayed + [] == relayed;
    d := Drained(ReadFailed, [], relayed);
  }

  /** What the head of the stream leads to: a response by its status alone. */
  lemma {:induction false} DrainHead(head: ReadOne, rest: seq<ReadOne>, http11: bool, takes: nat)
    ensures var d := Drain([head] + rest, http11, takes);
            match head
            case Failed => d == Drained(ReadFailed, rest, [])
            case Got(x) =>
              if x.status != 100 && !(102 <= x.status <= 199) then d == Drained(Final(x), rest, [])
              else if !x.clean then d == Drained(Malformed, rest, [])
              else if !http11 then d == Drain(rest, http11, takes)
              else if takes == 0 then d == Drained(ClientGone, rest, [])
              else var e := Drain(rest, http11, takes - 1); d == e.(relayed := [x] + e.relayed)
    ensures Drain([], http11, takes) == Drained(ReadFailed, [], [])
  {
    assert ([head] + rest)[1..] == rest;
  }

  // ------------------------------------------------------- a well-behaved upstream

  /** What an upstream sends for one request: interim responses, then one final response. */
  datatype UpstreamReply = UpstreamReply(interims: seq<Response>, final: Response)

  /** Every 1xx but 101 announces that the final response is still to come (section 15.2 of RFC 9110). */
  predicate Announces(status: int) {
    status == 100 || 102 <= status <= 199
  }

  predicate Proper(r: UpstreamReply) {
    !Announces(r.final.status) && forall x :: x in r.interims ==> Announces(x.status) && x.clean
  }

  function Wire(r: UpstreamReply): seq<ReadOne> {
    seq(|r.interims|, i requires 0 <= i < |r.interims| => Got(r.interims[i])) + [Got(r.final)]
  }

  function WireAll(replies: seq<UpstreamReply>): seq<ReadOne> {
    if replies == [] then [] else Wire(replies[0]) + WireAll(replies[1..])
  }

  /** The reader stops exactly after the final response; an HTTP/1.1 client has then seen exactly
      that request's interim responses, in order, and an HTTP/1.0 client none. It stops earlier
      only if the client leaves, which by then has seen the first of them. */
  lemma {:induction false} DrainOneReply(r: UpstreamReply, rest: seq<ReadOne>, http11: bool, takes: nat)
    requires Proper(r)
    ensures var d := Drain(Wire(r) + rest, http11, takes);
            if http11 && takes < |r.interims| then d.result == ClientGone && d.relayed == r.interims[..takes]
            else d == Drained(Final(r.final), rest, if http11 then r.interims else [])
    decreases |r.interims|
  {
    var s := Wire(r) + rest;
    if r.interims == [] {
      assert s[0] == Got(r.final) && s[1..] == rest;
    } else {
      var r' := UpstreamReply(r.interims[1..], r.final);
      assert s[0] == Got(r.interims[0]);
      assert s[1..] == Wire(r') + rest;
      if !http11 {
        DrainOneReply(r', rest, http11, takes);
      } else if 0 < takes {
        DrainOneReply(r', rest, http11, takes - 1);
        assert [r.interims[0]] + r.interims[1..] == r.interims;
        if takes < |r.interims| {
          assert [r.interims[0]] + r.interims[1..][..takes - 1] == r.interims[..takes];
        }
      }
    }
  }

  /** The reads that k requests on one connection make, each picking up where the last ended. */
  function DrainMany(stream: seq<ReadOne>, http11: seq<bool>, takes: seq<nat>): (r: (seq<Drained>, seq<ReadOne>))
    requires |http11| == |takes|
    ensures |r.0| == |http11|
  {
    if http11 == [] then ([], stream)
    else
      var n := |http11| - 1;
      var (ds, rest) := DrainMany(stream, http11[..n], takes[..n]);
      var d := Drain(rest, http11[n], takes[n]);
      (ds + [d], d.rest)
  }

  /** The first k reads of a connection. */
  lemma {:induction false} DrainManyPrefix(stream: seq<ReadOne>, http11: seq<bool>, takes: seq<nat>, k: nat)
    requires |http11| == |takes| && k <= |http11|
    ensures DrainMany(stream, http11[..k], takes[..k]).0 == DrainMany(stream, http11, takes).0[..k]
    decreases |http11|
  {
    if k == |http11| {
      assert http11[..k] == http11 && takes[..k] == takes;
    } else {
      var n := |http11| - 1;
      DrainManyPrefix(stream, http11[..n], takes[..n], k);
      assert http11[..n][..k] == http11[..k] && takes[..n][..k] == takes[..k];
    }
  }

  /** While every read has ended with a final response, as many replies as reads are used up: the
      connection stands exactly at the start of the next. */
  lemma {:induction false} RestIsRemainingReplies(replies: seq<UpstreamReply>, http11: seq<bool>, takes: seq<nat>)
    requires |http11| == |takes|
    requires forall i :: 0 <= i < |replies| ==> Proper(replies[i])
    requires forall d :: d in DrainMany(WireAll(replies), http11, takes).0 ==> d.result.Final?
    ensures |http11| <= |replies| && DrainMany(WireAll(replies), http11, takes).1 == WireAll(replies[|http11|..])
    decreases |http11|
  {
    if http11 == [] {
      assert replies[0..] == replies;
    } else {
      var n := |http11| - 1;
      var all := DrainMany(WireAll(replies), http11, takes).0;
      assert all == DrainMany(WireAll(replies), http11[..n], takes[..n]).0 + [all[n]];
      RestIsRemainingReplies(replies, http11[..n], takes[..n]);
      NextReadIsNextReply(replies, n, http11[n], takes[n]);
    }
  }

  lemma {:induction false} NextReadIsNextReply(replies: seq<UpstreamReply>, n: nat, http11: bool, takes: nat)
    requires n <= |replies| && forall i :: 0 <= i < |replies| ==> Proper(replies[i])
    requires Drain(WireAll(replies[n..]), http11, takes).result.Final?
    ensures n < |replies|
    ensures Drain(WireAll(replies[n..]), http11, takes)
         == Drained(Final(replies[n].final), WireAll(replies[n + 1..]), if http11 then replies[n].interims else [])
  {
    if n < |replies| {
      assert replies[n..][1..] == replies[n + 1..];
      DrainOneReply(replies[n], WireAll(replies[n + 1..]), http11, takes);
    }
  }

  /** On a reused connection the k-th request is answered by the k-th final response, however
      many interim responses surround the others, and whatever happens on it afterwards. */
  lemma {:induction false} KthRequestGetsKthReply(replies: seq<UpstreamReply>, http11: seq<bool>, takes: seq<nat>,
                                                  k: nat)
    requires |http11| == |takes| && k < |http11|
    requires forall i :: 0 <= i < |replies| ==> Proper(replies[i])
    requires forall j :: 0 <= j <= k ==> DrainMany(WireAll(replies), http11, takes).0[j].result.Final?
    ensures var d := DrainMany(WireAll(replies), http11, takes).0[k];
            && k < |replies| && d.result == Final(replies[k].final)
            && d.relayed == if http11[k] then replies[k].interims else []
  {
    var stream := WireAll(replies);
    var (h, t) := (http11[..k + 1], takes[..k + 1]);
    DrainManyPrefix(stream, http11, takes, k + 1);
    assert h[..k] == http11[..k] && t[..k] == takes[..k];
    var (now, before) := (DrainMany(stream, h, t), DrainMany(stream, h[..k], t[..k]));
    assert now.0 == before.0 + [now.0[k]];
    forall j | 0 <= j < k ensures before.0[j].result.Final? {
      assert before.0[j] == now.0[j] == DrainMany(stream, http11, takes).0[j];
    }
    RestIsRemainingReplies(replies, h[..k], t[..k]);
    NextReadIsNextReply(replies, k, h[k], t[k]);
  }
}
