/** The client session: the keep-alive loop, its routing, and graceful shutdown. The watcher
    goroutine that shutdown starts can act between any two atomic steps; so can cancellation. */
module Session {
  import opened Strings
  import opened HostNames
  import opened NoProxy
  import opened Headers
  import opened Interim
  import opened History
  import Exchange

  datatype ReadError = NoError | Shutdown | EndOfInput | Unparseable

  /** The object is the request as the client sent it. */
  ghost predicate Holds(req: Request, r: Parsed)
    reads req
  {
    Describes(req, r) && req.header == r.header
  }

  ghost predicate Describes(req: Request, r: Parsed) {
    && req.method' == r.method' && req.host == r.host && req.proto == r.proto && req.http10 == r.http10
    && req.close == r.close && req.chunked == r.chunked && req.hasBody == r.hasBody
  }

  /** Validated: every check passed, Max-Forwards lowered, hop-by-hop fields gone. */
  ghost predicate Validated(cfg: Config, req: Request, r: Parsed)
    reads req
  {
    Describes(req, r) && Judge(cfg, r).Proceed? && req.header == Sanitized(Lowered(r.method', r.header), r.chunked)
  }

  /** `connectionWillClose`. */
  predicate ConnectionWillClose(http10: bool, reqClose: bool, respClose: bool) {
    http10 || reqClose || respClose
  }

  /** A request after whose answer the client expects no other. */
  predicate OneShot(r: Parsed) {
    r.http10 || r.close
  }

  /** How reaching for a connection ended. */
  datatype Dial = NoToken | Refused | TimedOut | Connected

  /** What the client is told of it (`tokenErrorToProxyError` and `handleDialError`). */
  function DialStatus(d: Dial): int {
    if d.TimedOut? then GATEWAY_TIMEOUT else BAD_GATEWAY
  }

  /** Request i is answered last, with the proxy's own word that a connection could not be had. */
  predicate ToldWhy(log: Log, i: nat, d: Dial) {
    |log.replies| == i + 1 && LastIsLocal(log, if d.TimedOut? then 504 else 502)
  }

  predicate LastIsLocal(log: Log, status: int) {
    && log.replies != []
    && var last := log.replies[|log.replies| - 1]; last.how.Local? && last.status == status
  }

  /** The answer to a CONNECT is the last word, and a tunnel is open exactly if it says so and got
      through. */
  predicate LastIsConnect(log: Log, status: int, open: bool) {
    && log.replies != []
    && var last := log.replies[|log.replies| - 1];
    && last.how.ConnectReply? && last.status == status && (open <==> last.written && 200 <= status < 300)
  }

  /** Request i has been written since, and nothing before it forgotten. */
  predicate Placed(log: Log, log': Log, i: nat) {
    i in log'.places && log.places.Keys <= log'.places.Keys
  }

  /** What the client hears of the exchange of request i: a final response is relayed; a request that
      could not be written is answered with 502; a failed read is reported only to the clients of the
      upstream proxy, and nothing to one that has left, unless the upload failed as well. */
  predicate Reported(before: seq<Reply>, log: Log, i: nat, racing: bool, tellReadError: bool) {
    match ReadOf(log.conns, log.places, i)
    case None => BadGateway(log, i)
    case Some(d) =>
      match d.result
      case Final(resp) => |log.replies| == i + 1 && log.replies[i].how.Relayed?
      case ClientGone => log.replies == before || (racing && BadGateway(log, i))
      case _ => (BadGateway(log, i) && (racing || tellReadError)) || (log.replies == before && !tellReadError)
  }

  /** Request i is answered last, with the proxy's own 502. */
  predicate BadGateway(log: Log, i: nat) {
    |log.replies| == i + 1 && LastIsLocal(log, 502)
  }

  /** Request i was written on a connection, or was a CONNECT whose target was dialled. */
  predicate Reached(log: Log, i: nat) {
    i in log.places || (i < |log.replies| && log.replies[i].how.ConnectReply?)
  }

  /** A read's result as the exchange sees it. */
  function Outline(r: ReadResult): Exchange.ReadResult {
    match r
    case Final(resp) => Exchange.Final(resp.close)
    case ClientGone => Exchange.ClientGone
    case _ => Exchange.UpstreamFailed
  }

  /** The session's context and its watcher; `admitted` and `replied` are how many requests had been
      admitted and answered when cancellation came. */
  datatype Context = Context(cancelled: bool, watcherRan: bool, admitted: nat, replied: nat)

  class ClientSession {
    const cfg: Config
    /** All the client sends, and what of it is still unread. */
    const input: seq<Incoming>
    var inbox: seq<Incoming>

    // shared with the watcher
    var ctx: Context
    var idle: bool
    var connClosed: bool

    /** The reused connection to the upstream proxy, once dialled. */
    var proxyConn: Option<nat>
    /** The connection client payload is being forwarded to, once a tunnel is open. */
    var tunnel: Option<nat>

    // history
    var log: Log
    var tokens: nat

    // --------------------------------------------------------------- invariants

    /** Shutdown: once the watcher has run an idle session has lost its connection; a connection
        it closed owes no reply; nothing is admitted after cancellation, so at most one reply
        is still to come. */
    ghost predicate ShutdownOk()
      reads this
    {
      && (ctx.watcherRan ==> ctx.cancelled)
      && (ctx.watcherRan && idle ==> connClosed)
      && (connClosed ==> ctx.cancelled && |log.replies| == |log.admitted|)
      && (idle ==> |log.replies| == |log.admitted|)
      && (ctx.cancelled ==>
            |log.admitted| == ctx.admitted <= ctx.replied + 1 && ctx.replied <= |log.replies|)
      && (forall k :: 0 <= k < |log.replies| && log.replies[k].afterCancel ==> ctx.cancelled)
    }

    ghost predicate Valid()
      reads this
    {
      && ValidConfig(cfg) && LogOk(cfg, log) && ProxyOk(log, proxyConn, tokens) && TunnelOk(log, tunnel)
      && ShutdownOk() && log.admitted <= input
    }

    /** The session may go on. */
    ghost predicate Open()
      reads this
    {
      && Valid() && !idle && tunnel.None? && MayContinue(log) && Reusable(log, proxyConn)
      && tokens == (if proxyConn.Some? then 1 else 0)
      && |inbox| == |input| - |log.admitted| && inbox == input[|log.admitted|..]
    }

    /** Every request so far has its reply. */
    ghost predicate Ready()
      reads this
    {
      Open() && |log.replies| == |log.admitted|
    }

    /** Request i is admitted, unanswered, and not yet written anywhere. */
    ghost predicate Busy(i: nat)
      reads this
    {
      Open() && i == |log.replies| && |log.admitted| == i + 1 && log.admitted[i].Ask? && i !in log.places
    }

    /** One reply is owed and nothing has said close. */
    ghost predicate Owes()
      reads this
    {
      Valid() && !idle && tunnel.None? && MayContinue(log) && |log.admitted| == |log.replies| + 1
    }

    /** The client has sent no further request, or something that is not one. */
    ghost predicate Exhausted()
      reads this
    {
      |log.admitted| < |input| ==> !input[|log.admitted|].Ask?
    }

    /** The session is over, everything it owed accounted for, and for a reason; a tunnel is open
        exactly if a granted CONNECT was the last word. */
    ghost predicate Done()
      reads this
    {
      && Valid() && Accounted(log) && (ctx.cancelled || Exhausted() || MustEnd(log))
      && (tunnel.Some? <==> Granted(log))
    }

    constructor (cfg: Config, inbox: seq<Incoming>)
      requires ValidConfig(cfg)
      ensures this.cfg == cfg && input == inbox && log.admitted == [] && Ready()
    {
      this.cfg, input, this.inbox := cfg, inbox, inbox;
      ctx, idle, connClosed := Context(false, false, 0, 0), false, false;
      proxyConn, tunnel, tokens := None, None, 0;
      log := Log([], [], [], map[], []);
    }

    // ------------------------------------------------------------------ shutdown

    method BeginShutdown()
      requires Valid() && ctx.cancelled
      modifies this`connClosed, this`ctx
      ensures Valid() && ctx == old(ctx).(watcherRan := true) && connClosed == (old(connClosed) || idle)
    {
      if idle {
        connClosed := true;
      }
      ctx := ctx.(watcherRan := true);
    }

    /** Cancellation may come, and the watcher may then run. */
    method Interfere()
      requires Valid()
      modifies this`ctx, this`connClosed
      ensures Valid()
      ensures old(ctx).cancelled ==> ctx.cancelled && ctx.replied == old(ctx).replied
    {
      var cancel := *;
      if cancel && !ctx.cancelled {
        ctx := Context(true, false, |log.admitted|, |log.replies|);
      }
      var watch := *;
      if watch && ctx.cancelled && !ctx.watcherRan {
        BeginShutdown();
      }
    }

    /** `readRequest`. A request is admitted in the same atomic step as the last look at the
        context. `first` says that an unparseable request will be answered. */
    method ReadRequest(first: bool) returns (req: Request?, err: ReadError)
      requires Ready()
      modifies this`inbox, this`idle, this`log, this`ctx, this`connClosed
      ensures |inbox| <= |old(inbox)| && log.conns == old(log).conns && log.places == old(log).places
      ensures req != null <==> err.NoError?
      ensures req != null ==>
                && fresh(req) && Busy(|log.replies|) && |inbox| < |old(inbox)|
                && Holds(req, log.admitted[|log.replies|].r)
      ensures err.Unparseable? && first ==>
                Owes() && !log.admitted[|log.replies|].Ask? && |log.replies| !in log.places
      ensures err.Shutdown? || err.EndOfInput? || (err.Unparseable? && !first) ==> Done()
    {
      hide LogOk, ProxyOk, Reusable, MayContinue, MustEnd, ValidConfig, Granted;
      ContinueMeansNotGranted(log);
      Interfere();
      if ctx.cancelled {
        return null, Shutdown;
      }
      idle := true;
      var got := Receive();
      Interfere();
      idle := false;
      Interfere();
      if ctx.cancelled {
        return null, Shutdown;
      }
      if got.Hangup? {
        return null, EndOfInput;
      }
      if got.Garbled? && !first {
        return null, Unparseable;
      }
      AdmitNext(got);
      if got.Garbled? {
        return null, Unparseable;
      }
      var r := got.r;
      req := new Request(r.method', r.host, r.proto, r.http10, r.close, r.chunked, r.hasBody, r.header, r.trailer);
      err := NoError;
    }

    method AdmitNext(got: Incoming)
      requires Valid() && !ctx.cancelled && !idle && tunnel.None? && MayContinue(log) && Reusable(log, proxyConn)
      requires tokens == (if proxyConn.Some? then 1 else 0) && |log.replies| == |log.admitted|
      requires |log.admitted| < |input| && input[|log.admitted|..] == [got] + inbox
      modifies this`log
      ensures log == Admit(old(log), got) && Open() && |log.replies| !in log.places
    {
      hide LogOk, ProxyOk, Reusable, MayContinue, ValidConfig;
      AdmitOk(cfg, log, got);
      AdmitKeepsProxy(log, got, proxyConn, tokens);
      log := Admit(log, got);
    }

    /** `http.ReadRequest`: the next thing the client sent. A closed connection can fail the
        read, but what is already buffered may still be parsed. */
    method Receive() returns (got: Incoming)
      requires Valid() && idle
      modifies this`inbox, this`ctx, this`connClosed
      ensures Valid() && ((inbox == old(inbox) && got.Hangup?) || old(inbox) == [got] + inbox)
      ensures inbox == old(inbox) && old(inbox) != [] ==> ctx.cancelled
      ensures old(ctx).cancelled ==> ctx.cancelled
    {
      Interfere();
      got := Hangup;
      var fails := *;
      if inbox != [] && !(connClosed && fails) {
        got := inbox[0];
        inbox := inbox[1..];
      }
    }

    // -------------------------------------------------------------------- replies

    /** A response starts to be serialized to the client. A relayed one looks at the context
        first (`writeResponse`); the proxy's own always say close. */
    method Answer(how: How, status: int, content: string, close: bool, from: Option<(nat, nat)>)
      returns (closed: bool, written: bool)
      requires Owes()
      requires (how.Local? ==> close) && from == Heard(log.conns, log.places, |log.replies|)
      requires ReplyOk(cfg, log.admitted, log.conns,
                       Reply(|log.replies|, how, status, content, close, false, true, from))
      modifies this`log, this`ctx, this`connClosed
      ensures Valid() && |log.replies| == |log.admitted|
      ensures closed == (close || (how.Relayed? && ctx.cancelled))
      ensures log == AddReply(old(log),
                              Reply(|old(log).replies|, how, status, content, closed, ctx.cancelled, written, from))
    {
      hide LogOk, ReplyOk;
      Interfere();
      closed := close || (how.Relayed? && ctx.cancelled);
      written := *;
      var r := Reply(|log.replies|, how, status, content, closed, ctx.cancelled, written, from);
      ReplyStaysFounded(cfg, log.admitted, log.conns, r.(close := close, afterCancel := false, written := true), r);
      AddReplyOk(cfg, log, r);
      log := AddReply(log, r);
    }

    /** `writeHTTPError` and `writeMaxForwardsResponse`: the session ends with this reply. */
    method AnswerLocally(status: int)
      requires Owes()
      requires OwnStatus(cfg, log.admitted[|log.replies|], status)
      requires Heard(log.conns, log.places, |log.replies|).None?
      modifies this`log, this`ctx, this`connClosed
      ensures Done() && |log.replies| == |log.admitted|
      ensures log.conns == old(log).conns && log.admitted == old(log).admitted && log.places == old(log).places
      ensures MustEnd(log) && LastIsLocal(log, status)
    {
      hide LogOk, ReplyOk, OwnStatus, Heard;
      LocalReplyIsFounded(cfg, log.admitted, log.conns, |log.replies|, status);
      var _, _ := Answer(Local, status, "", true, None);
    }

    /** `readNextRequest`. */
    method ReadNextRequest(iter: nat) returns (req: Request?)
      requires Ready()
      modifies this
      ensures Valid() && |inbox| <= |old(inbox)|
      ensures req == null ==> Done()
      ensures req != null ==>
                && fresh(req) && Busy(|log.replies|) && |inbox| < |old(inbox)|
                && Holds(req, log.admitted[|log.replies|].r)
    {
      var err;
      req, err := ReadRequest(iter == 0);
      if err.Unparseable? && iter == 0 {
        AnswerLocally(BAD_REQUEST);
      }
    }

    // ----------------------------------------------------------------- validation

    /** `validateRequest`. An error is for the caller to report; a request that ends here has
        already been answered. */
    method ValidateRequest(req: Request) returns (proceed: bool, pe: Option<int>)
      requires Busy(|log.replies|) && Holds(req, log.admitted[|log.replies|].r)
      modifies this`log, req, this`ctx, this`connClosed
      ensures proceed || pe.Some? ==> Busy(|log.replies|)
      ensures proceed <==> Judge(cfg, old(log).admitted[|old(log).replies|].r).Proceed?
      ensures proceed ==> log == old(log) && Validated(cfg, req, log.admitted[|log.replies|].r)
      ensures !proceed && pe.Some? ==> log == old(log) && OwnStatus(cfg, log.admitted[|log.replies|], pe.value)
      ensures !proceed && pe.None? ==> Done() && log.places == old(log).places
    {
      hide LogOk;
      ghost var r := log.admitted[|log.replies|].r;
      Interfere();
      var prior := Get(req.header, VIA);
      if prior != "" && Contains(prior, cfg.pseudonym) {
        return false, Some(BAD_GATEWAY);
      }
      if req.method' == "CONNECT" && cfg.connectPorts != [] {
        var port := "443";
        match SplitHostPort(req.host) {
          case Some(hp) => port := hp.port;
          case None =>
        }
        if !("*" in cfg.connectPorts || port in cfg.connectPorts) {
          return false, Some(FORBIDDEN);
        }
      }
      var forward := req.ApplyMaxForwards();
      if !forward {
        assert r.method' != "CONNECT";
        AnswerLocally(200);
        return false, None;
      }
      req.SanitizeHopByHop();
      return true, None;
    }

    // ------------------------------------------------------------------- exchanges

    /** One request and its response on connection c: `exchangeRequest`, by what every one of
        its interleavings guarantees (`Exchange.ReturnsCleanly`). */
    method ExchangeRequest(c: nat, s: Sent, http11: bool, expects: bool) returns (end: Exchange.End, result: ReadResult)
      requires Owes() && CanWrite(cfg, log, c, s)
      requires http11 == !log.admitted[s.index].r.http10
      modifies this`log
      ensures Owes() && OnlyConn(old(log), log, c) && Placed(old(log), log, s.index)
      ensures Exchange.Outcome(expects, end)
      ensures end.out.got == if end.out.got.None? then None else Some(Outline(result))
      ensures end.out.got.Some? ==>
                && var n := |old(log).conns[c].sent|;
                && |log.conns[c].sent| == |log.conns[c].results| == n + 1
                && log.conns[c].sent[n] == s && log.conns[c].results[n].result == result
                && log.conns[c].settled == (end.complete && !end.deadlineLeft)
      ensures Heard(log.conns, log.places, s.index)
           == if end.out.resp.Some? then Some((c, |old(log).conns[c].sent|)) else None
      ensures match ReadOf(log.conns, log.places, s.index)
              case None => end.out.got.None?
              case Some(d) => end.out.got.Some? && d.result == result
    {
      hide LogOk, SentOk, ProxyOk, MayContinue, ReadOf, Heard, Drain;
      result := ReadFailed;
      var writeFails := *;
      if !expects && writeFails {
        WriteStep(cfg, log, c, s);
        OnlyConnKeepsProxy(log, WriteOn(log, c, s), c, proxyConn, tokens);
        log := WriteOn(log, c, s);
        end := Exchange.End(Exchange.Results(None, None, true, false, false), false, false, false);
        return;
      }
      var takes :| 0 <= takes;
      var d := ReadThroughInterim(log.conns[c].rest, http11, takes);
      result := d.result;
      end := RaceOutcome(expects, result);
      var settled := end.complete && !end.deadlineLeft;
      ExchangeStep(cfg, log, c, s, takes, settled);
      OnlyConnKeepsProxy(log, Exchanged(log, c, s, http11, takes, settled), c, proxyConn, tokens);
      log := Exchanged(log, c, s, http11, takes, settled);
    }

    /** Any outcome the race between upload and response allows. */
    method RaceOutcome(expects: bool, result: ReadResult) returns (end: Exchange.End)
      ensures Exchange.Outcome(expects, end) && end.out.got == Some(Outline(result))
    {
      var complete, overtaken := *, *;
      complete, overtaken := complete || !expects, overtaken && expects;
      var got := Outline(result);
      end := Exchange.End(
        Exchange.Results(Some(got), if got.Final? then Some(got.close || overtaken || !complete) else None,
                         !got.Final? && !complete && !overtaken, got.ClientGone?, got.UpstreamFailed?),
        complete, overtaken, overtaken && !complete);
    }

    /** What a token request meets outside. */
    method TokenOutside() returns (token: Option<string>)
    {
      var granted, t: string := *, *;
      return if granted then Some(t) else None;
    }

    /** What a dial meets outside. */
    method DialOutside() returns (d: Dial)
      ensures !d.NoToken?
    {
      d :| !d.NoToken?;
    }

    /** `handleDialError`, and its counterpart for a token that cannot be had. */
    method AnswerDialError(d: Dial)
      requires Owes() && Accepted(cfg, log.admitted, |log.replies|) && !d.Connected?
      requires Heard(log.conns, log.places, |log.replies|).None?
      modifies this`log, this`ctx, this`connClosed
      ensures Done() && ToldWhy(log, |old(log).replies|, d) && log.places == old(log).places
              && |log.replies| == |log.admitted|
      ensures log.admitted == old(log).admitted
    {
      AnswerLocally(DialStatus(d));
    }

    /** `dialAndAuthUpstream`: a token, then a connection. Without them the client is told why not. */
    method DialAndAuthUpstream(req: Request) returns (token: Option<string>, d: Dial, offered: Option<string>)
      requires Owes() && tokens <= 1 && Accepted(cfg, log.admitted, |log.replies|) && |log.replies| !in log.places
      modifies this`log, this`tokens, req`header, this`ctx, this`connClosed
      ensures Valid() && tokens == old(tokens) + 1 && log.places == old(log).places
      ensures token == (if d.Connected? then offered else None) && (d.NoToken? <==> offered.None?)
      ensures token.None? ==> Done() && ToldWhy(log, |old(log).replies|, d)
      ensures token.Some? ==>
                && log == old(log)
                && req.header == Set(old(req.header), PROXY_AUTHORIZATION, "Negotiate " + token.value)
    {
      hide LogOk, Accepted;
      tokens := tokens + 1;
      Interfere();
      offered := TokenOutside();
      if offered.None? {
        AnswerDialError(NoToken);
        return None, NoToken, offered;
      }
      req.header := Set(req.header, PROXY_AUTHORIZATION, "Negotiate " + offered.value);
      d := DialOutside();
      Interfere();
      if !d.Connected? {
        AnswerDialError(d);
        return None, d, offered;
      }
      return offered, d, offered;
    }

    /** The lazily dialled upstream connection, ready for its next request. Only the request
        that causes the dial gets the credential. */
    method ReachUpstream(req: Request) returns (d: Dial)
      requires Busy(|log.replies|) && Accepted(cfg, log.admitted, |log.replies|)
      modifies this`log, this`tokens, this`proxyConn, req`header, this`ctx, this`connClosed
      ensures Valid() && log.places == old(log).places
      ensures old(proxyConn).Some? ==> d.Connected?
      ensures !d.Connected? ==> Done() && ToldWhy(log, |old(log).replies|, d)
      ensures d.Connected? ==>
                && Owes() && tokens == 1 && proxyConn.Some?
                && log.admitted == old(log).admitted && log.replies == old(log).replies
                && var c := log.conns[proxyConn.value];
                && c.kind.Upstream? && Quiescent(c)
                && req.header == if c.sent != [] then old(req.header)
                                 else Set(old(req.header), PROXY_AUTHORIZATION, "Negotiate " + c.kind.token)
    {
      hide LogOk;
      d := Connected;
      if proxyConn.None? {
        var token, offered;
        token, d, offered := DialAndAuthUpstream(req);
        if token.None? {
          return;
        }
        var stream: seq<ReadOne> := *;
        OpenUpstreamStep(cfg, log, token.value, stream, tokens);
        proxyConn := Some(|log.conns|);
        log := OpenConn(log, Upstream(token.value), stream);
      }
    }

    /** The tail shared by `relayViaUpstream` and `relayDirect`: report a failed exchange, or relay
        its response. Only the upstream path tells the client about a failed read. */
    method Conclude(c: nat, end: Exchange.End, result: ReadResult, tellReadError: bool)
      returns (closed: bool, relayed: bool)
      requires Owes() && c < |log.conns| && Accepted(cfg, log.admitted, |log.replies|)
      requires log.admitted[|log.replies|].r.method' != "CONNECT" && (tellReadError || log.conns[c].kind.Direct?)
      requires Exchange.Outcome(true, end) && (end.out.got.Some? ==> end.out.got.value == Outline(result))
      requires end.out.got.None? ==> end.out.requestErr
      requires end.out.got.Some? ==>
                 && |log.conns[c].sent| == |log.conns[c].results| > 0
                 && var n := |log.conns[c].results| - 1;
                 && log.conns[c].sent[n].index == |log.replies| && log.conns[c].results[n].result == result
                 && (Exchange.Outcome(false, end) || Races(log.admitted[|log.replies|].r, log.conns[c].sent[n]))
      requires Heard(log.conns, log.places, |log.replies|)
            == if end.out.resp.Some? then Some((c, |log.conns[c].results| - 1)) else None
      modifies this`log, this`ctx, this`connClosed
      ensures Valid() && Accounted(log) && log.conns == old(log).conns && log.admitted == old(log).admitted
      ensures log.places == old(log).places && !Granted(log)
      ensures !relayed || closed ==> MustEnd(log)
      ensures end.out.resp.Some? ==>
                && |log.replies| == |log.admitted| == |old(log).replies| + 1
                && var reply := log.replies[|old(log).replies|];
                && reply.how.Relayed? && reply.status == result.resp.status && reply.content == result.resp.content
                && reply.index == |old(log).replies| && reply.close == closed && reply.written == relayed
                && closed == (end.out.resp.value || ctx.cancelled)
      ensures relayed ==> end.out.resp.Some?
      ensures end.out.requestErr ==> BadGateway(log, |old(log).replies|)
      ensures !end.out.requestErr && end.out.clientErr ==> log == old(log)
      ensures !end.out.requestErr && end.out.readErr ==>
                if tellReadError then BadGateway(log, |old(log).replies|) else log == old(log)
      ensures relayed && !closed && !OneShot(log.admitted[|old(log).replies|].r) ==> MayContinue(log)
    {
      hide LogOk;
      closed, relayed := true, false;
      if end.out.requestErr {
        AnswerLocally(BAD_GATEWAY);
      } else if end.out.clientErr {
        assert GaveUp(log.conns[c], |log.replies|);
      } else if end.out.readErr {
        if tellReadError {
          AnswerLocally(BAD_GATEWAY);
        } else {
          assert GaveUp(log.conns[c], |log.replies|);
        }
      } else {
        var place := (c, |log.conns[c].results| - 1);
        closed, relayed := Answer(Relayed, result.resp.status, result.resp.content, end.out.resp.value, Some(place));
      }
    }

    /** One exchange and what the client hears of it. */
    method Serve(c: nat, s: Sent, http11: bool, expects: bool, tellReadError: bool) returns (closed: bool,
                 relayed: bool)
      requires Owes() && CanWrite(cfg, log, c, s)
      requires http11 == !log.admitted[s.index].r.http10 && log.admitted[s.index].r.method' != "CONNECT"
      requires expects == Races(log.admitted[s.index].r, s)
      requires Accepted(cfg, log.admitted, s.index) && (tellReadError || log.conns[c].kind.Direct?)
      modifies this`log, this`ctx, this`connClosed
      ensures Valid() && Accounted(log) && OthersSame(old(log).conns, log.conns, c) && log.admitted == old(log).admitted
      ensures Placed(old(log), log, s.index) && !Granted(log)
      ensures Reported(old(log).replies, log, s.index, expects, tellReadError)
      ensures !relayed || closed ==> MustEnd(log)
      ensures relayed ==> |log.replies| == |log.admitted| && log.replies[|log.replies| - 1].index == s.index
      ensures relayed && !closed ==> Quiescent(log.conns[c]) && log.conns[c].sent != []
      ensures relayed && !closed && !OneShot(log.admitted[s.index].r) ==> MayContinue(log)
    {
      hide LogOk;
      var end, result := ExchangeRequest(c, s, http11, expects);
      Interfere();
      label exchanged:
      closed, relayed := Conclude(c, end, result, tellReadError);
      assert ReadOf(log.conns, log.places, s.index) == old@exchanged(ReadOf(log.conns, log.places, s.index));
    }

    /** `relayViaUpstream`. */
    method RelayViaUpstream(req: Request) returns (cont: bool, d: Dial)
      requires Busy(|log.replies|)
      requires var r := log.admitted[|log.replies|].r;
               Validated(cfg, req, r) && r.method' != "CONNECT" && !Bypassed(cfg, r.host)
      modifies this`log, this`tokens, this`proxyConn, req`header, this`ctx, this`connClosed
      ensures Valid()
      ensures if cont then Ready() else Done()
      ensures d.Connected? <==> |old(log).replies| in log.places
      ensures if d.Connected? then
                Reported(old(log).replies, log, |old(log).replies|, req.hasBody && ExpectsContinue(req.header), true)
              else ToldWhy(log, |old(log).replies|, d)
    {
      hide LogOk, Reported, Stamped, Sanitized, Lowered;
      var id: string := *;
      req.InjectForwarding(cfg.forwarding, cfg.clientIP, id);
      d := ReachUpstream(req);
      if !d.Connected? {
        return false, d;
      }
      req.InjectVia(cfg.pseudonym);
      var expects := req.AwaitsContinue();
      var closed, relayed :=
        Serve(proxyConn.value, Sent(|log.replies|, id, req.header), !req.http10, expects, true);
      return relayed && !ConnectionWillClose(req.http10, req.close, closed), d;
    }

    // ---------------------------------------------------------- the direct path

    /** `relayDirect`: a failed read is not reported to the client. */
    method RelayDirect(req: Request, c: nat) returns (cont: bool)
      requires Busy(|log.replies|) && c < |log.conns| && log.conns[c].kind.Direct?
      requires var r := log.admitted[|log.replies|].r;
               && Describes(req, r) && Judge(cfg, r).Proceed? && r.method' != "CONNECT"
               && CanWrite(cfg, log, c, Sent(|log.replies|, "", req.header))
      modifies this`log, this`ctx, this`connClosed
      ensures Valid() && |log.conns| == |old(log).conns| && log.conns[c].kind == old(log).conns[c].kind
      ensures Placed(old(log), log, |old(log).replies|)
      ensures Reported(old(log).replies, log, |old(log).replies|, req.hasBody && ExpectsContinue(req.header), false)
      ensures !cont ==> Done()
      ensures cont ==> Ready() && Quiescent(log.conns[c])
    {
      hide LogOk, SentOk;
      ghost var before := log;
      var expects := req.AwaitsContinue();
      var closed, relayed := Serve(c, Sent(|log.replies|, "", req.header), !req.http10, expects, false);
      OthersSameKeepsReusable(before, log, c, proxyConn, tokens);
      return relayed && !ConnectionWillClose(req.http10, req.close, closed);
    }

    /** Fit to be written on the direct connection bound to the given host. */
    ghost predicate ForDirect(req: Request, r: Parsed, boundHost: HostValue)
      requires ValidConfig(cfg)
      reads req
    {
      && Describes(req, r) && Judge(cfg, r).Proceed? && r.method' != "CONNECT"
      && SameHost(r.host, boundHost, "80") && req.header == OnTheWire(cfg, r, None, None)
    }

    /** `nextDirectRequest`. A request for another host comes back untouched. */
    method NextDirectRequest(boundHost: HostValue) returns (req: Request?, reroute: bool)
      requires Ready()
      modifies this
      ensures Valid() && |inbox| <= |old(inbox)| && log.places == old(log).places
      ensures req == null ==> Done()
      ensures req != null ==> fresh(req) && Busy(|log.replies|) && |inbox| < |old(inbox)| && log.conns == old(log).conns
      ensures req != null && reroute ==> Holds(req, log.admitted[|log.replies|].r)
      ensures req != null && !reroute ==> ForDirect(req, log.admitted[|log.replies|].r, boundHost)
    {
      hide LogOk;
      var err;
      req, err := ReadRequest(false);
      if req == null {
        return null, false;
      }
      if !SameHost(req.host, boundHost, "80") {
        return req, true;
      }
      var ok := PrepareDirect(req, boundHost);
      return if ok then req else null, false;
    }

    /** Validation on the direct path; a CONNECT cannot be tunnelled on a connection in use. */
    method PrepareDirect(req: Request, boundHost: HostValue) returns (ok: bool)
      requires Busy(|log.replies|) && Holds(req, log.admitted[|log.replies|].r) && SameHost(req.host, boundHost, "80")
      modifies this`log, req, this`ctx, this`connClosed
      ensures Valid() && log.places == old(log).places
      ensures !ok ==> Done()
      ensures !ok && Judge(cfg, old(log).admitted[|old(log).replies|].r).Proceed? ==>
                req.method' == "CONNECT" && LastIsLocal(log, BAD_REQUEST)
      ensures ok ==> Busy(|log.replies|) && log == old(log) && ForDirect(req, log.admitted[|log.replies|].r, boundHost)
    {
      hide LogOk;
      var proceed, pe := ValidateRequest(req);
      if !proceed {
        if pe.Some? {
          AnswerLocally(pe.value);
        }
        return false;
      }
      if req.method' == "CONNECT" {
        AnswerLocally(BAD_REQUEST);
        return false;
      }
      req.InjectVia(cfg.pseudonym);
      return true;
    }

    /** `forwardDirect`: the connection stays bound to the host it was dialled for. The matcher is
        consulted only before the first request; `StillBypassed` covers the rest. */
    method ForwardDirect(first: Request) returns (next: Request?, cont: bool, d: Dial)
      requires Busy(|log.replies|)
      requires var r := log.admitted[|log.replies|].r;
               && Describes(first, r) && Judge(cfg, r).Proceed? && r.method' != "CONNECT"
               && Bypassed(cfg, r.host) && first.header == OnTheWire(cfg, r, None, None)
      modifies this, first
      ensures Valid() && |inbox| <= |old(inbox)|
      ensures !cont ==> Done()
      ensures d.Connected? <==> |old(log).replies| in log.places
      ensures !d.Connected? ==> ToldWhy(log, |old(log).replies|, d)
      ensures cont <==> next != null
      ensures cont ==>
                && fresh(next) && Busy(|log.replies|) && |inbox| < |old(inbox)|
                && Holds(next, log.admitted[|log.replies|].r)
    {
      hide LogOk, Bypassed, Canon, Judge, OnTheWire;
      d := DialOutside();
      Interfere();
      if !d.Connected? {
        AnswerDialError(d);
        return null, false, d;
      }
      var boundHost: HostValue := log.admitted[|log.replies|].r.host;
      var stream: seq<ReadOne> := *;
      var c := |log.conns|;
      OpenOtherStep(cfg, log, Direct(boundHost), stream, proxyConn, tokens);
      log := OpenConn(log, Direct(boundHost), stream);
      var req: Request := first;
      while true
        invariant Busy(|log.replies|) && |inbox| <= |old(inbox)| && c < |log.conns|
        invariant log.conns[c].kind == Direct(boundHost) && Bypassed(cfg, boundHost)
        invariant Quiescent(log.conns[c])
        invariant ForDirect(req, log.admitted[|log.replies|].r, boundHost)
        invariant |log.replies| == |old(log).replies| || |old(log).replies| in log.places
        decreases |inbox|
      {
        StillBypassed(cfg, log.admitted[|log.replies|].r.host, boundHost);
        var again := RelayDirect(req, c);
        if !again {
          return null, false, d;
        }
        var n, reroute := NextDirectRequest(boundHost);
        if n == null {
          return null, false, d;
        }
        if reroute {
          return n, true, d;
        }
        req := n;
      }
    }

    // ------------------------------------------------------------------- CONNECT

    /** `handleConnectTunnel`: the upstream's final response decides; interim ones do not. */
    method HandleConnectTunnel(c: nat, http11: bool, s: Sent)
      requires Owes() && CanWrite(cfg, log, c, s) && c < |log.conns| && log.conns[c].kind.TunnelUp?
               && s.index == |log.replies|
      requires Accepted(cfg, log.admitted, |log.replies|) && log.admitted[|log.replies|].r.method' == "CONNECT"
      requires http11 == !log.admitted[|log.replies|].r.http10
      modifies this`log, this`tunnel, this`ctx, this`connClosed
      ensures Done() && |old(log).replies| in log.places
      ensures var read := ReadOf(log.conns, log.places, |old(log).replies|);
              && read.Some?
              && match read.value.result
                 case Final(resp) => LastIsConnect(log, resp.status, tunnel.Some?)
                 case ClientGone => log.replies == old(log).replies && tunnel.None?
                 case _ => LastIsLocal(log, 502) && tunnel.None?
    {
      hide LogOk, SentOk, ProxyOk, MayContinue, CanWrite;
      var result := ReadConnect(c, http11, s);
      Interfere();
      if result.ClientGone? {
        ContinueMeansNotGranted(log);
        assert GaveUp(log.conns[c], |log.replies|);
        return;
      }
      if !result.Final? {
        AnswerLocally(BAD_GATEWAY);
        return;
      }
      AnswerConnect(c, result.resp);
    }

    /** The CONNECT is on its way; its answer is read past any interim responses. */
    method ReadConnect(c: nat, http11: bool, s: Sent) returns (result: ReadResult)
      requires Owes() && CanWrite(cfg, log, c, s) && log.conns[c].kind.TunnelUp?
      requires http11 == !log.admitted[|log.replies|].r.http10
      modifies this`log
      ensures Owes() && OnlyConn(old(log), log, c) && log.conns[c].kind.TunnelUp? && s.index in log.places
      ensures |log.conns[c].sent| == |log.conns[c].results| == |old(log).conns[c].sent| + 1
      ensures log.conns[c].sent[|old(log).conns[c].sent|] == s
      ensures log.conns[c].results[|old(log).conns[c].sent|].result == result
      ensures log.places[s.index] == (c, |old(log).conns[c].sent|)
    {
      hide LogOk, SentOk, ProxyOk;
      var takes :| 0 <= takes;
      var d := ReadThroughInterim(log.conns[c].rest, http11, takes);
      ExchangeStep(cfg, log, c, s, takes, true);
      OnlyConnKeepsProxy(log, Exchanged(log, c, s, http11, takes, true), c, proxyConn, tokens);
      log := Exchanged(log, c, s, http11, takes, true);
      result := d.result;
    }

    /** The upstream's answer to a CONNECT goes to the client; a 2xx that was written opens the
        tunnel. */
    method AnswerConnect(c: nat, resp: Response)
      requires Owes() && c < |log.conns| && log.conns[c].kind.TunnelUp?
      requires |log.conns[c].sent| == |log.conns[c].results| > 0
      requires Accepted(cfg, log.admitted, |log.replies|) && log.admitted[|log.replies|].r.method' == "CONNECT"
      requires var n := |log.conns[c].results| - 1;
               && log.conns[c].sent[n].index == |log.replies| && log.conns[c].results[n].result == Final(resp)
               && Heard(log.conns, log.places, |log.replies|) == Some((c, n))
      modifies this`log, this`tunnel, this`ctx, this`connClosed
      ensures Done() && log.places == old(log).places && log.conns == old(log).conns
      ensures LastIsConnect(log, resp.status, tunnel.Some?)
    {
      hide LogOk;
      var place := (c, |log.conns[c].results| - 1);
      var _, written := Answer(ConnectReply, resp.status, resp.content, resp.close, Some(place));
      if written && 200 <= resp.status < 300 {
        tunnel := Some(c);
      }
    }

    /** `tunnelViaUpstream`: a fresh connection with a credential of its own. */
    method TunnelViaUpstream(req: Request) returns (d: Dial)
      requires Busy(|log.replies|)
      requires var r := log.admitted[|log.replies|].r;
               Validated(cfg, req, r) && r.method' == "CONNECT" && !Bypassed(cfg, r.host)
      modifies this`log, this`tokens, this`tunnel, req`header, this`ctx, this`connClosed
      ensures Done()
      ensures d.Connected? <==> |old(log).replies| in log.places
      ensures !d.Connected? ==> ToldWhy(log, |old(log).replies|, d)
    {
      hide LogOk, Judge, Bypassed, Sanitized, Stamped, ProxyOk;
      var id: string := *;
      req.InjectForwarding(cfg.forwarding, cfg.clientIP, id);
      var token, offered;
      token, d, offered := DialAndAuthUpstream(req);
      if token.None? {
        return;
      }
      var stream: seq<ReadOne> := *;
      var c := |log.conns|;
      OpenOtherStep(cfg, log, TunnelUp(token.value), stream, proxyConn, tokens);
      log := OpenConn(log, TunnelUp(token.value), stream);
      req.InjectVia(cfg.pseudonym);
      var s := Sent(|log.replies|, id, req.header);
      assert CanWrite(cfg, log, c, s);
      SendConnect(c, !req.http10, s);
    }

    /** The CONNECT goes out; what follows depends on its answer. */
    method SendConnect(c: nat, http11: bool, s: Sent)
      requires Owes() && CanWrite(cfg, log, c, s) && log.conns[c].kind.TunnelUp?
      requires Accepted(cfg, log.admitted, |log.replies|) && log.admitted[|log.replies|].r.method' == "CONNECT"
      requires http11 == !log.admitted[|log.replies|].r.http10
      modifies this`log, this`tunnel, this`ctx, this`connClosed
      ensures Done() && |old(log).replies| in log.places
    {
      hide LogOk, SentOk, ProxyOk;
      var writeFails := *;
      if writeFails {
        WriteStep(cfg, log, c, s);
        OnlyConnKeepsProxy(log, WriteOn(log, c, s), c, proxyConn, tokens);
        log := WriteOn(log, c, s);
        AnswerLocally(BAD_GATEWAY);
        return;
      }
      HandleConnectTunnel(c, http11, s);
    }

    /** `tunnelDirect`. */
    method TunnelDirectly(req: Request) returns (d: Dial)
      requires Busy(|log.replies|)
      requires var r := log.admitted[|log.replies|].r;
               Validated(cfg, req, r) && r.method' == "CONNECT" && Bypassed(cfg, r.host)
      modifies this`log, this`tunnel, this`ctx, this`connClosed
      ensures Done() && log.places == old(log).places && |log.replies| == |old(log).replies| + 1
      ensures if d.Connected? then LastIsConnect(log, 200, tunnel.Some?) else ToldWhy(log, |old(log).replies|, d)
    {
      hide LogOk, Bypassed, Judge, Sanitized;
      d := DialOutside();
      Interfere();
      if !d.Connected? {
        AnswerDialError(d);
        return;
      }
      var host: HostValue := log.admitted[|log.replies|].r.host;
      var stream: seq<ReadOne> := *;
      var c := |log.conns|;
      OpenOtherStep(cfg, log, TunnelDirect(host), stream, proxyConn, tokens);
      log := OpenConn(log, TunnelDirect(host), stream);
      assert log.conns[c].kind == TunnelDirect(host);
      var _, written := Answer(ConnectReply, 200, "", false, None);
      if written {
        tunnel := Some(c);
      }
    }

    // ------------------------------------------------------------------- the loop

    /** `routeRequest`. A request handed back is to be routed again. */
    method RouteRequest(req: Request) returns (next: Request?, cont: bool, d: Dial)
      requires Busy(|log.replies|) && Validated(cfg, req, log.admitted[|log.replies|].r)
      modifies this, req
      ensures Valid() && |inbox| <= |old(inbox)|
      ensures !cont ==> Done()
      ensures cont && next == null ==> Ready()
      ensures d.Connected? <==> Reached(log, |old(log).replies|)
      ensures !d.Connected? ==> ToldWhy(log, |old(log).replies|, d)
      ensures next != null ==>
                && cont && fresh(next) && Busy(|log.replies|) && |inbox| < |old(inbox)|
                && Holds(next, log.admitted[|log.replies|].r)
    {
      hide LogOk, ProxyOk, Reusable, MayContinue, Validated, Granted, Accounted;
      assert req.host == log.admitted[|log.replies|].r.host by { Sees(req); }
      if cfg.noProxy.Some? {
        var matched, _ := cfg.noProxy.value.Match(req.host);
        if matched {
          next, cont, d := RouteDirect(req);
          return;
        }
      }
      next := null;
      cont, d := RouteUpstream(req);
    }

    lemma {:induction false} Sees(req: Request)
      requires Busy(|log.replies|) && Validated(cfg, req, log.admitted[|log.replies|].r)
      ensures req.host == log.admitted[|log.replies|].r.host
    {}

    /** A request that the noproxy list covers. */
    method RouteDirect(req: Request) returns (next: Request?, cont: bool, d: Dial)
      requires Busy(|log.replies|) && Validated(cfg, req, log.admitted[|log.replies|].r)
      requires Bypassed(cfg, log.admitted[|log.replies|].r.host)
      modifies this, req
      ensures Valid() && |inbox| <= |old(inbox)|
      ensures !cont ==> Done()
      ensures cont <==> next != null
      ensures d.Connected? <==> Reached(log, |old(log).replies|)
      ensures !d.Connected? ==> ToldWhy(log, |old(log).replies|, d)
      ensures next != null ==>
                && fresh(next) && Busy(|log.replies|) && |inbox| < |old(inbox)|
                && Holds(next, log.admitted[|log.replies|].r)
    {
      hide LogOk, ProxyOk, Reusable, MayContinue, Judge, Sanitized, Lowered, Granted, Accounted, Bypassed;
      if req.method' == "CONNECT" {
        d := TunnelDirectly(req);
        return null, false, d;
      }
      req.InjectVia(cfg.pseudonym);
      next, cont, d := ForwardDirect(req);
    }

    method RouteUpstream(req: Request) returns (cont: bool, d: Dial)
      requires Busy(|log.replies|) && Validated(cfg, req, log.admitted[|log.replies|].r)
      requires !Bypassed(cfg, log.admitted[|log.replies|].r.host)
      modifies this, req
      ensures Valid() && inbox == old(inbox)
      ensures if cont then Ready() else Done()
      ensures d.Connected? <==> Reached(log, |old(log).replies|)
      ensures !d.Connected? ==> ToldWhy(log, |old(log).replies|, d)
    {
      hide LogOk, ProxyOk, Reusable, MayContinue, Judge, Sanitized, Lowered, Granted, Accounted, Bypassed;
      if req.method' == "CONNECT" {
        d := TunnelViaUpstream(req);
        return false, d;
      }
      cont, d := RelayViaUpstream(req);
    }

    /** `run`. Every pass consumes a request or ends the session, so it terminates with the
        client's input; every moment of it satisfies the invariant. */
    method Run()
      requires Ready() && log.admitted == []
      modifies this
      ensures Done()
    {
      var pending: Request? := null;
      var iter := 0;
      while true
        invariant pending == null ==> Ready()
        invariant pending != null ==>
                    fresh(pending) && Busy(|log.replies|) && Holds(pending, log.admitted[|log.replies|].r)
        invariant 0 <= iter
        decreases |inbox|, if pending == null then 0 else 1
      {
        var req := pending;
        if req == null {
          req := ReadNextRequest(iter);
          if req == null {
            return;
          }
        }
        var proceed, pe := ValidateRequest(req);
        if !proceed {
          if pe.Some? {
            AnswerLocally(pe.value);
          }
          return;
        }
        var next, cont, _ := RouteRequest(req);
        if !cont {
          return;
        }
        pending := next;
        iter := iter + 1;
      }
    }
  }

  /** `handleClientCtx`, after the IP allow list: without a pseudonym there is no session. Otherwise
      the client's requests are answered in order, each at most once; after cancellation none is
      admitted and at most one more reply goes out; a connection that shutdown closed owed none. */
  method HandleClient(cfg: Config, inbox: seq<Incoming>) returns (s: ClientSession?)
    requires cfg.noProxy.Some? ==> cfg.noProxy.value.Valid()
    ensures s == null <==> cfg.pseudonym == ""
    ensures s != null ==> fresh(s) && s.cfg == cfg && s.Done() && s.log.admitted <= inbox && s.tokens <= 2
    ensures s != null ==> forall k :: 0 <= k < |s.log.replies| ==> s.log.replies[k].index == k
    ensures s != null && s.ctx.cancelled ==>
              |s.log.admitted| == s.ctx.admitted && |s.log.replies| <= s.ctx.replied + 1
    ensures s != null && s.connClosed ==> |s.log.replies| == |s.log.admitted|
  {
    if cfg.pseudonym == "" {
      return null;
    }
    s := new ClientSession(cfg, inbox);
    s.Run();
  }
}
