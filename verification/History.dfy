/** What a client session has done, and what must be true of it at every moment. */
module History {
  import opened Strings
  import opened HostNames
  import opened NoProxy
  import opened Numbers
  import opened Headers
  import opened Interim

  /** Header parsing leaves no white space around a Host value. */
  type HostValue = s: string | Trimmed(s)

  datatype Config = Config(pseudonym: string, noProxy: Option<Matcher>, connectPorts: seq<string>,
                           forwarding: Forwarding, clientIP: string)

  predicate ValidConfig(cfg: Config) {
    cfg.pseudonym != "" && (cfg.noProxy.Some? ==> cfg.noProxy.value.Valid())
  }

  /** A request as the client sent it. */
  datatype Parsed = Parsed(method': string, host: HostValue, proto: string, http10: bool, close: bool,
                           chunked: bool, hasBody: bool, header: Header, trailer: Header)

  /** What the client's stream yields when a request is read from it. */
  datatype Incoming = Ask(r: Parsed) | Garbled | Hangup

  // ------------------------------------------------------------------ validation

  datatype Verdict = Proceed | LoopDetected | ForbiddenPort | AnswerLocally

  predicate PortAllowed(cfg: Config, host: string) {
    var port := Denotes(host, "443").port;
    cfg.connectPorts == [] || "*" in cfg.connectPorts || port in cfg.connectPorts
  }

  /** `validateRequest`, in the order of its checks. */
  function Judge(cfg: Config, r: Parsed): Verdict {
    var prior := Get(r.header, VIA);
    if prior != "" && Contains(prior, cfg.pseudonym) then LoopDetected
    else if r.method' == "CONNECT" && !PortAllowed(cfg, r.host) then ForbiddenPort
    else if EndsHere(r.method', r.header) then AnswerLocally
    else Proceed
  }

  predicate Bypassed(cfg: Config, host: string)
    requires ValidConfig(cfg)
  {
    cfg.noProxy.Some? && cfg.noProxy.value.Covers(host)
  }

  /** A request for the same host as a bypassed one is bypassed too. */
  lemma {:induction false} StillBypassed(cfg: Config, host: HostValue, boundHost: HostValue)
    requires ValidConfig(cfg) && Bypassed(cfg, boundHost) && SameHost(host, boundHost, "80")
    ensures Bypassed(cfg, host)
  {
    SameHostSameMatch(cfg.noProxy.value, host, boundHost);
  }

  /** The header a request leaves with. On the way to the upstream proxy it gets the forwarding
      fields, with the identifier drawn for it, and the proxy's own credential if one is due. */
  function OnTheWire(cfg: Config, r: Parsed, token: Option<string>, id: Option<string>): Header {
    var h := Sanitized(Lowered(r.method', r.header), r.chunked);
    var h1 := if id.Some? then Stamped(cfg.forwarding, cfg.clientIP, id.value, r.host, h) else h;
    var h2 := if token.Some? then Set(h1, PROXY_AUTHORIZATION, "Negotiate " + token.value) else h1;
    Append(h2, VIA, r.proto + " " + cfg.pseudonym)
  }

  // ---------------------------------------------------------------------- history

  /** The connections a session opens: the reused one to the upstream proxy, one to a target it
      dials itself, and the two kinds a CONNECT opens. */
  datatype Kind = Upstream(token: string) | Direct(host: HostValue) | TunnelUp(token: string)
                | TunnelDirect(host: HostValue)

  /** A request written on a connection: which one, the identifier drawn for it, and its header as
      written. */
  datatype Sent = Sent(index: nat, id: string, header: Header)

  /** `results` are the successive reads of the connection's response stream; `http11` and `takes`
      are what each of them was given. `settled` says that the last request was written in full
      and left no deadline behind. */
  datatype Conn = Conn(kind: Kind, stream: seq<ReadOne>, sent: seq<Sent>, http11: seq<bool>, takes: seq<nat>,
                       results: seq<Drained>, rest: seq<ReadOne>, settled: bool)

  /** Local replies are the proxy's own; relayed ones went through `writeResponse`; the reply to a
      CONNECT is written on a path of its own. */
  datatype How = Local | Relayed | ConnectReply

  /** `from` is the connection and the read a relayed reply came from. */
  datatype Reply = Reply(index: nat, how: How, status: int, content: string, close: bool, afterCancel: bool,
                         written: bool, from: Option<(nat, nat)>)

  predicate Asked(admitted: seq<Incoming>, i: int) {
    0 <= i < |admitted| && admitted[i].Ask?
  }

  /** What is true of the j-th request on a connection of the given kind. */
  ghost predicate SentOk(cfg: Config, admitted: seq<Incoming>, kind: Kind, j: nat, s: Sent)
    requires ValidConfig(cfg)
  {
    && Asked(admitted, s.index)
    && var r := admitted[s.index].r;
    && Judge(cfg, r).Proceed?
    && match kind
       case Upstream(token) =>
         && r.method' != "CONNECT" && !Bypassed(cfg, r.host)
         && s.header == OnTheWire(cfg, r, if j == 0 then Some(token) else None, Some(s.id))
       case Direct(host) =>
         && r.method' != "CONNECT" && Bypassed(cfg, r.host) && SameHost(r.host, host, "80")
         && s.header == OnTheWire(cfg, r, None, None)
       case TunnelUp(token) =>
         && j == 0 && r.method' == "CONNECT" && !Bypassed(cfg, r.host)
         && s.header == OnTheWire(cfg, r, Some(token), Some(s.id))
       case TunnelDirect(_) => false
  }

  /** The reads so far are exactly what draining the stream request by request gives, and a request
      is written only after every earlier one got its final response. */
  ghost predicate ReadsOk(c: Conn) {
    && |c.http11| == |c.takes| == |c.results| <= |c.sent| <= |c.results| + 1
    && (c.results, c.rest) == DrainMany(c.stream, c.http11, c.takes)
    && (forall j :: 0 <= j < |c.sent| - 1 ==> c.results[j].result.Final?)
  }

  ghost predicate ConnOk(cfg: Config, admitted: seq<Incoming>, c: Conn)
    requires ValidConfig(cfg)
  {
    && ReadsOk(c)
    && (forall j :: 0 <= j < |c.sent| ==> SentOk(cfg, admitted, c.kind, j, c.sent[j]))
    && (forall j :: 0 <= j < |c.results| ==> c.http11[j] == !admitted[c.sent[j].index].r.http10)
  }

  ghost predicate ConnsOk(cfg: Config, admitted: seq<Incoming>, conns: seq<Conn>)
    requires ValidConfig(cfg)
  {
    forall c :: 0 <= c < |conns| ==> ConnOk(cfg, admitted, conns[c])
  }

  /** A reply that was relayed is the final response read for that very request. */
  ghost predicate FromOk(conns: seq<Conn>, r: Reply) {
    r.from.Some? ==>
      var (c, j) := r.from.value;
      && c < |conns| && j < |conns[c].results| <= |conns[c].sent|
      && conns[c].sent[j].index == r.index
      && conns[c].results[j].result.Final?
      && conns[c].results[j].result.resp.status == r.status && conns[c].results[j].result.resp.content == r.content
  }

  /** Request r is uploaded while its response may already be read. */
  predicate Races(r: Parsed, s: Sent) {
    r.hasBody && ExpectsContinue(s.header)
  }

  /** A relayed response says close if it was read so; otherwise only if its upload was racing it or
      shutdown had begun. */
  ghost predicate CloseOk(admitted: seq<Incoming>, conns: seq<Conn>, r: Reply)
    requires Asked(admitted, r.index) && FromOk(conns, r)
  {
    r.from.Some? ==>
      var (c, j) := r.from.value;
      var asked := conns[c].results[j].result.resp.close;
      && (asked ==> r.close)
      && (r.close ==> asked || (r.how.Relayed? && (r.afterCancel || Races(admitted[r.index].r, conns[c].sent[j]))))
  }

  const BAD_REQUEST := 400
  const FORBIDDEN := 403
  const BAD_GATEWAY := 502
  const GATEWAY_TIMEOUT := 504

  /** What the proxy itself may say to what it read from the client. */
  predicate OwnStatus(cfg: Config, x: Incoming, status: int) {
    if !x.Ask? then status == BAD_REQUEST
    else match Judge(cfg, x.r)
      case LoopDetected => status == BAD_GATEWAY
      case ForbiddenPort => status == FORBIDDEN
      case AnswerLocally => status == 200
      case Proceed =>
        status == BAD_GATEWAY || status == GATEWAY_TIMEOUT || (status == BAD_REQUEST && x.r.method' == "CONNECT")
  }

  /** A request is answered from outside only if it passed validation. */
  predicate Accepted(cfg: Config, admitted: seq<Incoming>, i: int) {
    Asked(admitted, i) && Judge(cfg, admitted[i].r).Proceed?
  }

  predicate Success(status: int) {
    200 <= status < 300
  }

  /** A CONNECT is granted only on the strength of the upstream's own grant or of a dialled target. */
  ghost predicate GrantOk(conns: seq<Conn>, admitted: seq<Incoming>, r: Reply) {
    Asked(admitted, r.index) && admitted[r.index].r.method' == "CONNECT" && Success(r.status) ==>
      && r.how.ConnectReply?
      && (r.from.None? ==> exists c :: 0 <= c < |conns| && conns[c].kind == TunnelDirect(admitted[r.index].r.host))
  }

  ghost predicate ReplyOk(cfg: Config, admitted: seq<Incoming>, conns: seq<Conn>, r: Reply) {
    && r.index < |admitted|
    && (r.how.Relayed? ==> r.from.Some?) && (r.how.Local? ==> r.from.None? && r.close)
    && FromOk(conns, r) && GrantOk(conns, admitted, r)
    && if r.how.Local? then OwnStatus(cfg, admitted[r.index], r.status)
       else
         && Accepted(cfg, admitted, r.index) && CloseOk(admitted, conns, r)
         && (r.how.ConnectReply? <==> admitted[r.index].r.method' == "CONNECT")
  }

  ghost predicate RepliesOk(cfg: Config, admitted: seq<Incoming>, conns: seq<Conn>, replies: seq<Reply>) {
    forall k :: 0 <= k < |replies| ==> ReplyOk(cfg, admitted, conns, replies[k])
  }

  /** A reply after which the client's connection carries no further request. */
  predicate LastWord(admitted: seq<Incoming>, r: Reply) {
    || r.close || !r.written || r.how.ConnectReply?
    || (Asked(admitted, r.index) && (admitted[r.index].r.http10 || admitted[r.index].r.close))
  }

  /** Replies come in request order, one each; nothing follows a last word, and a reply that started
      after cancellation is one. */
  ghost predicate OrderOk(admitted: seq<Incoming>, replies: seq<Reply>) {
    && |replies| <= |admitted| <= |replies| + 1
    && (forall k :: 0 <= k < |replies| ==> replies[k].index == k)
    && (forall k :: 0 <= k < |replies| && LastWord(admitted, replies[k]) ==> k == |admitted| - 1)
    && (forall k :: 0 <= k < |replies| && replies[k].afterCancel ==>
          k == |admitted| - 1 && (replies[k].close || replies[k].how.ConnectReply?))
  }

  type Places = map<nat, (nat, nat)>

  /** Request i was written as the given request of the given connection. */
  predicate WrittenAt(conns: seq<Conn>, place: (nat, nat), i: nat) {
    place.0 < |conns| && place.1 < |conns[place.0].sent| && conns[place.0].sent[place.1].index == i
  }

  /** Each admitted request is written at most once, on one connection. */
  ghost predicate PlacesOk(conns: seq<Conn>, places: Places) {
    && (forall c, j :: 0 <= c < |conns| && 0 <= j < |conns[c].sent| ==>
          conns[c].sent[j].index in places && places[conns[c].sent[j].index] == (c, j))
    && (forall i :: i in places ==> WrittenAt(conns, places[i], i))
  }

  /** What goes to the client: interim responses and replies. */
  datatype ToClient = Early(resp: Response) | Answered(reply: Reply)

  /** `places` says on which connection, and as which request of it, each request was written;
      `client` is everything written to the client, in order. */
  datatype Log = Log(admitted: seq<Incoming>, conns: seq<Conn>, replies: seq<Reply>, places: Places,
                     client: seq<ToClient>)

  function Earlies(rs: seq<Response>): seq<ToClient> {
    seq(|rs|, i requires 0 <= i < |rs| => Early(rs[i]))
  }

  /** What was read in answer to request i. */
  function ReadOf(conns: seq<Conn>, places: Places, i: nat): Option<Drained> {
    if i !in places then None
    else
      var (c, j) := places[i];
      if c < |conns| && j < |conns[c].results| then Some(conns[c].results[j]) else None
  }

  /** The interim responses relayed while request i was being exchanged. */
  function InterimsOf(conns: seq<Conn>, places: Places, i: nat): seq<Response> {
    match ReadOf(conns, places, i)
    case Some(d) => d.relayed
    case None => []
  }

  /** Where the final response to request i was read, if one was. */
  function Heard(conns: seq<Conn>, places: Places, i: nat): Option<(nat, nat)> {
    match ReadOf(conns, places, i)
    case Some(d) => if i in places && d.result.Final? then Some(places[i]) else None
    case None => None
  }

  /** The first k requests as the client must see them: each one's interim responses, then its reply. */
  function InOrder(conns: seq<Conn>, places: Places, replies: seq<Reply>, k: nat): seq<ToClient>
    requires k <= |replies|
  {
    if k == 0 then []
    else
      InOrder(conns, places, replies, k - 1) + Earlies(InterimsOf(conns, places, k - 1)) + [Answered(replies[k - 1])]
  }

  /** The client has seen that, and the interim responses of the request now being exchanged. A
      request whose final response was read is answered with it, and no other from outside. */
  ghost predicate StreamOk(conns: seq<Conn>, places: Places, replies: seq<Reply>, client: seq<ToClient>) {
    && client == InOrder(conns, places, replies, |replies|) + Earlies(InterimsOf(conns, places, |replies|))
    && (forall k :: 0 <= k < |replies| ==> replies[k].from == Heard(conns, places, k))
  }

  ghost predicate LogOk(cfg: Config, log: Log)
    requires ValidConfig(cfg)
  {
    && ConnsOk(cfg, log.admitted, log.conns) && RepliesOk(cfg, log.admitted, log.conns, log.replies)
    && PlacesOk(log.conns, log.places) && OrderOk(log.admitted, log.replies)
    && (forall i :: i in log.places ==> i < |log.admitted|)
    && StreamOk(log.conns, log.places, log.replies, log.client)
  }

  /** Credentials: at most one reused upstream connection, known to the session once dialled. */
  ghost predicate ProxyOk(log: Log, proxyConn: Option<nat>, tokens: nat) {
    && (forall c :: 0 <= c < |log.conns| && log.conns[c].kind.Upstream? ==> proxyConn == Some(c))
    && (proxyConn.Some? ==> proxyConn.value < |log.conns| && log.conns[proxyConn.value].kind.Upstream?)
    && tokens <= 2
  }

  /** Payload flows only after a granted CONNECT whose grant was written to the client. */
  ghost predicate TunnelOk(log: Log, tunnel: Option<nat>) {
    tunnel.Some? ==>
      && tunnel.value < |log.conns| && 0 < |log.replies| == |log.admitted|
      && var last := log.replies[|log.replies| - 1];
      && last.how.ConnectReply? && Success(last.status) && last.written
      && Asked(log.admitted, last.index) && log.admitted[last.index].r.method' == "CONNECT"
      && (if last.from.Some? then log.conns[tunnel.value].kind.TunnelUp? && last.from.value.0 == tunnel.value
          else log.conns[tunnel.value].kind == TunnelDirect(log.admitted[last.index].r.host))
  }

  /** A connection whose requests so far all got their final response and left nothing behind. */
  predicate Quiescent(c: Conn) {
    |c.sent| == |c.results| && (c.sent != [] ==> c.settled && c.results[|c.results| - 1].result.Final?)
  }

  /** The last word to the client was a granted CONNECT, and it got through. */
  predicate Granted(log: Log) {
    && log.replies != []
    && var last := log.replies[|log.replies| - 1];
       last.how.ConnectReply? && Success(last.status) && last.written
  }

  /** The upstream connection, if there is one, can carry another request. */
  ghost predicate Reusable(log: Log, proxyConn: Option<nat>) {
    proxyConn.Some? ==>
      proxyConn.value < |log.conns| && Quiescent(log.conns[proxyConn.value]) && log.conns[proxyConn.value].sent != []
  }

  /** Nothing has been said that ends the session. */
  ghost predicate MayContinue(log: Log) {
    forall k :: 0 <= k < |log.replies| ==> !LastWord(log.admitted, log.replies[k])
  }

  /** The last request on this connection was request i, and its exchange ended with nothing to
      tell the client: the client had left, or a target dialled directly did not answer. */
  predicate GaveUp(c: Conn, i: nat) {
    && 0 < |c.results| <= |c.sent| && c.sent[|c.results| - 1].index == i
    && var result := c.results[|c.results| - 1].result;
       result.ClientGone? || (c.kind.Direct? && !result.Final?)
  }

  /** Every admitted request has its reply, but for one whose exchange was given up. */
  ghost predicate Accounted(log: Log) {
    |log.replies| == |log.admitted| || exists c :: 0 <= c < |log.conns| && GaveUp(log.conns[c], |log.replies|)
  }

  /** The exchanges so far leave no choice but to end the session. */
  predicate MustEnd(log: Log) {
    || |log.replies| < |log.admitted|
    || (log.replies != [] && LastWord(log.admitted, log.replies[|log.replies| - 1]))
  }

  // ------------------------------------------------------------ how histories grow

  function NewConn(kind: Kind, stream: seq<ReadOne>): Conn {
    Conn(kind, stream, [], [], [], [], stream, true)
  }

  /** The next request is written on a connection. */
  function ConnWrote(c: Conn, s: Sent): Conn {
    c.(sent := c.sent + [s], settled := false)
  }

  /** Its response is read. */
  function ConnAnswered(c: Conn, http11: bool, takes: nat, settled: bool): Conn {
    var d := Drain(c.rest, http11, takes);
    c.(http11 := c.http11 + [http11], takes := c.takes + [takes], results := c.results + [d], rest := d.rest,
       settled := settled)
  }

  lemma {:induction false} AdmitKeepsHistory(cfg: Config, admitted: seq<Incoming>, conns: seq<Conn>,
                                             replies: seq<Reply>, x: Incoming)
    requires ValidConfig(cfg) && ConnsOk(cfg, admitted, conns) && RepliesOk(cfg, admitted, conns, replies)
    ensures ConnsOk(cfg, admitted + [x], conns) && RepliesOk(cfg, admitted + [x], conns, replies)
  {
    forall c | 0 <= c < |conns| ensures ConnOk(cfg, admitted + [x], conns[c]) {
      assert ConnOk(cfg, admitted, conns[c]);
      forall j | 0 <= j < |conns[c].sent| ensures SentOk(cfg, admitted + [x], conns[c].kind, j, conns[c].sent[j]) {
        assert SentOk(cfg, admitted, conns[c].kind, j, conns[c].sent[j]);
      }
    }
    forall k | 0 <= k < |replies| ensures ReplyOk(cfg, admitted + [x], conns, replies[k]) {
      assert ReplyOk(cfg, admitted, conns, replies[k]);
    }
  }

  predicate ConnGrows(c: Conn, c': Conn) {
    && c.kind == c'.kind && c.sent <= c'.sent && c.results <= c'.results
    && |c'.results| <= |c'.sent|
  }

  ghost predicate Grows(conns: seq<Conn>, conns': seq<Conn>) {
    |conns| <= |conns'| && forall c :: 0 <= c < |conns| ==> ConnGrows(conns[c], conns'[c])
  }

  /** A reply stays well founded while connections only gain requests and reads. */
  lemma {:induction false} RepliesStayOk(cfg: Config, admitted: seq<Incoming>, conns: seq<Conn>, conns': seq<Conn>,
                                         replies: seq<Reply>)
    requires RepliesOk(cfg, admitted, conns, replies) && Grows(conns, conns')
    ensures RepliesOk(cfg, admitted, conns', replies)
  {
    forall k | 0 <= k < |replies| ensures ReplyOk(cfg, admitted, conns', replies[k]) {
      assert ReplyOk(cfg, admitted, conns, replies[k]);
      ReplyStaysOk(cfg, admitted, conns, conns', replies[k]);
    }
  }

  lemma {:induction false} ReplyStaysOk(cfg: Config, admitted: seq<Incoming>, conns: seq<Conn>, conns': seq<Conn>,
                                        r: Reply)
    requires ReplyOk(cfg, admitted, conns, r) && Grows(conns, conns')
    ensures ReplyOk(cfg, admitted, conns', r)
  {
    if r.from.Some? {
      var (c, j) := r.from.value;
      assert ConnGrows(conns[c], conns'[c]);
    }
    if Asked(admitted, r.index) && admitted[r.index].r.method' == "CONNECT" && Success(r.status) && r.from.None? {
      var c :| 0 <= c < |conns| && conns[c].kind == TunnelDirect(admitted[r.index].r.host);
      assert ConnGrows(conns[c], conns'[c]);
    }
  }

  lemma {:induction false} OpenKeepsHistory(cfg: Config, admitted: seq<Incoming>, conns: seq<Conn>, replies: seq<Reply>,
                         places: Places, kind: Kind, stream: seq<ReadOne>)
    requires ValidConfig(cfg) && ConnsOk(cfg, admitted, conns) && RepliesOk(cfg, admitted, conns, replies)
             && PlacesOk(conns, places)
    ensures var conns' := conns + [NewConn(kind, stream)];
            ConnsOk(cfg, admitted, conns') && RepliesOk(cfg, admitted, conns', replies) && PlacesOk(conns', places)
  {
    hide PlacesOk, RepliesOk;
    var conns' := conns + [NewConn(kind, stream)];
    forall c | 0 <= c < |conns| ensures ConnOk(cfg, admitted, conns'[c]) && ConnGrows(conns[c], conns'[c]) {
      assert ConnOk(cfg, admitted, conns[c]);
    }
    SameSentKeepsPlaces(conns, conns', places);
    RepliesStayOk(cfg, admitted, conns, conns', replies);
  }

  /** Replacing one connection by a grown, well-formed one. */
  lemma {:induction false} ReplaceKeepsHistory(cfg: Config, admitted: seq<Incoming>, conns: seq<Conn>,
                                               replies: seq<Reply>, c: nat, new': Conn)
    requires ValidConfig(cfg) && ConnsOk(cfg, admitted, conns) && RepliesOk(cfg, admitted, conns, replies)
    requires c < |conns| && ConnGrows(conns[c], new') && ConnOk(cfg, admitted, new')
    ensures ConnsOk(cfg, admitted, conns[c := new']) && RepliesOk(cfg, admitted, conns[c := new'], replies)
  {
    var conns' := conns[c := new'];
    forall d | 0 <= d < |conns| ensures ConnOk(cfg, admitted, conns'[d]) && ConnGrows(conns[d], conns'[d]) {
      assert ConnOk(cfg, admitted, conns[d]);
    }
    RepliesStayOk(cfg, admitted, conns, conns', replies);
  }

  lemma {:induction false} WriteKeepsHistory(cfg: Config, admitted: seq<Incoming>, conns: seq<Conn>,
                                             replies: seq<Reply>, places: Places, c: nat, s: Sent)
    requires ValidConfig(cfg) && ConnsOk(cfg, admitted, conns) && RepliesOk(cfg, admitted, conns, replies)
             && PlacesOk(conns, places)
    requires c < |conns| && Quiescent(conns[c]) && s.index !in places
    requires SentOk(cfg, admitted, conns[c].kind, |conns[c].sent|, s)
    ensures var conns' := conns[c := ConnWrote(conns[c], s)];
            && ConnsOk(cfg, admitted, conns') && RepliesOk(cfg, admitted, conns', replies)
            && PlacesOk(conns', places[s.index := (c, |conns[c].sent|)])
  {
    ConnWroteOk(cfg, admitted, conns[c], s);
    ReplaceKeepsHistory(cfg, admitted, conns, replies, c, ConnWrote(conns[c], s));
    WriteKeepsPlaces(conns, places, c, s);
  }

  lemma {:induction false} SameSentKeepsPlaces(conns: seq<Conn>, conns': seq<Conn>, places: Places)
    requires PlacesOk(conns, places) && |conns| <= |conns'|
    requires forall c :: 0 <= c < |conns'| ==> conns'[c].sent == if c < |conns| then conns[c].sent else []
    ensures PlacesOk(conns', places)
  {
    forall i | i in places ensures WrittenAt(conns', places[i], i) {
      assert WrittenAt(conns, places[i], i);
    }
    forall c, j | 0 <= c < |conns'| && 0 <= j < |conns'[c].sent|
      ensures conns'[c].sent[j].index in places && places[conns'[c].sent[j].index] == (c, j)
    {
      assert conns'[c].sent[j] == conns[c].sent[j];
    }
  }

  lemma {:induction false} WriteKeepsPlaces(conns: seq<Conn>, places: Places, c: nat, s: Sent)
    requires PlacesOk(conns, places) && c < |conns| && s.index !in places
    ensures PlacesOk(conns[c := ConnWrote(conns[c], s)], places[s.index := (c, |conns[c].sent|)])
  {
    var conns' := conns[c := ConnWrote(conns[c], s)];
    var places' := places[s.index := (c, |conns[c].sent|)];
    forall d, j | 0 <= d < |conns'| && 0 <= j < |conns'[d].sent|
      ensures conns'[d].sent[j].index in places' && places'[conns'[d].sent[j].index] == (d, j)
    {
      if d != c || j < |conns[c].sent| { assert conns'[d].sent[j] == conns[d].sent[j]; }
    }
    forall i | i in places' ensures WrittenAt(conns', places'[i], i) {
      if i != s.index { assert WrittenAt(conns, places[i], i); }
    }
  }

  lemma {:induction false} AnswerKeepsHistory(cfg: Config, admitted: seq<Incoming>, conns: seq<Conn>,
                                              replies: seq<Reply>, places: Places, c: nat, http11: bool,
                                              takes: nat, settled: bool)
    requires ValidConfig(cfg) && ConnsOk(cfg, admitted, conns) && RepliesOk(cfg, admitted, conns, replies)
             && PlacesOk(conns, places)
    requires c < |conns| && |conns[c].sent| == |conns[c].results| + 1
    requires Asked(admitted, conns[c].sent[|conns[c].results|].index)
    requires http11 == !admitted[conns[c].sent[|conns[c].results|].index].r.http10
    ensures var conns' := conns[c := ConnAnswered(conns[c], http11, takes, settled)];
            ConnsOk(cfg, admitted, conns') && RepliesOk(cfg, admitted, conns', replies) && PlacesOk(conns', places)
  {
    hide PlacesOk, RepliesOk, ConnsOk, Drain;
    ConnIsOk(cfg, admitted, conns, c);
    ConnAnsweredOk(cfg, admitted, conns[c], http11, takes, settled);
    ReplaceKeepsHistory(cfg, admitted, conns, replies, c, ConnAnswered(conns[c], http11, takes, settled));
    SameSentKeepsPlaces(conns, conns[c := ConnAnswered(conns[c], http11, takes, settled)], places);
  }

  lemma {:induction false} ConnIsOk(cfg: Config, admitted: seq<Incoming>, conns: seq<Conn>, c: nat)
    requires ValidConfig(cfg) && ConnsOk(cfg, admitted, conns) && c < |conns|
    ensures ConnOk(cfg, admitted, conns[c])
  {}

  lemma {:induction false} ConnWroteOk(cfg: Config, admitted: seq<Incoming>, c: Conn, s: Sent)
    requires ValidConfig(cfg) && ConnOk(cfg, admitted, c) && Quiescent(c)
    requires SentOk(cfg, admitted, c.kind, |c.sent|, s)
    ensures ConnOk(cfg, admitted, ConnWrote(c, s)) && ConnGrows(c, ConnWrote(c, s))
  {
    hide SentOk, DrainMany;
    var c' := ConnWrote(c, s);
    forall j | 0 <= j < |c'.sent| ensures SentOk(cfg, admitted, c'.kind, j, c'.sent[j]) {
      if j < |c.sent| { assert c'.sent[j] == c.sent[j]; }
    }
    assert ReadsOk(c');
  }

  lemma {:induction false} ConnAnsweredOk(cfg: Config, admitted: seq<Incoming>, c: Conn, http11: bool, takes: nat,
                                          settled: bool)
    requires ValidConfig(cfg) && ConnOk(cfg, admitted, c) && |c.sent| == |c.results| + 1
    requires Asked(admitted, c.sent[|c.results|].index)
    requires http11 == !admitted[c.sent[|c.results|].index].r.http10
    ensures ConnOk(cfg, admitted, ConnAnswered(c, http11, takes, settled))
    ensures ConnGrows(c, ConnAnswered(c, http11, takes, settled))
  {
    hide SentOk, Drain, DrainMany;
    DrainOneMore(c, http11, takes);
  }

  lemma {:induction false} DrainOneMore(c: Conn, http11: bool, takes: nat)
    requires ReadsOk(c)
    ensures var d := Drain(c.rest, http11, takes);
            (c.results + [d], d.rest) == DrainMany(c.stream, c.http11 + [http11], c.takes + [takes])
  {
    assert (c.http11 + [http11])[..|c.http11|] == c.http11;
    assert (c.takes + [takes])[..|c.takes|] == c.takes;
  }

  // -------------------------------------------------------------- the client's stream

  lemma {:induction false} SameReads(conns: seq<Conn>, places: Places, conns': seq<Conn>, places': Places,
                                        replies: seq<Reply>, k: nat)
    requires k <= |replies|
    requires forall i: nat :: i < k ==> ReadOf(conns', places', i) == ReadOf(conns, places, i)
    ensures InOrder(conns', places', replies, k) == InOrder(conns, places, replies, k)
  {
    if k > 0 {
      SameReads(conns, places, conns', places', replies, k - 1);
      assert ReadOf(conns', places', k - 1) == ReadOf(conns, places, k - 1);
    }
  }

  lemma {:induction false} SameReplies(conns: seq<Conn>, places: Places, replies: seq<Reply>, r: Reply, k: nat)
    requires k <= |replies|
    ensures InOrder(conns, places, replies + [r], k) == InOrder(conns, places, replies, k)
  {
    if k > 0 { SameReplies(conns, places, replies, r, k - 1); }
  }

  lemma {:induction false} OpenKeepsReads(conns: seq<Conn>, places: Places, new': Conn, i: nat)
    requires PlacesOk(conns, places)
    ensures ReadOf(conns + [new'], places, i) == ReadOf(conns, places, i)
  {
    if i in places { assert WrittenAt(conns, places[i], i); }
  }

  lemma {:induction false} WriteKeepsReads(conns: seq<Conn>, places: Places, c: nat, s: Sent, i: nat)
    requires c < |conns| && s.index !in places && |conns[c].results| <= |conns[c].sent|
    ensures ReadOf(conns[c := ConnWrote(conns[c], s)], places[s.index := (c, |conns[c].sent|)], i)
         == ReadOf(conns, places, i)
  {
    var conns' := conns[c := ConnWrote(conns[c], s)];
    var places' := places[s.index := (c, |conns[c].sent|)];
    assert |conns'| == |conns| && forall d :: 0 <= d < |conns| ==> conns'[d].results == conns[d].results;
    if i in places {
      assert places'[i] == places[i];
    }
  }

  lemma {:induction false} ReadAddsRead(conns: seq<Conn>, places: Places, c: nat, http11: bool, takes: nat,
                                            settled: bool, i: nat)
    requires PlacesOk(conns, places) && c < |conns| && |conns[c].sent| == |conns[c].results| + 1
    ensures ReadOf(conns[c := ConnAnswered(conns[c], http11, takes, settled)], places, i)
         == if i == conns[c].sent[|conns[c].results|].index then Some(Drain(conns[c].rest, http11, takes))
            else ReadOf(conns, places, i)
  {
    if i in places { assert WrittenAt(conns, places[i], i); }
  }

  lemma {:induction false} OpenKeepsStream(log: Log, kind: Kind, stream: seq<ReadOne>)
    requires PlacesOk(log.conns, log.places) && StreamOk(log.conns, log.places, log.replies, log.client)
    ensures var log' := OpenConn(log, kind, stream); StreamOk(log'.conns, log'.places, log'.replies, log'.client)
  {
    var log' := OpenConn(log, kind, stream);
    forall i: nat ensures ReadOf(log'.conns, log.places, i) == ReadOf(log.conns, log.places, i) {
      OpenKeepsReads(log.conns, log.places, NewConn(kind, stream), i);
    }
    SameReads(log.conns, log.places, log'.conns, log'.places, log.replies, |log.replies|);
  }

  lemma {:induction false} WriteKeepsStream(log: Log, c: nat, s: Sent)
    requires StreamOk(log.conns, log.places, log.replies, log.client)
    requires c < |log.conns| && s.index !in log.places && |log.conns[c].results| <= |log.conns[c].sent|
    ensures var log' := WriteOn(log, c, s); StreamOk(log'.conns, log'.places, log'.replies, log'.client)
  {
    var log' := WriteOn(log, c, s);
    forall i: nat ensures ReadOf(log'.conns, log'.places, i) == ReadOf(log.conns, log.places, i) {
      WriteKeepsReads(log.conns, log.places, c, s, i);
    }
    SameReads(log.conns, log.places, log'.conns, log'.places, log.replies, |log.replies|);
  }

  /** Reading the response to the request that is owed a reply adds its interim responses. */
  lemma {:induction false} ReadKeepsStream(log: Log, c: nat, http11: bool, takes: nat, settled: bool)
    requires PlacesOk(log.conns, log.places) && StreamOk(log.conns, log.places, log.replies, log.client)
    requires c < |log.conns| && |log.conns[c].sent| == |log.conns[c].results| + 1
    requires log.conns[c].sent[|log.conns[c].results|].index == |log.replies|
    ensures var log' := ReadOn(log, c, http11, takes, settled);
            StreamOk(log'.conns, log'.places, log'.replies, log'.client)
  {
    var log' := ReadOn(log, c, http11, takes, settled);
    var n := |log.replies|;
    forall i: nat | i < n ensures ReadOf(log'.conns, log'.places, i) == ReadOf(log.conns, log.places, i) {
      ReadAddsRead(log.conns, log.places, c, http11, takes, settled, i);
    }
    SameReads(log.conns, log.places, log'.conns, log'.places, log.replies, n);
    ReadAddsRead(log.conns, log.places, c, http11, takes, settled, n);
    assert log.places[n] == (c, |log.conns[c].results|);
    assert ReadOf(log.conns, log.places, n) == None;
  }

  lemma {:induction false} ReplyKeepsStream(log: Log, r: Reply)
    requires StreamOk(log.conns, log.places, log.replies, log.client) && |log.replies| + 1 !in log.places
    requires r.from == Heard(log.conns, log.places, |log.replies|)
    ensures var log' := AddReply(log, r); StreamOk(log'.conns, log'.places, log'.replies, log'.client)
  {
    SameReplies(log.conns, log.places, log.replies, r, |log.replies|);
    assert Earlies([]) == [];
  }

  // ---------------------------------------------------------------- steps of the log

  function Admit(log: Log, x: Incoming): Log {
    log.(admitted := log.admitted + [x])
  }

  function OpenConn(log: Log, kind: Kind, stream: seq<ReadOne>): Log {
    log.(conns := log.conns + [NewConn(kind, stream)])
  }

  function WriteOn(log: Log, c: nat, s: Sent): Log
    requires c < |log.conns|
  {
    log.(conns := log.conns[c := ConnWrote(log.conns[c], s)], places := log.places[s.index := (c, |log.conns[c].sent|)])
  }

  function ReadOn(log: Log, c: nat, http11: bool, takes: nat, settled: bool): Log
    requires c < |log.conns|
  {
    log.(conns := log.conns[c := ConnAnswered(log.conns[c], http11, takes, settled)],
         client := log.client + Earlies(Drain(log.conns[c].rest, http11, takes).relayed))
  }

  function AddReply(log: Log, r: Reply): Log {
    log.(replies := log.replies + [r], client := log.client + [Answered(r)])
  }

  lemma {:induction false} AdmitOk(cfg: Config, log: Log, x: Incoming)
    requires ValidConfig(cfg) && LogOk(cfg, log) && MayContinue(log) && |log.replies| == |log.admitted|
    ensures LogOk(cfg, Admit(log, x)) && MayContinue(Admit(log, x)) && |log.admitted| !in Admit(log, x).places
  {
    hide ConnsOk, RepliesOk, PlacesOk, StreamOk;
    AdmitKeepsHistory(cfg, log.admitted, log.conns, log.replies, x);
  }

  lemma {:induction false} AdmitKeepsProxy(log: Log, x: Incoming, proxyConn: Option<nat>, tokens: nat)
    requires ProxyOk(log, proxyConn, tokens) && Reusable(log, proxyConn)
    ensures ProxyOk(Admit(log, x), proxyConn, tokens) && Reusable(Admit(log, x), proxyConn)
  {}

  lemma {:induction false} OpenConnOk(cfg: Config, log: Log, kind: Kind, stream: seq<ReadOne>)
    requires ValidConfig(cfg) && LogOk(cfg, log)
    ensures LogOk(cfg, OpenConn(log, kind, stream))
  {
    OpenKeepsHistory(cfg, log.admitted, log.conns, log.replies, log.places, kind, stream);
    OpenKeepsStream(log, kind, stream);
  }

  lemma {:induction false} WriteOnOk(cfg: Config, log: Log, c: nat, s: Sent)
    requires ValidConfig(cfg) && LogOk(cfg, log)
    requires c < |log.conns| && Quiescent(log.conns[c]) && s.index !in log.places
    requires SentOk(cfg, log.admitted, log.conns[c].kind, |log.conns[c].sent|, s)
    ensures LogOk(cfg, WriteOn(log, c, s))
  {
    WriteKeepsHistory(cfg, log.admitted, log.conns, log.replies, log.places, c, s);
    WriteKeepsStream(log, c, s);
  }

  lemma {:induction false} ReadOnOk(cfg: Config, log: Log, c: nat, http11: bool, takes: nat, settled: bool)
    requires ValidConfig(cfg) && LogOk(cfg, log)
    requires c < |log.conns| && |log.conns[c].sent| == |log.conns[c].results| + 1
    requires log.conns[c].sent[|log.conns[c].results|].index == |log.replies| && Asked(log.admitted, |log.replies|)
    requires http11 == !log.admitted[log.conns[c].sent[|log.conns[c].results|].index].r.http10
    ensures LogOk(cfg, ReadOn(log, c, http11, takes, settled))
  {
    AnswerKeepsHistory(cfg, log.admitted, log.conns, log.replies, log.places, c, http11, takes, settled);
    ReadKeepsStream(log, c, http11, takes, settled);
  }

  lemma {:induction false} AddReplyOk(cfg: Config, log: Log, r: Reply)
    requires ValidConfig(cfg) && LogOk(cfg, log) && MayContinue(log) && |log.admitted| == |log.replies| + 1
    requires ReplyOk(cfg, log.admitted, log.conns, r) && r.index == |log.replies|
    requires r.from == Heard(log.conns, log.places, |log.replies|)
    requires r.afterCancel ==> r.close || r.how.ConnectReply?
    ensures LogOk(cfg, AddReply(log, r))
  {
    hide ConnsOk, PlacesOk, ReplyOk, StreamOk, Heard;
    ReplyKeepsStream(log, r);
    var replies := log.replies + [r];
    forall k | 0 <= k < |replies| ensures ReplyOk(cfg, log.admitted, log.conns, replies[k]) {
      if k < |log.replies| { assert ReplyOk(cfg, log.admitted, log.conns, log.replies[k]); }
    }
  }

  /** The proxy's own replies need no foundation. */
  lemma {:induction false} LocalReplyIsFounded(cfg: Config, admitted: seq<Incoming>, conns: seq<Conn>, i: nat,
                                               status: int)
    requires i < |admitted| && OwnStatus(cfg, admitted[i], status)
    ensures ReplyOk(cfg, admitted, conns, Reply(i, Local, status, "", true, false, true, None))
  {}

  lemma {:induction false} ContinueMeansNotGranted(log: Log)
    ensures MayContinue(log) ==> !Granted(log)
  {}

  /** A reply stays well founded if shutdown makes a relayed one say close. */
  lemma {:induction false} ReplyStaysFounded(cfg: Config, admitted: seq<Incoming>, conns: seq<Conn>, r: Reply,
                                             r': Reply)
    requires ReplyOk(cfg, admitted, conns, r) && !r.afterCancel && (r.close ==> r'.close)
    requires r'.close ==> r.close || (r'.how.Relayed? && r'.afterCancel)
    requires r' == r.(close := r'.close, afterCancel := r'.afterCancel, written := r'.written)
    ensures ReplyOk(cfg, admitted, conns, r')
  {}

  /** Only connection c saw traffic. */
  ghost predicate OthersSame(conns: seq<Conn>, conns': seq<Conn>, c: nat) {
    && |conns'| == |conns| && c < |conns| && conns'[c].kind == conns[c].kind
    && (forall d :: 0 <= d < |conns| && d != c ==> conns'[d] == conns[d])
  }

  ghost predicate OnlyConn(log: Log, log': Log, c: nat) {
    log'.admitted == log.admitted && log'.replies == log.replies && OthersSame(log.conns, log'.conns, c)
  }

  lemma {:induction false} OnlyConnKeepsProxy(log: Log, log': Log, c: nat, proxyConn: Option<nat>, tokens: nat)
    requires OnlyConn(log, log', c) && ProxyOk(log, proxyConn, tokens)
    ensures ProxyOk(log', proxyConn, tokens) && (MayContinue(log) ==> MayContinue(log'))
  {
    forall d | 0 <= d < |log'.conns| ensures log'.conns[d].kind == log.conns[d].kind {}
  }

  lemma {:induction false} OthersSameKeepsReusable(log: Log, log': Log, c: nat, proxyConn: Option<nat>, tokens: nat)
    requires OthersSame(log.conns, log'.conns, c) && ProxyOk(log, proxyConn, tokens) && Reusable(log, proxyConn)
    requires !log.conns[c].kind.Upstream?
    ensures Reusable(log', proxyConn)
  {}

  /** A request can be written next on connection c. */
  ghost predicate CanWrite(cfg: Config, log: Log, c: nat, s: Sent)
    requires ValidConfig(cfg)
  {
    && c < |log.conns| && Quiescent(log.conns[c]) && s.index !in log.places && s.index == |log.replies|
    && SentOk(cfg, log.admitted, log.conns[c].kind, |log.conns[c].sent|, s)
  }

  lemma {:induction false} WriteStep(cfg: Config, log: Log, c: nat, s: Sent)
    requires ValidConfig(cfg) && LogOk(cfg, log) && CanWrite(cfg, log, c, s)
    ensures var log' := WriteOn(log, c, s);
            && LogOk(cfg, log') && OnlyConn(log, log', c)
            && Heard(log'.conns, log'.places, s.index) == None && ReadOf(log'.conns, log'.places, s.index) == None
  {
    hide LogOk, SentOk;
    WriteOnOk(cfg, log, c, s);
  }

  function Exchanged(log: Log, c: nat, s: Sent, http11: bool, takes: nat, settled: bool): Log
    requires c < |log.conns|
  {
    ReadOn(WriteOn(log, c, s), c, http11, takes, settled)
  }

  lemma {:induction false} ExchangeStep(cfg: Config, log: Log, c: nat, s: Sent, takes: nat, settled: bool)
    requires ValidConfig(cfg) && LogOk(cfg, log) && CanWrite(cfg, log, c, s)
    ensures var http11 := !log.admitted[s.index].r.http10;
            var log' := Exchanged(log, c, s, http11, takes, settled);
            var n := |log.conns[c].sent|;
            && LogOk(cfg, log') && OnlyConn(log, log', c)
            && |log'.conns[c].sent| == |log'.conns[c].results| == n + 1 && log'.conns[c].settled == settled
            && log'.conns[c].sent[n] == s && log'.conns[c].results[n] == Drain(log.conns[c].rest, http11, takes)
            && ReadOf(log'.conns, log'.places, s.index) == Some(log'.conns[c].results[n])
            && Heard(log'.conns, log'.places, s.index)
               == (if log'.conns[c].results[n].result.Final? then Some((c, n)) else None)
  {
    hide LogOk, Drain;
    var log1 := WriteOn(log, c, s);
    WriteStep(cfg, log, c, s);
    assert log1.conns[c].sent[|log.conns[c].results|] == s;
    ReadOnOk(cfg, log1, c, !log.admitted[s.index].r.http10, takes, settled);
  }

  /** The first upstream connection of a session. */
  lemma {:induction false} OpenUpstreamStep(cfg: Config, log: Log, token: string, stream: seq<ReadOne>, tokens: nat)
    requires ValidConfig(cfg) && LogOk(cfg, log) && ProxyOk(log, None, tokens)
    ensures var log' := OpenConn(log, Upstream(token), stream);
            LogOk(cfg, log') && ProxyOk(log', Some(|log.conns|), tokens) && (MayContinue(log) ==> MayContinue(log'))
  {
    OpenConnOk(cfg, log, Upstream(token), stream);
  }

  /** Any other connection. */
  lemma {:induction false} OpenOtherStep(cfg: Config, log: Log, kind: Kind, stream: seq<ReadOne>,
                                         proxyConn: Option<nat>, tokens: nat)
    requires ValidConfig(cfg) && LogOk(cfg, log) && ProxyOk(log, proxyConn, tokens) && !kind.Upstream?
    ensures var log' := OpenConn(log, kind, stream);
            LogOk(cfg, log') && ProxyOk(log', proxyConn, tokens) && (MayContinue(log) ==> MayContinue(log'))
  {
    OpenConnOk(cfg, log, kind, stream);
  }

  // --------------------------------------------- what a well-formed history means

  /** The credential, and the identifier for the forwarding fields, that request j on c leaves with. */
  function TokenOf(c: Conn, j: nat): Option<string> {
    if j == 0 && (c.kind.Upstream? || c.kind.TunnelUp?) then Some(c.kind.token) else None
  }

  function IdOf(c: Conn, j: nat): Option<string>
    requires j < |c.sent|
  {
    if c.kind.Upstream? || c.kind.TunnelUp? then Some(c.sent[j].id) else None
  }

  lemma {:induction false} WrittenAsMade(cfg: Config, log: Log, c: nat, j: nat)
    requires ValidConfig(cfg) && LogOk(cfg, log) && c < |log.conns| && j < |log.conns[c].sent|
    ensures var s := log.conns[c].sent[j];
            && Accepted(cfg, log.admitted, s.index)
            && s.header == OnTheWire(cfg, log.admitted[s.index].r, TokenOf(log.conns[c], j), IdOf(log.conns[c], j))
  {
    hide Judge, OnTheWire, Bypassed, Canon;
    assert ConnOk(cfg, log.admitted, log.conns[c]);
    assert SentOk(cfg, log.admitted, log.conns[c].kind, j, log.conns[c].sent[j]);
  }

  /** A request leaves with a Proxy-Authorization exactly when it opens a connection to the
      upstream proxy, and then it is the proxy's own; nothing of the client's ever leaves. */
  lemma {:induction false} CredentialsAreTheProxysOwn(cfg: Config, log: Log, c: nat, j: nat)
    requires ValidConfig(cfg) && LogOk(cfg, log) && c < |log.conns| && j < |log.conns[c].sent|
    ensures var h := log.conns[c].sent[j].header;
            var k := log.conns[c].kind;
            if j == 0 && (k.Upstream? || k.TunnelUp?)
            then PROXY_AUTHORIZATION in h && h[PROXY_AUTHORIZATION] == ["Negotiate " + k.token]
            else PROXY_AUTHORIZATION !in h
  {
    hide LogOk, OnTheWire;
    WrittenAsMade(cfg, log, c, j);
    var conn := log.conns[c];
    WireCredential(cfg, log.admitted[conn.sent[j].index].r, TokenOf(conn, j), IdOf(conn, j));
  }

  lemma {:induction false} WireCredential(cfg: Config, r: Parsed, token: Option<string>, id: Option<string>)
    ensures var h := OnTheWire(cfg, r, token, id);
            if token.Some? then PROXY_AUTHORIZATION in h && h[PROXY_AUTHORIZATION] == ["Negotiate " + token.value]
            else PROXY_AUTHORIZATION !in h
  {
    assert PROXY_AUTHORIZATION in HOP_BY_HOP && PROXY_AUTHORIZATION != VIA;
    assert PROXY_AUTHORIZATION !in FORWARDING_FIELDS;
  }

  /** Whatever the connection, a request leaves as the header pipeline makes it, but for the
      credential and the forwarding fields; on a connection dialled directly, exactly so. */
  lemma {:induction false} WireIsForwardedPlusOwnFields(cfg: Config, r: Parsed, token: Option<string>,
                                                        id: Option<string>)
    ensures OnTheWire(cfg, r, token, id) - FORWARDING_FIELDS - {PROXY_AUTHORIZATION}
         == Forwarded(r.method', r.chunked, r.header, r.proto, cfg.pseudonym)
            - FORWARDING_FIELDS - {PROXY_AUTHORIZATION}
    ensures token.None? && id.None? ==>
              OnTheWire(cfg, r, token, id) == Forwarded(r.method', r.chunked, r.header, r.proto, cfg.pseudonym)
  {
    hide Stamped, Sanitized, Lowered;
    var h := Sanitized(Lowered(r.method', r.header), r.chunked);
    if id.Some? { StampTouchesOnlyItsFields(cfg.forwarding, cfg.clientIP, id.value, r.host, h); }
    var h1 := if id.Some? then Stamped(cfg.forwarding, cfg.clientIP, id.value, r.host, h) else h;
    assert h1 - FORWARDING_FIELDS == h - FORWARDING_FIELDS;
    CredentialBesideVia(h, h1, token, r.proto + " " + cfg.pseudonym);
  }

  lemma {:induction false} CredentialBesideVia(h: Header, h1: Header, token: Option<string>, entry: string)
    requires h1 - FORWARDING_FIELDS == h - FORWARDING_FIELDS
    ensures var h2 := if token.Some? then Set(h1, PROXY_AUTHORIZATION, "Negotiate " + token.value) else h1;
            Append(h2, VIA, entry) - FORWARDING_FIELDS - {PROXY_AUTHORIZATION}
            == Append(h, VIA, entry) - FORWARDING_FIELDS - {PROXY_AUTHORIZATION}
  {
    var own := FORWARDING_FIELDS + {PROXY_AUTHORIZATION};
    assert VIA !in own;
    forall k | k !in own ensures (k in h1 <==> k in h) && (k in h ==> h1[k] == h[k]) {
      assert k in h1 <==> k in h1 - FORWARDING_FIELDS;
      assert k in h <==> k in h - FORWARDING_FIELDS;
    }
  }

  /** Every request that leaves has passed validation and carries the proxy's pseudonym once. */
  lemma {:induction false} EveryForwardedRequestHasOneOwnVia(cfg: Config, log: Log, c: nat, j: nat, i: int)
    requires ValidConfig(cfg) && LogOk(cfg, log) && c < |log.conns| && j < |log.conns[c].sent|
    requires ProperPseudonym(cfg.pseudonym)
    requires Asked(log.admitted, log.conns[c].sent[j].index)
             && !Contains(log.admitted[log.conns[c].sent[j].index].r.proto, cfg.pseudonym)
    ensures var h := log.conns[c].sent[j].header;
            && VIA in h && |h[VIA]| == 1
            && (OccursAt(h[VIA][0], cfg.pseudonym, i) <==> i == |h[VIA][0]| - |cfg.pseudonym|)
  {
    hide LogOk, OnTheWire;
    var conn := log.conns[c];
    var r := log.admitted[conn.sent[j].index].r;
    WrittenAsMade(cfg, log, c, j);
    LoopDetectionReadsTheFirstLine(cfg, r);
    OwnViaAppearsOnce(r.method', r.chunked, r.header, r.proto, cfg.pseudonym, i);
    WireVia(cfg, r, TokenOf(conn, j), IdOf(conn, j));
  }

  lemma {:induction false} WireVia(cfg: Config, r: Parsed, token: Option<string>, id: Option<string>)
    ensures VIA in OnTheWire(cfg, r, token, id)
    ensures OnTheWire(cfg, r, token, id)[VIA] == Forwarded(r.method', r.chunked, r.header, r.proto, cfg.pseudonym)[VIA]
  {
    WireIsForwardedPlusOwnFields(cfg, r, token, id);
    var f := Forwarded(r.method', r.chunked, r.header, r.proto, cfg.pseudonym);
    var rest, wire := f - FORWARDING_FIELDS - {PROXY_AUTHORIZATION}, OnTheWire(cfg, r, token, id);
    assert VIA in rest && rest[VIA] == f[VIA];
    assert VIA in wire && wire[VIA] == (wire - FORWARDING_FIELDS - {PROXY_AUTHORIZATION})[VIA];
  }

  // ----------------------------------------------------------- loops on later Via lines

  ghost predicate OnSomeViaLine(h: Header, pseudonym: string) {
    exists i :: 0 <= i < |ViaLines(h)| && Contains(ViaLines(h)[i], pseudonym)
  }

  /** A loop is detected if and only if the pseudonym is on the first Via line. */
  lemma {:induction false} LoopDetectionReadsTheFirstLine(cfg: Config, r: Parsed)
    requires ValidConfig(cfg)
    ensures Judge(cfg, r).LoopDetected? <==>
            ViaLines(r.header) != [] && Contains(ViaLines(r.header)[0], cfg.pseudonym)
    ensures Judge(cfg, r).LoopDetected? <==> Contains(Get(r.header, VIA), cfg.pseudonym)
  {}

  /** So detection is right about a request exactly when its first Via line carries the pseudonym
      whenever some line does. */
  lemma {:induction false} LoopDetectionIsRightExactlyWhen(cfg: Config, r: Parsed)
    requires ValidConfig(cfg)
    ensures (Judge(cfg, r).LoopDetected? <==> OnSomeViaLine(r.header, cfg.pseudonym))
            <==> forall i :: 0 <= i < |ViaLines(r.header)| && Contains(ViaLines(r.header)[i], cfg.pseudonym) ==>
                   Contains(ViaLines(r.header)[0], cfg.pseudonym)
  {
    LoopDetectionReadsTheFirstLine(cfg, r);
    if ViaLines(r.header) != [] && Contains(ViaLines(r.header)[0], cfg.pseudonym) {
      assert OnSomeViaLine(r.header, cfg.pseudonym);
    }
  }

  lemma {:induction false} LaterLineDetected()
    ensures Contains("1.1 me", "me") && !Contains("1.1 a", "me")
  {
    var s := "1.1 a";
    assert OccursAt("1.1 me", "me", 4);
    forall i: int ensures !OccursAt(s, "me", i) {
      if 0 <= i <= 3 {
        assert s[i..i + 2][0] == s[i];
      }
    }
  }

  /** It can be wrong: here the request has been through this proxy, is forwarded again, and the
      line that says so is lost. */
  lemma {:induction false} LaterViaLineIsOverlooked(cfg: Config, r: Parsed)
    requires ValidConfig(cfg) && cfg.pseudonym == "me" && r.method' == "GET" && r.proto == "HTTP/1.1"
    requires r.header == map[VIA := ["1.1 a", "1.1 me"]]
    ensures Judge(cfg, r).Proceed? && OnSomeViaLine(r.header, cfg.pseudonym)
    ensures OnTheWire(cfg, r, None, None)[VIA] == ["1.1 a, HTTP/1.1 me"]
  {
    LaterLineDetected();
    assert Contains(ViaLines(r.header)[1], cfg.pseudonym);
    assert Get(r.header, VIA) == "1.1 a";
    LoopDetectionReadsTheFirstLine(cfg, r);
    assert ConnectionNames(r.header) == {} && VIA !in HOP_BY_HOP && VIA != CONTENT_LENGTH;
    var h := Sanitized(Lowered(r.method', r.header), r.chunked);
    assert Lowered(r.method', r.header) == r.header;
    assert Get(h, VIA) == "1.1 a";
    assert "1.1 a" + ", " + ("HTTP/1.1" + " " + "me") == "1.1 a, HTTP/1.1 me";
  }

  /** The verdict on a request, from what it says: a loop is on its first Via line; a CONNECT needs a
      listed port, 443 if it names none; TRACE and OPTIONS end here at a count of zero or less. */
  lemma {:induction false} VerdictExactlyWhen(cfg: Config, r: Parsed, hp: HostPort)
    requires ValidConfig(cfg) && Written(r.host, hp, "443")
    ensures var looped := ViaLines(r.header) != [] && Contains(ViaLines(r.header)[0], cfg.pseudonym);
            var refused := && r.method' == "CONNECT" && cfg.connectPorts != []
                           && "*" !in cfg.connectPorts && hp.port !in cfg.connectPorts;
            var spent := (r.method' == "TRACE" || r.method' == "OPTIONS")
                         && exists n :: Atoi(Get(r.header, "Max-Forwards")) == Some(n) && n <= 0;
            && (Judge(cfg, r).LoopDetected? <==> looped)
            && (Judge(cfg, r).ForbiddenPort? <==> !looped && refused)
            && (Judge(cfg, r).AnswerLocally? <==> !looped && spent)
            && (Judge(cfg, r).Proceed? <==> !looped && !refused && !spent)
  {
    hide Written, Denotes;
    LoopDetectionReadsTheFirstLine(cfg, r);
    DenotesAsWritten(r.host, hp, "443");
    var mf := Get(r.header, "Max-Forwards");
    assert Atoi("") == None;
    if Atoi(mf).Some? { assert Atoi(mf) == Some(Atoi(mf).value); }
  }

  /** A request that fails validation is answered by the proxy itself with the status of the check
      that failed, and is written on no connection. */
  lemma {:induction false} RejectedRequestsGoNowhere(cfg: Config, log: Log, i: nat, c: nat, j: nat)
    requires ValidConfig(cfg) && LogOk(cfg, log) && Asked(log.admitted, i) && !Judge(cfg, log.admitted[i].r).Proceed?
    ensures i < |log.replies| ==>
              && log.replies[i].how.Local?
              && log.replies[i].status == match Judge(cfg, log.admitted[i].r)
                                          case LoopDetected => BAD_GATEWAY
                                          case ForbiddenPort => FORBIDDEN
                                          case _ => 200
    ensures c < |log.conns| && j < |log.conns[c].sent| ==> log.conns[c].sent[j].index != i
  {
    if i < |log.replies| {
      assert ReplyOk(cfg, log.admitted, log.conns, log.replies[i]);
    }
    if c < |log.conns| && j < |log.conns[c].sent| {
      assert ConnOk(cfg, log.admitted, log.conns[c]);
      assert SentOk(cfg, log.admitted, log.conns[c].kind, j, log.conns[c].sent[j]);
    }
  }

  /** No request is written twice, on one connection or on two. */
  lemma {:induction false} RequestsAreForwardedOnce(cfg: Config, log: Log, c: nat, j: nat, d: nat, k: nat)
    requires ValidConfig(cfg) && LogOk(cfg, log)
    requires c < |log.conns| && j < |log.conns[c].sent| && d < |log.conns| && k < |log.conns[d].sent|
    requires log.conns[c].sent[j].index == log.conns[d].sent[k].index
    ensures c == d && j == k
  {
    assert log.places[log.conns[c].sent[j].index] == (c, j);
    assert log.places[log.conns[d].sent[k].index] == (d, k);
  }

  /** Every request written on a connection that the session dialled itself is covered by a noproxy
      rule and denotes the very host and port the connection was dialled for, up to case, although
      the matcher was asked only about the first. */
  lemma {:induction false} DirectConnectionsServeOneHost(cfg: Config, log: Log, c: nat, j: nat)
    requires ValidConfig(cfg) && LogOk(cfg, log) && c < |log.conns| && j < |log.conns[c].sent|
    requires log.conns[c].kind.Direct?
    ensures var i := log.conns[c].sent[j].index;
            && Asked(log.admitted, i) && Bypassed(cfg, log.admitted[i].r.host)
            && log.admitted[i].r.method' != "CONNECT"
            && var asked, dialled := Denotes(log.admitted[i].r.host, "80"), Denotes(log.conns[c].kind.host, "80");
            ToLower(asked.host) == ToLower(dialled.host) && ToLower(asked.port) == ToLower(dialled.port)
  {
    hide Denotes, SentOk, Canon, Bypassed;
    ConnIsOk(cfg, log.admitted, log.conns, c);
    DirectSent(cfg, log.admitted, log.conns[c].kind, j, log.conns[c].sent[j]);
    SameHostMeansSameTarget(log.admitted[log.conns[c].sent[j].index].r.host, log.conns[c].kind.host, "80");
  }

  lemma {:induction false} DirectSent(cfg: Config, admitted: seq<Incoming>, kind: Kind, j: nat, s: Sent)
    requires ValidConfig(cfg) && SentOk(cfg, admitted, kind, j, s) && kind.Direct?
    ensures Asked(admitted, s.index) && Bypassed(cfg, admitted[s.index].r.host)
    ensures admitted[s.index].r.method' != "CONNECT" && SameHost(admitted[s.index].r.host, kind.host, "80")
  {
    hide Denotes, Judge, OnTheWire, Canon;
  }

  /** Request k was a CONNECT on this connection, and the upstream's final answer had that status. */
  predicate AnsweredConnect(c: Conn, k: nat, status: int) {
    && c.kind.TunnelUp? && |c.sent| == |c.results| == 1 && c.sent[0].index == k
    && c.results[0].result.Final? && c.results[0].result.resp.status == status
  }

  /** The client sees a 2xx for a CONNECT only if the upstream's own final answer to that CONNECT
      was that 2xx, or if a connection to the target was dialled directly. */
  lemma {:induction false} GrantsAreEarned(cfg: Config, log: Log, k: nat)
    requires ValidConfig(cfg) && LogOk(cfg, log) && k < |log.replies|
    requires Asked(log.admitted, k) && log.admitted[k].r.method' == "CONNECT" && Success(log.replies[k].status)
    ensures match log.replies[k].from
            case Some(place) =>
              place.0 < |log.conns| && place.1 == 0 && AnsweredConnect(log.conns[place.0], k, log.replies[k].status)
            case None => exists c :: 0 <= c < |log.conns| && log.conns[c].kind == TunnelDirect(log.admitted[k].r.host)
  {
    hide SentOk;
    assert ReplyOk(cfg, log.admitted, log.conns, log.replies[k]);
    if log.replies[k].from.Some? {
      var (c, j) := log.replies[k].from.value;
      ConnIsOk(cfg, log.admitted, log.conns, c);
      ConnectsAreAlone(cfg, log.admitted, log.conns[c], j);
    }
  }

  /** A CONNECT written on a connection is the only request ever written on it. */
  lemma {:induction false} ConnectsAreAlone(cfg: Config, admitted: seq<Incoming>, c: Conn, j: nat)
    requires ValidConfig(cfg) && ConnOk(cfg, admitted, c) && j < |c.sent|
    requires Asked(admitted, c.sent[j].index) && admitted[c.sent[j].index].r.method' == "CONNECT"
    ensures c.kind.TunnelUp? && j == 0 && |c.sent| == 1
  {
    hide Judge, OnTheWire, Bypassed, Canon;
    assert SentOk(cfg, admitted, c.kind, j, c.sent[j]);
    assert SentOk(cfg, admitted, c.kind, |c.sent| - 1, c.sent[|c.sent| - 1]);
  }

  /** Payload flows only to the connection whose CONNECT was the last request, was granted, and
      whose grant the client has been sent. */
  lemma {:induction false} PayloadFollowsTheGrant(cfg: Config, log: Log, t: nat)
    requires ValidConfig(cfg) && LogOk(cfg, log) && TunnelOk(log, Some(t))
    ensures t < |log.conns| && 0 < |log.replies| == |log.admitted|
    ensures var k := |log.replies| - 1;
            && Asked(log.admitted, k) && log.admitted[k].r.method' == "CONNECT"
            && Success(log.replies[k].status) && log.replies[k].written
            && (AnsweredConnect(log.conns[t], k, log.replies[k].status)
                || log.conns[t].kind == TunnelDirect(log.admitted[k].r.host))
  {
    hide ConnsOk, RepliesOk, PlacesOk, StreamOk;
    GrantsAreEarned(cfg, log, |log.replies| - 1);
  }

  /** Nothing follows the reply to an HTTP/1.0 request, to one that says close, to a CONNECT, nor a reply
      that says close or did not get through. */
  lemma {:induction false} NothingFollowsALastWord(cfg: Config, log: Log, k: nat)
    requires ValidConfig(cfg) && LogOk(cfg, log) && k < |log.replies| && Asked(log.admitted, k)
    requires var (r, reply) := (log.admitted[k].r, log.replies[k]);
             || r.http10 || r.close || reply.close || !reply.written
             || (r.method' == "CONNECT" && !reply.how.Local?) || reply.afterCancel
    ensures |log.admitted| == |log.replies| == k + 1
  {
    hide ConnsOk, PlacesOk, StreamOk, OwnStatus, GrantOk;
    assert ReplyOk(cfg, log.admitted, log.conns, log.replies[k]);
  }

  /** A final response that was read is what its request is answered with: same status, same content,
      said to close only if it was read so, its upload was racing it, or shutdown had begun. The proxy
      answers in its own words only where no final response was read. */
  lemma {:induction false} FinalResponsesAreRelayed(cfg: Config, log: Log, c: nat, j: nat)
    requires ValidConfig(cfg) && LogOk(cfg, log) && c < |log.conns| && j < |log.conns[c].results|
    requires log.conns[c].results[j].result.Final? && log.conns[c].sent[j].index < |log.replies|
    ensures Asked(log.admitted, log.conns[c].sent[j].index)
    ensures var i := log.conns[c].sent[j].index;
            var (asked, read, reply) := (log.admitted[i].r, log.conns[c].results[j].result.resp, log.replies[i]);
            && reply.from == Some((c, j)) && reply.status == read.status && reply.content == read.content
            && reply.how == (if asked.method' == "CONNECT" then ConnectReply else Relayed)
            && (read.close ==> reply.close)
            && (reply.close ==>
                  read.close || reply.afterCancel || (asked.hasBody && ExpectsContinue(log.conns[c].sent[j].header)))
  {
    hide SentOk, Drain, DrainMany, OwnStatus, GrantOk, Accepted;
    var i := log.conns[c].sent[j].index;
    ConnIsOk(cfg, log.admitted, log.conns, c);
    assert log.places[i] == (c, j);
    assert ReplyOk(cfg, log.admitted, log.conns, log.replies[i]);
    IsAccepted(cfg, log.admitted, i);
  }

  lemma {:induction false} IsAccepted(cfg: Config, admitted: seq<Incoming>, i: int)
    ensures Accepted(cfg, admitted, i) ==> Asked(admitted, i)
  {}

  /** On a reused connection to a well-behaved upstream, the reply to the k-th request written on
      it is the upstream's k-th final response, and the client saw exactly that request's interim
      responses before it. Nothing is asked of what happens on the connection afterwards. */
  lemma {:induction false} ReusedConnectionStaysInStep(cfg: Config, log: Log, c: nat, k: nat, n: nat,
                                                       upstream: seq<UpstreamReply>)
    requires ValidConfig(cfg) && LogOk(cfg, log) && c < |log.conns|
    requires log.conns[c].stream == WireAll(upstream)
    requires forall i :: 0 <= i < |upstream| ==> Proper(upstream[i])
    requires n < |log.replies| && log.replies[n].from == Some((c, k))
    ensures k < |upstream| && k < |log.conns[c].results|
    ensures log.conns[c].sent[k].index == n
    ensures log.replies[n].status == upstream[k].final.status && log.replies[n].content == upstream[k].final.content
    ensures Asked(log.admitted, n)
    ensures InterimsOf(log.conns, log.places, n) == if log.admitted[n].r.http10 then [] else upstream[k].interims
  {
    hide SentOk;
    var conn := log.conns[c];
    assert ReplyOk(cfg, log.admitted, log.conns, log.replies[n]);
    assert ConnOk(cfg, log.admitted, conn);
    WrittenAsMade(cfg, log, c, k);
    assert log.places[n] == (c, k);
    KthRequestGetsKthReply(upstream, conn.http11, conn.takes, k);
  }

  /** Everything the client was sent: for each request in turn its interim responses, then its one
      reply; after the last reply, only interim responses of the request still being exchanged. */
  lemma {:induction false} ClientSeesEachRequestInTurn(cfg: Config, log: Log, k: nat)
    requires ValidConfig(cfg) && LogOk(cfg, log) && k < |log.replies|
    ensures Turn(log, k) && log.replies[k].index == k
    ensures var answered := InOrder(log.conns, log.places, log.replies, |log.replies|);
            answered <= log.client && forall m :: |answered| <= m < |log.client| ==> log.client[m].Early?
  {
    hide ConnsOk, RepliesOk, PlacesOk, InOrder;
    TakesItsTurn(log, k);
  }

  /** After what belongs to the first k requests, the client's stream holds what belongs to the next. */
  ghost predicate Turn(log: Log, k: nat)
    requires k < |log.replies|
  {
    var before := InOrder(log.conns, log.places, log.replies, k);
    before + Earlies(InterimsOf(log.conns, log.places, k)) + [Answered(log.replies[k])] <= log.client
  }

  lemma {:induction false} TakesItsTurn(log: Log, k: nat)
    requires StreamOk(log.conns, log.places, log.replies, log.client) && k < |log.replies|
    ensures Turn(log, k)
  {
    InOrderPrefix(log, k + 1, |log.replies|);
  }

  lemma {:induction false} InOrderPrefix(log: Log, k: nat, n: nat)
    requires k <= n <= |log.replies|
    ensures InOrder(log.conns, log.places, log.replies, k) <= InOrder(log.conns, log.places, log.replies, n)
    decreases n
  {
    if k < n { InOrderPrefix(log, k, n - 1); }
  }
}
