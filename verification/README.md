# spnego-proxy: verified models of the relay

spnego-proxy is a local HTTP proxy that forwards a client's requests to a
corporate upstream proxy and authenticates there with a SPNEGO token. This
project models the parts of it where a mistake is hard to see, and proves what
they promise for every input, every schedule and every length of run:

- the client session (`Session`, `History`, `Interim`, `Exchange`): the
  keep-alive loop with its validation, routing, rerouting, lazily dialled
  upstream connection, interim responses, racing uploads and graceful shutdown;
- the CONNECT tunnel (`TunnelClock`, `TunnelCopy`, `Tunnel`): two copy loops
  that share one compare-and-swap clock;
- the login guard (`Breaker`, `Provider`, `LoginGuard`): the circuit breaker
  around a password-based token provider, and the lockout latch inside it;
- host identity (`HostNames`, `NoProxy`): the string canonicalisation that makes
  the binding of a direct connection to one host sound;
- header rewriting (`Headers`, `Numbers`, `Strings`) and the accept loop
  (`Server`).

Check everything with `dafny verify dfyconfig.toml`.

## How the models are built

Code that changes objects in place is a class whose methods carry the code's own
branches and loops (`ClientSession`, `Request`, `Clock`, `Source`,
`Gokrb5TokenProvider`, `CircuitBreaker`, `AcceptBackoff`). Each method is proved
against a function of the old state, or states the property outright.

Concurrency takes two forms. `Exchange`, `TunnelClock`, `Tunnel`, `LoginGuard`
and `Server` are state machines: `Next` is one atomic step of any goroutine, and
`Exec` folds it over a schedule. Their theorems quantify over all schedules. In
`ClientSession` and `Clock` one goroutine runs as code, and `Interfere` stands
for whatever the others may do between two of its atomic steps: cancellation
and the watcher can strike at every read, validation, token request, dial,
exchange and reply.

The tunnel runs the clock machine inside itself, one atomic operation at a time.
`Gokrb5TokenProvider` and `CircuitBreakerTokenProvider` carry the list of their
steps so far, and a valid object stands where that run of the machine does, so
what is proved of runs holds of objects.

A session keeps a history (`History.Log`): what the client's stream yielded,
every connection opened, every request written on it with its header as
written, every response read, everything written to the client. `LogOk` says what must
be true of a history at every moment. Each method of `ClientSession` preserves
it, and the lemmas at the end of `History` draw its consequences. `Outcome` in
`Exchange` is the seam between the two: it is proved of every interleaving of an
upload and its response, and it is all that the session assumes of an exchange.

I/O enters as parameters or as arbitrary choices: what the client and the
upstream send, which dials, writes and token requests fail, when time passes and
when cancellation comes. Times are integers. `netip` parsing and the password
HMAC are function parameters.

`hide` keeps a definition out of a proof that does not need it. It only takes
facts away.

## What the proofs found

- `dialDirect` dials the host that `sameHost` compares, except for redundant or
  doubled brackets. A portless `[::1]` is dialled as `[[::1]]:80`.
  `DialTargetIsCanonical` gives the exact condition,
  `PortlessIPv6IsBracketedTwice` the failing family.
- A password that the KDC rejected can be sent again without any change that
  lasts: the guard and the login read the password file separately, and the
  ticker may lift the latch between two calls. `SendsExactlyWhen` and
  `ResentExactlyWhen` give the exact condition for every provider, with a run
  for each route (`FlippedBackFileIsSentTwice`,
  `FlipSeenByTheTickerIsSentTwice`). `RepeatedLoginMeansTheFileFlippedBack` and
  `NoLoginWithoutAPasswordChange` are what does hold of every run.
- `sameHost` trims white space and `Match` does not. The two agree on the trimmed
  values that header parsing yields; `UntrimmedHostsDisagree` shows that they need
  that, `AgreeExactlyWhen` when `Match` gives two hosts one verdict.
- Loop detection and `appendHeaderValue` look only at the first line of a
  repeated Via field, so a loop recorded on a later line is missed and that line
  is lost: `LaterViaLineIsOverlooked` is such a request,
  `LoopDetectionIsRightExactlyWhen` and `ViaLinesReachTheWire` give the exact
  conditions.
- The repository's README describes a raw relay of unparseable upstream
  responses; the code answers 502, and the model follows the code.

## Model

| member | source | states |
|---|---|---|
| `Session.HandleClient` | internal/proxy/forward.go:152-211 | No session without a pseudonym. Otherwise, wherever cancellation and the watcher strike, the session terminates with replies in request order and at most one each, at most two token requests, everything owed accounted for, a reason to have ended, and a tunnel open exactly if a granted CONNECT was the last word; after cancellation no request is admitted and at most one more reply goes out; a connection that shutdown closed owed no reply |
| `Session.ClientSession.Run` | internal/proxy/forward.go:218-246 | The keep-alive loop terminates because each pass consumes a request or ends the session, every step keeps the history well formed, every admitted request is answered unless its exchange was given up, and the loop ends only on cancellation, at the end of the requests, or after an exchange that forbids another |
| `Session.ClientSession.RouteRequest` | internal/proxy/forward.go:254-276 | By the history it keeps, a request is written on a direct connection exactly when the noproxy list covers its host; it is served exactly if its connection could be had, and otherwise the client is told 504 for a timed-out dial and 502 for anything else; the session goes on only with every reply sent; a request handed back is untouched, unwritten and still owed |
| `Session.ClientSession.ReadRequest` | internal/proxy/forward.go:285-307 | A request is admitted only while the session is not cancelled, is handed on exactly as the client sent it, and the session is idle for the whole read; an unsuccessful read leaves nothing owed |
| `Session.ClientSession.Receive` | internal/proxy/forward.go:296-296 | The read takes the next thing the client sent, under any cancellation or watcher step, and fails with input left only after cancellation |
| `Session.ClientSession.BeginShutdown` | internal/proxy/forward.go:309-315 | The watcher closes the connection exactly if the session is idle, so no lost wake-up and no connection closed under an admitted request |
| `Session.ClientSession.Interfere` | internal/proxy/forward.go:195-203 | Cancellation and the watcher, at any point, keep the session invariant; cancellation is never undone |
| `Session.ClientSession.ReadNextRequest` | internal/proxy/forward.go:322-339 | Only an unparseable first request is answered, with 400; every other failed read ends a session that owes nothing |
| `Session.ClientSession.ValidateRequest` | internal/proxy/forward.go:31-63 | The request proceeds exactly when the three checks, in their order, let it; then it is sanitised with Max-Forwards lowered, otherwise it is answered with the status of the check that failed |
| `Session.ClientSession.Answer` | internal/proxy/forward.go:422-433 | One reply is added for the owed request; a relayed reply that starts after cancellation says close |
| `Session.ClientSession.AnswerLocally` | internal/proxy/errors_proxy.go:147-167 | The proxy's own reply has the status it was given, says close, and settles the owed request |
| `Session.ClientSession.ExchangeRequest` | internal/proxy/response.go:258-320 | One request is written on one connection and its response drained from that connection only; how the call ends is exactly what the races allow, and the connection counts as settled exactly if the request was written in full and no deadline is left |
| `Session.ClientSession.RaceOutcome` | internal/proxy/response.go:258-320 | The session relies on nothing about an exchange but the outcome proved of every interleaving |
| `Session.ClientSession.DialAndAuthUpstream` | internal/proxy/forward.go:112-132 | One token request; with a token and a connection the request carries exactly the proxy's credential; without, the client is told 502, or 504 if the dial timed out |
| `Session.ClientSession.ReachUpstream` | internal/proxy/forward.go:347-356 | The upstream connection is dialled at most once and then always had; only the request that caused the dial carries the credential; a reused connection is settled and in step |
| `Session.ClientSession.AnswerDialError` | internal/proxy/direct.go:58-72 | A connection that could not be had is reported with 504 if the dial timed out and 502 otherwise |
| `Session.ClientSession.Conclude` | internal/proxy/forward.go:364-384 | A final response is relayed with its status and content, said to close exactly if the exchange or shutdown says so; a failed write is answered with 502, a failed read on the upstream path only, a client that left with nothing; anything but a relayed response that got through ends the session |
| `Session.ClientSession.Serve` | internal/proxy/direct.go:181-213 | An exchange and its reply touch one connection, the client hears of every outcome as above, and the session may go on only if that connection is settled, the reply was written without close, and the request was neither HTTP/1.0 nor said close |
| `Session.ClientSession.RelayViaUpstream` | internal/proxy/forward.go:347-384 | The request is written exactly if the upstream connection could be had, and the client then hears of every outcome; the session continues only if the reply went out and neither side said close; otherwise it is over for a reason |
| `Session.ClientSession.RelayDirect` | internal/proxy/direct.go:181-213 | The same on the direct path, where a failed read is not reported, with the upstream connection left reusable |
| `Session.ClientSession.NextDirectRequest` | internal/proxy/direct.go:141-174 | A request for another host comes back untouched for rerouting; one for the bound host comes back validated and with one own Via; nil means the session is over with nothing left unsaid |
| `Session.ClientSession.PrepareDirect` | internal/proxy/direct.go:158-173 | On the direct path a rejected request is answered by its failed check, an accepted CONNECT with 400, anything else is made ready for the bound host |
| `Session.ClientSession.ForwardDirect` | internal/proxy/direct.go:99-130 | The first request is written exactly if its target could be dialled; the keep-alive loop terminates with the client's input and writes on its connection only validated requests for the host it was dialled for, each of them covered by the noproxy list |
| `Session.ClientSession.HandleConnectTunnel` | internal/proxy/connect.go:230-270 | The final response decides and is what the client is told: the tunnel opens exactly if it is a 2xx that got through; a failed read is answered with 502, a client that left with nothing; interim responses neither open nor refuse |
| `Session.ClientSession.AnswerConnect` | internal/proxy/connect.go:246-269 | The client is told the upstream's own answer, and a tunnel opens exactly if that is a 2xx and got through |
| `Session.ClientSession.TunnelViaUpstream` | internal/proxy/forward.go:394-412 | A CONNECT goes out on a fresh connection with a credential of its own, exactly if token and connection could be had, and every failure is reported |
| `Session.ClientSession.SendConnect` | internal/proxy/forward.go:404-411 | A CONNECT whose write fails is answered and counts as written; otherwise the upstream's answer decides |
| `Session.ClientSession.TunnelDirectly` | internal/proxy/direct.go:220-247 | A bypassed CONNECT is granted exactly if its target was dialled, and the tunnel opens exactly if the grant got through |
| `History.CredentialsAreTheProxysOwn` | internal/proxy/forward.go:112-132 | In every history, a written request carries Proxy-Authorization exactly if it is the first on a connection to the upstream, and then it is the token that connection was opened with; the client's own never leaves |
| `History.EveryForwardedRequestHasOneOwnVia` | internal/proxy/direct.go:115-174 | In every history, each written request carries one Via line in which the pseudonym occurs once, at the end, rerouted or not |
| `History.WireIsForwardedPlusOwnFields` | internal/proxy/forward.go:347-361 | On every path a request leaves exactly as the header pipeline makes it, but for the credential and the forwarding fields on the way to the upstream, so the theorems about that pipeline hold of every written request |
| `History.LoopDetectionReadsTheFirstLine` | internal/proxy/forward.go:35-38 | A loop is detected if and only if the first Via line holds the pseudonym |
| `History.LoopDetectionIsRightExactlyWhen` | internal/proxy/forward.go:35-38 | Detection agrees with the presence of the pseudonym on some Via line if and only if the first line holds it whenever any does |
| `History.LaterViaLineIsOverlooked` | internal/proxy/forward.go:35-38 | A request that has been through this proxy, with the pseudonym on its second Via line, is forwarded again and that line is lost |
| `History.RejectedRequestsGoNowhere` | internal/proxy/forward.go:31-63 | In every history, a request that fails validation is written on no connection, and any reply to it is the proxy's own with 502, 403 or 200 by the check that failed |
| `History.VerdictExactlyWhen` | internal/proxy/forward.go:31-89 | For every request: a loop exactly if its first Via line holds the pseudonym; else refused exactly if it is a CONNECT whose written port, or 443, is not listed; else ended here exactly if it is TRACE or OPTIONS with a numeric Max-Forwards of zero or less; else accepted |
| `History.RequestsAreForwardedOnce` | internal/proxy/forward.go:218-276 | In every history, no request is written twice, on one connection or on two |
| `History.NothingFollowsALastWord` | internal/proxy/forward.go:97-102 | In every history, nothing is admitted after the reply to an HTTP/1.0 request, to one that said close or to a CONNECT, nor after a reply that says close, did not get through, or began after cancellation |
| `History.DirectConnectionsServeOneHost` | internal/proxy/direct.go:99-174 | In every history, all requests on a direct connection denote the host and port it was dialled for, case aside, and are covered by the noproxy list, although the list was consulted once |
| `History.GrantsAreEarned` | internal/proxy/connect.go:244-266 | In every history, a client sees a 2xx for a CONNECT only if the upstream's final answer to that CONNECT was that 2xx, or a connection to its target was dialled |
| `History.PayloadFollowsTheGrant` | internal/proxy/connect.go:230-270 | In every history with an open tunnel, the last request is its CONNECT, granted as above, with the grant already written to the client |
| `History.FinalResponsesAreRelayed` | internal/proxy/forward.go:364-384 | In every history, a request whose read ended with a final response is answered with that response, status and content; it says close if it was read so, and otherwise only if its upload was racing it or shutdown had begun; so the proxy answers in its own words only where no final response was read |
| `History.ClientSeesEachRequestInTurn` | internal/proxy/forward.go:347-384 | In every history, all that the client was sent is, for each request in turn, its own interim responses and then its one reply; after the last reply only interim responses follow |
| `History.ReusedConnectionStaysInStep` | internal/proxy/forward.go:347-384 | In every history, against an upstream that sends interim responses and one final response per request, the reply to the k-th request on a connection is the upstream's k-th final response, and the client saw exactly that request's interim responses (none over HTTP/1.0), whatever happens on the connection afterwards |
| `History.StillBypassed` | internal/proxy/direct.go:151-157 | A request for the same host as a bypassed one is bypassed, so the loop need not ask again |
| `History.ExchangeStep` | internal/proxy/response.go:258-320 | Writing a permitted request and draining its response keeps every property of a history and touches one connection |
| `History.AdmitOk` | internal/proxy/forward.go:285-307 | Admitting the next request keeps every property of a history and finds the request unwritten |
| `History.AddReplyOk` | internal/proxy/forward.go:422-433 | Adding the owed reply keeps every property of a history |
| `Interim.ReadThroughInterim` | internal/proxy/response.go:337-361 | The loop returns what the recursive reading of the stream defines: result, unread rest and relayed interim responses |
| `Interim.DrainHead` | internal/proxy/response.go:219-253 | By status numbers alone: 100 and 102 to 199 are relayed to an HTTP/1.1 client, dropped for HTTP/1.0, refused with forbidden octets, and read past; any other response is final; a failed read ends the drain |
| `Interim.DrainOneReply` | internal/proxy/response.go:219-253 | Over interim responses and a final one, the reader stops exactly after the final one, having relayed exactly those interim responses to an HTTP/1.1 client and none to an HTTP/1.0 one; it stops earlier only if the client leaves, which has then seen the first of them |
| `Interim.KthRequestGetsKthReply` | internal/proxy/response.go:322-361 | On a reused connection, if the reads up to the k-th ended with a final response, that one is the k-th reply with its own interim responses, whatever the later reads were |
| `Interim.RestIsRemainingReplies` | internal/proxy/response.go:337-361 | While every read ended with a final response, the stream stands exactly at the next reply |
| `Exchange.ReturnsCleanly` | internal/proxy/response.go:258-320 | In every interleaving, on return the upload is joined and the outcome is exact: a response if and only if the read gave one, marked close if and only if it was read so, beat its upload, or its upload failed; the client and read errors if and only if the read gave them; the write error if and only if the upload failed first and no response was had; a deadline left if and only if an overtaken upload failed |
| `Exchange.ReadDeadlineStaysClear` | internal/proxy/response.go:276-312 | Once cleared, the upstream read deadline stays clear in every continuation, since the upload can no longer set it |
| `Exchange.NobodyWaitsForEver` | internal/proxy/response.go:276-297 | In every interleaving, whoever waits for the other has an expired deadline to wake it, and until the call returns some step is possible |
| `Exchange.ReturnsAfterElevenMoves` | internal/proxy/response.go:258-320 | In every interleaving each effective step lowers a rank, so the call has returned after at most eleven of them |
| `Exchange.OvertakenUploadClosesTheConnection` | internal/proxy/response.go:291-319 | A response that beat its upload, or whose upload failed, is always marked close; a failure that beat its upload is reported as itself |
| `TunnelClock.Clock.TouchAt` | internal/proxy/connect.go:57-64 | The CAS loop terminates under any interference, leaves `last` at least at the recorded instant and never lowers it |
| `TunnelClock.Clock.QuietFor` | internal/proxy/connect.go:66-79 | The double-checked read terminates and returns the age, at an instant sampled during the call, of the progress still latest at its end; never negative |
| `TunnelClock.Clock.Idle` | internal/proxy/connect.go:82-82 | True exactly if no progress was published for the timeout at the sampled instant |
| `TunnelClock.Clock.Remaining` | internal/proxy/connect.go:87-87 | Exactly the idle budget left at the sampled instant |
| `TunnelClock.LastNeverDecreases` | internal/proxy/connect.go:57-64 | Over any part of any run of any number of goroutines, `last` never decreases |
| `TunnelClock.QuietIsExact` | internal/proxy/connect.go:71-79 | Over every run, a reported quiet time is the sampled instant minus the maximum published by that instant, and that maximum still held when the report was confirmed |
| `TunnelClock.IdleVerdictIsSound` | internal/proxy/connect.go:82-82 | Over every run, at an idle verdict every published touch is at least a timeout older than the sampled instant |
| `TunnelClock.TouchTakesEffectOrRetriesCloser` | internal/proxy/connect.go:57-64 | Over every run, a touch that returned is in the register, and a lost swap was lost to a strictly larger value |
| `TunnelClock.MeasurementIsConfirmedOrRepeated` | internal/proxy/connect.go:71-79 | Over every run, a measurement is confirmed at its sampled instant exactly if nothing came in between, and otherwise starts again because a larger value did |
| `TunnelCopy.IdleCopy` | internal/proxy/connect.go:101-138 | For every timeout, zero included, the copy loop terminates; what it delivered is a prefix of what was sent and all of it at end of file; it ends as idle only if at a sampled instant neither direction had progressed for the timeout |
| `TunnelCopy.Write` | internal/proxy/tunnel_write.go:44-68 | The write loop terminates with a prefix of the bytes accepted, all of them if there is no error, accepted bytes recorded as progress, and a timeout only after a whole timeout |
| `TunnelCopy.WriteChunk` | internal/proxy/tunnel_write_unix.go:12-38 | Raw or probed, a chunk write takes some of the bytes or fails, and times out only with nothing taken and the whole timeout gone |
| `TunnelCopy.WriteBuffered` | internal/proxy/tunnel_write.go:70-91 | Every armed deadline lies within start plus timeout, nothing the transport took goes unreported, a timeout without progress comes only after the whole timeout, and five probes suffice |
| `TunnelCopy.PassOn` | internal/proxy/connect.go:116-123 | A chunk that was read counts as progress and is written in order, wholly unless the write fails |
| `Tunnel.BytesArriveInOrder` | internal/proxy/connect.go:101-138 | In every interleaving of both halves, what a side received is a prefix of what the other sent, nothing in hand is lost, and a half-close is sent only after everything was delivered |
| `Tunnel.IdleMeansWholeTunnelQuiet` | internal/proxy/connect.go:57-131 | With both halves running the clock's own loads and swaps inside every interleaving: a half gives up as idle only if, at an instant it sampled, everything either direction had published by the confirmation, and every byte it moved itself, was a whole timeout old, although the other half may publish before the teardown |
| `Tunnel.QuietAnswerEndsTheHalf` | internal/proxy/connect.go:109-131 | A half gives up exactly if the clock reports a whole timeout of quiet, and otherwise reads on for what is left of it |
| `Tunnel.FailureClosesBoth` | internal/proxy/connect.go:202-224 | In every interleaving, a half that gave up has closed both connections when it ends, and while neither has given up both are open |
| `Tunnel.EofClosesNeither` | internal/proxy/connect.go:188-224 | In every interleaving without a failed read, write or half-close, whatever has ended, a half gives up only as idle, and unless one has both connections are open |
| `Tunnel.EofLeadsToHalfClose` | internal/proxy/connect.go:132-133 | Each effective step of a half that has read its end of file, unless a write fails, brings it closer to the half-close, which comes with everything delivered |
| `Tunnel.FaultDooms` | internal/proxy/connect.go:120-135 | A broken read, a failed write and a failed half-close each doom the half that meets them |
| `Tunnel.FaultIsFatal` | internal/proxy/connect.go:206-215 | In every continuation a doomed half never reads on or half-closes, and both connections are closed when it has ended |
| `Tunnel.DeliveryIsFinal` | internal/proxy/connect.go:202-224 | In every continuation, delivered bytes stay delivered, and a half that sent its half-close never acts again |
| `LoginGuard.OneAcquisitionAtATime` | internal/proxy/circuit_breaker.go:83-103 | With any number of callers at most one acquisition is in flight, and no caller is turned away because another's probe is running |
| `LoginGuard.CircuitBreakerTokenProvider.GetToken` | internal/proxy/circuit_breaker.go:83-102 | Over a breaker and a provider object, with ticker, Close and time striking between its steps: the call is turned away exactly while the breaker is open, and then sends nothing; otherwise at most one failing login is sent, a success closes the breaker, and a failure opens it at the threshold or after a probe; the object always stands where a run of the machine does |
| `LoginGuard.FailuresAreRateLimited` | internal/proxy/circuit_breaker.go:36-64 | Over any stretch of any run without a success, (failed acquisitions − threshold) × timeout is at most the elapsed time, and the same holds of failed logins |
| `LoginGuard.CircuitBreakerTokenProvider.RateLimited` | internal/proxy/circuit_breaker.go:36-64 | The bound on failures holds of every such object |
| `LoginGuard.LoginsFailWithAcquisitions` | internal/proxy/auth_gokrb5.go:187-240 | Over any run, no more logins fail than acquisitions do, counting one that is still to be reported |
| `LoginGuard.GetSendsOneLogin` | internal/proxy/auth_gokrb5.go:187-216 | One token request sends at most one failing login, and then fails itself |
| `Provider.RefreshDeadlineIsSound` | internal/proxy/auth_gokrb5.go:288-294 | For all times, with saturation, wrap-around and truncation: a valid ticket is replaced a sixth of its life before its end, to the nanosecond, so it serves at least 5/6 of it and never past its end; without usable times a sixth of what is left takes that place, and an expired ticket is never kept |
| `Provider.Gokrb5TokenProvider.CheckPasswordRejected` | internal/proxy/auth_gokrb5.go:348-369 | Lifts the latch exactly if a read shows another fingerprint; the ticker is used only where it exists |
| `Provider.NoLoginWithoutAPasswordChange` | internal/proxy/auth_gokrb5.go:344-369 | Over every run of callers, ticker and Close: between a rejected login and any later login some read showed another fingerprint, and each login sends exactly the password read just before it |
| `Provider.TypedPasswordIsRejectedAtMostOnce` | internal/proxy/auth_gokrb5.go:177-240 | With a typed password, after a rejection there is no further login for the provider's life |
| `Provider.SendsExactlyWhen` | internal/proxy/auth_gokrb5.go:187-240 | Of every provider: a call logs in with a given fingerprint if and only if it has no ticket to use, its second read shows that fingerprint, and, if a rejection is latched, its first read showed another than the rejected one |
| `Provider.ServesExactlyWhen` | internal/proxy/auth_gokrb5.go:187-240 | Over every run: with a usable ticket a call succeeds exactly if the security context can be made, and touches neither password nor KDC; without one exactly if also the guard lets the password through and the login is granted |
| `Provider.ResentExactlyWhen` | internal/proxy/auth_gokrb5.go:187-240 | A step makes a run resend a rejected fingerprint if and only if it is a call that would send one rejected before |
| `Provider.RepeatedLoginMeansTheFileFlippedBack` | internal/proxy/auth_gokrb5.go:187-240 | Over every run, a login that repeats a rejected fingerprint comes after a read that showed another one and a later, last read that showed the rejected one again |
| `Provider.FlippedBackFileIsSentTwice` | internal/proxy/auth_gokrb5.go:187-240 | A run in which the file flips back within one call, and a rejected password is sent again |
| `Provider.FlipSeenByTheTickerIsSentTwice` | internal/proxy/auth_gokrb5.go:326-369 | A run in which the ticker lifts the latch, the file flips back, and the next call sends the rejected password again |
| `Provider.WarningGoroutineIsStartedAndStoppedOnce` | internal/proxy/auth_gokrb5.go:307-342 | Over every run: rejected and open implies a ticker, at most one warning goroutine is started, its stop channel is closed at most once and only by Close |
| `Provider.CloseIsFinal` | internal/proxy/auth_gokrb5.go:382-400 | After Close nothing but the clock changes, whatever is called, Close included, and no ticket, typed password or fingerprint is left |
| `Provider.TicketsAreReusedForMostOfTheirLife` | internal/proxy/auth_gokrb5.go:218-240 | Over every run, no login of any kind follows a granted one before 5/6 of a valid ticket's life |
| `Provider.NoExpiredTicketIsReused` | internal/proxy/auth_gokrb5.go:218-240 | Over every run, a ticket that would be reused came from an earlier login and has not reached its end, whatever times the KDC sent |
| `HostNames.SplitIsGrammar` | internal/proxy/direct.go:32-32 | `SplitHostPort` accepts exactly `host:port` and `[host]:port` and recovers their parts |
| `HostNames.JoinInjective` | internal/proxy/direct.go:39-39 | Joining loses nothing as long as ports hold no colon |
| `HostNames.SplitAfterJoin` | internal/proxy/direct.go:30-40 | Splitting undoes joining if and only if the parts hold no bracket |
| `HostNames.DenotesAsWritten` | internal/proxy/direct.go:30-40 | What a Host value denotes is exactly what is written: host and port of `host:port` and `[host]:port`, otherwise the whole value, brackets aside, with the default port |
| `HostNames.DenotesLower` | internal/proxy/direct.go:30-40 | Case folding commutes with splitting and bracket stripping |
| `HostNames.SameHostMeansSameTarget` | internal/proxy/direct.go:29-42 | `sameHost` holds if and only if both values denote the same host and port, case aside |
| `HostNames.DialTargetIsCanonical` | internal/proxy/direct.go:46-54 | `dialDirect` dials the canonical form if and only if no bracket is redundant or would be doubled |
| `HostNames.PortlessIPv6IsBracketedTwice` | internal/proxy/direct.go:46-54 | Every portless bracketed literal with a colon is dialled with a second pair of brackets |
| `NoProxy.Matcher.Match` | internal/proxy/noproxy.go:89-109 | The scan finds a rule if and only if one covers the host, and reports the first |
| `NoProxy.NewMatcher` | internal/proxy/noproxy.go:40-66 | One classified, well-formed rule per non-empty pattern, in order |
| `NoProxy.ListedExactlyWhen` | internal/proxy/config.go:81-89 | A pattern is listed if and only if some field says it, white space aside, and it is not empty |
| `NoProxy.CoversMeansSomePattern` | internal/proxy/noproxy.go:40-109 | A list covers a host, written with or without a port, if and only if one of its patterns means that host, by labels rather than by suffix tests |
| `NoProxy.LookupIgnoresPort` | internal/proxy/noproxy.go:89-98 | The name looked up is the host as written, in lower case, without port and brackets |
| `NoProxy.ClassifyMeansPattern` | internal/proxy/noproxy.go:46-87 | A classified rule matches a name if and only if its pattern means it to |
| `NoProxy.WithinIsSuffix` | internal/proxy/noproxy.go:76-79 | The suffix test of a wildcard rule is label-wise containment: it never cuts a label in two |
| `NoProxy.SameHostSameMatch` | internal/proxy/noproxy.go:89-109 | For trimmed hosts, `sameHost` implies the same verdict of `Match` |
| `NoProxy.AgreeExactlyWhen` | internal/proxy/noproxy.go:89-109 | For any two hosts, every list gives the same verdict if and only if their lookup names are equal |
| `NoProxy.UntrimmedHostsDisagree` | internal/proxy/direct.go:31-31 | Untrimmed, two hosts can be the same for `sameHost` and have different lookup names |
| `Headers.Request.SanitizeHopByHop` | internal/proxy/headers.go:123-156 | The nested deletions remove exactly the fields named by any Connection line, the hop-by-hop fields, and Content-Length beside Transfer-Encoding; the trailer is dropped |
| `Headers.Request.ApplyMaxForwards` | internal/proxy/forward.go:70-89 | The request ends here exactly for TRACE or OPTIONS with a count of zero or less; otherwise a numeric count is lowered and nothing else changes |
| `Headers.Request.AwaitsContinue` | internal/proxy/response.go:259-268 | The scan finds the expectation if and only if the request has a body and some element of some Expect line asks for it |
| `Headers.ContinueIsRecognised` | internal/proxy/response.go:262-262 | The expectation is recognised in any case with any white space around it, and nothing else is |
| `Headers.NamedMeansListed` | internal/proxy/headers.go:128-134 | A key is removed if and only if some element of some Connection line spells it |
| `Headers.CanonicalIgnoresCase` | internal/proxy/headers.go:128-134 | No spelling of a field name escapes removal |
| `Headers.NothingHopByHopIsForwarded` | internal/proxy/headers.go:123-156 | Over the whole pipeline none of Connection, Keep-Alive, Proxy-Connection, TE, Trailer, Upgrade and Proxy-Authorization leaves, nor any Connection-listed field but the proxy's own Via |
| `Headers.EndToEndFieldsAreUnchanged` | internal/proxy/headers.go:123-156 | Over the whole pipeline every field but those, Via and Max-Forwards leaves exactly as it came, except a Content-Length beside a chunked body |
| `Headers.StampTouchesOnlyItsFields` | internal/proxy/headers.go:48-75 | The forwarding fields are all that their injection touches |
| `Headers.StampSays` | internal/proxy/headers.go:48-75 | Forwarded and X-Forwarded-For grow by one element if enabled; X-Forwarded-Proto and X-Forwarded-Host keep what the client said and are filled in otherwise |
| `Headers.MaxForwardsIsLoweredOnce` | internal/proxy/forward.go:65-89 | Over the whole pipeline a positive count leaves one lower and never negative, one that a Connection line names does not leave, anything else leaves unchanged |
| `Headers.OwnViaAppearsOnce` | internal/proxy/headers.go:84-89 | After loop detection, the forwarded Via line holds the pseudonym exactly once, at its end |
| `Headers.ViaLinesReachTheWire` | internal/proxy/headers.go:36-42 | What the client's Via lines said, followed by the own entry, is what leaves, if and only if all but the first line are empty and no Connection line removes the first |
| `Numbers.AtoiItoa` | internal/proxy/forward.go:78-86 | Parsing what was printed gives the number back |
| `Server.DoublingUpToTheCap` | internal/proxy/server.go:16-34 | The n-th wait in a row is 5ms times a power of two up to the eighth, and 1s from then on |
| `Server.AcceptLoop` | internal/proxy/server.go:47-73 | Over any sequence of accept results, one session per connection and after each error the wait for the number of errors in a row it ends |
| `Server.RetriesAndDrain` | internal/proxy/server.go:44-92 | In every interleaving the retry wait follows that schedule, restarting after a success, and a drain that reports success has seen the session of every accepted connection end |
| `Server.NoSessionStartsDuringTheDrain` | internal/proxy/server.go:76-91 | In every interleaving, once the drain waits no session is registered, so the wait group never grows beside the wait and the outcome is final |
| `Server.LoopStopsSoon` | internal/proxy/server.go:50-82 | In every interleaving, once the listener is closed the accept loop's next two steps stop it, so the join cannot hang |
| `Server.ServeReturnsAfterCancellation` | internal/proxy/server.go:76-91 | From every reachable state cancellation and at most five more steps bring `Serve` to its return, whatever the sessions do, and it reports success as soon as all have ended |

## Left out

- `net/http` parsing and serialisation, `bufio`, TLS and sockets: streams are sequences of parsed messages, and a connection is what is written to and read from it.
- `101 Switching Protocols` on the keep-alive path: Upgrade is stripped from requests, so an upstream is assumed not to send it.
- `readUpstreamResponse`'s edits of response headers, the Content-Length check and the byte-class validators: single-loop facts; a response is only known to be clean or not.
- The IP allow list in front of a session, SPN normalisation, command-line flags, logging and error-body text: easy members only.
- gobreaker and gokrb5 internals: modelled by the documented behaviour and by the outcome of a login. The breaker is taken to admit a probe from the instant its timeout has passed.
- GSS-API providers, password-file permissions and terminal input: foreign calls.
- `tunnel_write_unix.go` and the TLS branch of `tunnelConn.Read`: a transport write takes some bytes or fails, a read yields some bytes or an error.
- Host values are assumed to carry no white space at either end, by the meaning `TrimSpace` gives it; header parsing itself is only known to remove spaces and tabs.
- The identifier that a Forwarded entry carries is an arbitrary string, drawn for each request.
- Non-ASCII text: case folding, trimming and header canonicalisation are modelled on ASCII.
- Clocks are taken not to run backwards within a run.
- TunnelCopy.WriteBuffered: the bound of five probes is stated for timeouts of at least 12ns, because the truncated quarters of a shorter one need not add up to it.
- Session.ClientSession.ExchangeRequest: a request whose write failed counts as written on its connection, because part of it may have left.
- History.EveryForwardedRequestHasOneOwnVia: speaks of pseudonyms without comma or space that the protocol version does not contain, as the generated ones are, because another could straddle two entries.
