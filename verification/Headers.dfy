/** Request headers: what the proxy removes, rewrites and adds on the way through. */
module Headers {
  import opened Strings
  import opened Numbers

  /** Keys are in canonical form, as net/http's parser leaves them. */
  type Header = map<string, seq<string>>

  const VIA := "Via"
  const CONNECTION := "Connection"
  const CONTENT_LENGTH := "Content-Length"
  const MAX_FORWARDS := "Max-Forwards"
  const PROXY_AUTHORIZATION := "Proxy-Authorization"

  /** The fields removed from every request, in canonical form ("TE" is stored as "Te"). */
  const HOP_BY_HOP: set<string> :=
    {CONNECTION, "Keep-Alive", "Proxy-Connection", "Te", "Trailer", "Upgrade", PROXY_AUTHORIZATION}

  predicate IsTokenChar(c: char) {
    || 'a' <= c <= 'z' || 'A' <= c <= 'Z' || '0' <= c <= '9'
    || c in "!#$%&'*+-.^_`|~"
  }

  /** `textproto.CanonicalMIMEHeaderKey`: a name that is not a token is left alone. */
  function Canonical(name: string): string {
    if forall c :: c in name ==> IsTokenChar(c) then
      seq(|name|, i requires 0 <= i < |name| =>
        if i == 0 || name[i - 1] == '-' then UpperChar(name[i]) else LowerChar(name[i]))
    else name
  }

  /** `Header.Get` of a canonical key: the first field line only. */
  function Get(h: Header, key: string): string {
    if key in h && h[key] != [] then h[key][0] else ""
  }

  function Set(h: Header, key: string, value: string): Header {
    h[key := [value]]
  }

  /** `appendHeaderValue`: any further field lines of the same name are dropped. */
  function Append(h: Header, key: string, value: string): Header {
    Set(h, key, if Get(h, key) != "" then Get(h, key) + ", " + value else value)
  }

  // -------------------------------------------------------------------- removal

  /** The names listed in the fields of one Connection line. */
  function NamedIn(parts: seq<string>): set<string> {
    if parts == [] then {}
    else
      var n := |parts| - 1;
      var name := TrimSpace(parts[n]);
      NamedIn(parts[..n]) + if name == "" then {} else {Canonical(name)}
  }

  function Named(lines: seq<string>): set<string> {
    if lines == [] then {} else Named(lines[..|lines| - 1]) + NamedIn(Split(lines[|lines| - 1], ','))
  }

  function ConnectionNames(h: Header): set<string> {
    if CONNECTION in h then Named(h[CONNECTION]) else {}
  }

  /** Everything `sanitizeHopByHop` removes. A chunked body makes Content-Length a conflict. */
  function Removed(h: Header, chunked: bool): set<string> {
    ConnectionNames(h) + HOP_BY_HOP + if chunked && Get(h, CONTENT_LENGTH) != "" then {CONTENT_LENGTH} else {}
  }

  function Sanitized(h: Header, chunked: bool): Header {
    h - Removed(h, chunked)
  }

  predicate Lists(part: string, k: string) {
    TrimSpace(part) != "" && k == Canonical(TrimSpace(part))
  }

  ghost predicate LineLists(line: string, k: string) {
    exists i :: 0 <= i < |Split(line, ',')| && Lists(Split(line, ',')[i], k)
  }

  /** Exactly the names that some field of some Connection line spells, in any case. */
  lemma {:induction false} NamedMeansListed(lines: seq<string>, k: string)
    ensures k in Named(lines) <==> exists i :: 0 <= i < |lines| && LineLists(lines[i], k)
  {
    if lines != [] {
      var n := |lines| - 1;
      NamedMeansListed(lines[..n], k);
      NamedInMeansListed(Split(lines[n], ','), k);
      assert forall i :: 0 <= i < n ==> lines[..n][i] == lines[i];
      assert LineLists(lines[n], k) <==> k in NamedIn(Split(lines[n], ','));
    }
  }

  lemma {:induction false} NamedInMeansListed(parts: seq<string>, k: string)
    ensures k in NamedIn(parts) <==> exists i :: 0 <= i < |parts| && Lists(parts[i], k)
  {
    if parts != [] {
      var n := |parts| - 1;
      NamedInMeansListed(parts[..n], k);
      assert forall i :: 0 <= i < n ==> parts[..n][i] == parts[i];
      assert Lists(parts[n], k) <==> k in (if TrimSpace(parts[n]) == "" then {} else {Canonical(TrimSpace(parts[n]))});
    }
  }

  /** No spelling of a field name escapes removal: case does not change the key. */
  lemma {:induction false} CanonicalIgnoresCase(a: string, b: string)
    requires ToLower(a) == ToLower(b) && forall c :: c in a ==> IsTokenChar(c)
    ensures Canonical(a) == Canonical(b)
  {
    assert |a| == |ToLower(a)| == |ToLower(b)| == |b|;
    forall i | 0 <= i < |a|
      ensures LowerChar(a[i]) == LowerChar(b[i]) && UpperChar(a[i]) == UpperChar(b[i]) && IsTokenChar(b[i])
    {
      assert ToLower(a)[i] == ToLower(b)[i] && a[i] in a;
    }
  }

  // ---------------------------------------------------------------- max-forwards

  predicate CountsHops(method': string) {
    method' == "TRACE" || method' == "OPTIONS"
  }

  /** The request is the proxy's own to answer. */
  predicate EndsHere(method': string, h: Header) {
    CountsHops(method') && Atoi(Get(h, MAX_FORWARDS)).Some? && Atoi(Get(h, MAX_FORWARDS)).value <= 0
  }

  function Lowered(method': string, h: Header): Header {
    if CountsHops(method') && Atoi(Get(h, MAX_FORWARDS)).Some? && 0 < Atoi(Get(h, MAX_FORWARDS)).value
    then Set(h, MAX_FORWARDS, Itoa(Atoi(Get(h, MAX_FORWARDS)).value - 1))
    else h
  }

  // ----------------------------------------------------------------------- Expect

  const EXPECT := "Expect"

  predicate IsContinue(token: string) {
    ToLower(TrimSpace(token)) == "100-continue"
  }

  /** The expectation is recognised in any case, with any white space around it, and nothing else is. */
  lemma {:induction false} ContinueIsRecognised(a: string, token: string, b: string)
    requires (forall c :: c in a ==> IsSpace(c)) && (forall c :: c in b ==> IsSpace(c)) && Trimmed(token)
    ensures IsContinue(a + token + b) <==>
            |token| == 12 && forall i :: 0 <= i < 12 ==> LowerChar(token[i]) == "100-continue"[i]
  {
    TrimSpaceAround(a, token, b);
  }

  predicate Asks(tokens: seq<string>) {
    exists j :: 0 <= j < |tokens| && IsContinue(tokens[j])
  }

  /** Some element of some Expect line asks for 100 Continue. */
  predicate ExpectsContinue(h: Header) {
    EXPECT in h && exists i :: 0 <= i < |h[EXPECT]| && Asks(Split(h[EXPECT][i], ','))
  }

  // ------------------------------------------------------------------- a request

  /** `*http.Request`: the fields the proxy changes in place, and the ones it only reads. */
  class Request {
    const method': string
    const host: string
    const proto: string
    const http10: bool
    const close: bool
    const chunked: bool
    const hasBody: bool
    var header: Header
    var trailer: Header

    constructor (method': string, host: string, proto: string, http10: bool, close: bool, chunked: bool, hasBody: bool,
                 header: Header, trailer: Header)
      ensures this.method' == method' && this.host == host && this.proto == proto && this.http10 == http10
      ensures this.close == close && this.chunked == chunked && this.hasBody == hasBody
      ensures this.header == header && this.trailer == trailer
    {
      this.method', this.host, this.proto, this.http10 := method', host, proto, http10;
      this.close, this.chunked, this.hasBody, this.header, this.trailer := close, chunked, hasBody, header, trailer;
    }

    /** `sanitizeHopByHop`. Removing the Connection field while its own lines are being read
        does not change which names are removed. */
    method SanitizeHopByHop()
      modifies this
      ensures header == Sanitized(old(header), chunked) && trailer == map[]
    {
      ghost var before := header;
      if CONNECTION in header {
        var lines := header[CONNECTION];
        for i := 0 to |lines|
          invariant header == before - Named(lines[..i]) && trailer == old(trailer)
        {
          RemoveListed(Split(lines[i], ','));
          NamedAppend(lines, i);
        }
        assert lines[..|lines|] == lines;
      }
      assert header == before - ConnectionNames(before);
      header := header - HOP_BY_HOP;
      trailer := map[];
      if chunked && Get(header, CONTENT_LENGTH) != "" {
        header := header - {CONTENT_LENGTH};
      }
      SanitizedInSteps(before, chunked);
    }

    /** The names one Connection line lists. */
    method RemoveListed(parts: seq<string>)
      modifies this`header
      ensures header == old(header) - NamedIn(parts)
    {
      for j := 0 to |parts|
        invariant header == old(header) - NamedIn(parts[..j])
      {
        var name := TrimSpace(parts[j]);
        assert parts[..j + 1][..j] == parts[..j];
        if name != "" {
          header := header - {Canonical(name)};
        }
      }
      assert parts[..|parts|] == parts;
    }

    /** `applyMaxForwards`. A false answer means the proxy must reply itself. */
    method ApplyMaxForwards() returns (forward: bool)
      modifies this`header
      ensures forward <==> !EndsHere(method', old(header))
      ensures header == if forward then Lowered(method', old(header)) else old(header)
    {
      if method' != "TRACE" && method' != "OPTIONS" {
        return true;
      }
      var mf := Get(header, MAX_FORWARDS);
      if mf == "" {
        return true;
      }
      var n := Atoi(mf);
      if n.Some? {
        if n.value <= 0 {
          return false;
        }
        header := Set(header, MAX_FORWARDS, Itoa(n.value - 1));
      }
      return true;
    }

    /** The scan at the head of `exchangeRequest`: does this upload wait for 100 Continue? */
    method AwaitsContinue() returns (expects: bool)
      ensures expects <==> hasBody && ExpectsContinue(header)
    {
      expects := false;
      if !hasBody || EXPECT !in header {
        return;
      }
      for i := 0 to |header[EXPECT]|
        invariant expects <==> exists l :: 0 <= l < i && Asks(Split(header[EXPECT][l], ','))
      {
        var asks := AnyContinue(Split(header[EXPECT][i], ','));
        expects := expects || asks;
      }
    }

    static method AnyContinue(tokens: seq<string>) returns (asks: bool)
      ensures asks <==> Asks(tokens)
    {
      for j := 0 to |tokens|
        invariant forall l :: 0 <= l < j ==> !IsContinue(tokens[l])
      {
        if IsContinue(tokens[j]) {
          return true;
        }
      }
      return false;
    }

    method InjectForwarding(f: Forwarding, clientIP: string, id: string)
      modifies this`header
      ensures header == Stamped(f, clientIP, id, host, old(header))
    {
      if !f.forwarded && !f.xForwarded {
        return;
      }
      if f.forwarded {
        header := Append(header, FORWARDED, "for=" + id + ";proto=http");
      }
      if f.xForwarded {
        header := Append(header, X_FORWARDED_FOR, clientIP);
        if Get(header, X_FORWARDED_PROTO) == "" {
          header := Set(header, X_FORWARDED_PROTO, "http");
        }
        if Get(header, X_FORWARDED_HOST) == "" {
          header := Set(header, X_FORWARDED_HOST, host);
        }
      }
    }

    method InjectVia(pseudonym: string)
      modifies this`header
      ensures header == Append(old(header), VIA, proto + " " + pseudonym)
    {
      header := Append(header, VIA, proto + " " + pseudonym);
    }
  }

  lemma {:induction false} NamedAppend(lines: seq<string>, i: nat)
    requires i < |lines|
    ensures Named(lines[..i + 1]) == Named(lines[..i]) + NamedIn(Split(lines[i], ','))
  {
    assert lines[..i + 1][..i] == lines[..i];
  }

  lemma {:induction false} SanitizedInSteps(h: Header, chunked: bool)
    ensures var h1 := h - ConnectionNames(h) - HOP_BY_HOP;
            Sanitized(h, chunked) == if chunked && Get(h1, CONTENT_LENGTH) != "" then h1 - {CONTENT_LENGTH} else h1
  {
    var h1 := h - ConnectionNames(h) - HOP_BY_HOP;
    assert CONTENT_LENGTH in h1 ==> h1[CONTENT_LENGTH] == h[CONTENT_LENGTH];
    assert CONTENT_LENGTH in h && CONTENT_LENGTH !in h1 ==> CONTENT_LENGTH in ConnectionNames(h) + HOP_BY_HOP;
  }

  // ------------------------------------------------------------ forwarding fields

  const FORWARDED := "Forwarded"
  const X_FORWARDED_FOR := "X-Forwarded-For"
  const X_FORWARDED_PROTO := "X-Forwarded-Proto"
  const X_FORWARDED_HOST := "X-Forwarded-Host"

  const FORWARDING_FIELDS: set<string> := {FORWARDED, X_FORWARDED_FOR, X_FORWARDED_PROTO, X_FORWARDED_HOST}

  datatype Forwarding = Forwarding(forwarded: bool, xForwarded: bool)

  /** `injectForwardingHeaders`; `id` is the identifier drawn at random for this request. */
  function Stamped(f: Forwarding, clientIP: string, id: string, host: string, h: Header): Header {
    var h1 := if f.forwarded then Append(h, FORWARDED, "for=" + id + ";proto=http") else h;
    if !f.xForwarded then h1
    else
      var h2 := Append(h1, X_FORWARDED_FOR, clientIP);
      var h3 := if Get(h2, X_FORWARDED_PROTO) == "" then Set(h2, X_FORWARDED_PROTO, "http") else h2;
      if Get(h3, X_FORWARDED_HOST) == "" then Set(h3, X_FORWARDED_HOST, host) else h3
  }

  lemma {:induction false} StampTouchesOnlyItsFields(f: Forwarding, clientIP: string, id: string, host: string,
                                                     h: Header)
    ensures Stamped(f, clientIP, id, host, h) - FORWARDING_FIELDS == h - FORWARDING_FIELDS
  {}

  /** What the upstream is told of the client, after anything the client said itself. */
  lemma {:induction false} StampSays(f: Forwarding, clientIP: string, id: string, host: string, h: Header)
    ensures var h' := Stamped(f, clientIP, id, host, h);
            && Get(h', "Forwarded") == After(Get(h, "Forwarded"), f.forwarded, "for=" + id + ";proto=http")
            && Get(h', "X-Forwarded-For") == After(Get(h, "X-Forwarded-For"), f.xForwarded, clientIP)
            && (f.xForwarded ==> Get(h', "X-Forwarded-Proto") == Or(Get(h, "X-Forwarded-Proto"), "http"))
            && (f.xForwarded ==> Get(h', "X-Forwarded-Host") == Or(Get(h, "X-Forwarded-Host"), host))
            && (!f.xForwarded ==> h' - {"Forwarded"} == h - {"Forwarded"})
  {}

  /** A list that has grown by one element, or not. */
  function After(said: string, grown: bool, value: string): string {
    if !grown then said else if said == "" then value else said + ", " + value
  }

  /** What the client said goes before the default. */
  function Or(said: string, default: string): string {
    if said != "" then said else default
  }

  // ------------------------------------------------------------- what is forwarded

  /** The header a validated request leaves with, Proxy-Authorization apart. */
  function Forwarded(method': string, chunked: bool, h: Header, proto: string, pseudonym: string): Header {
    Append(Sanitized(Lowered(method', h), chunked), VIA, proto + " " + pseudonym)
  }

  /** No credential of the client's, and no hop-by-hop or Connection-listed field, survives. */
  lemma {:induction false} NothingHopByHopIsForwarded(method': string, chunked: bool, h: Header, proto: string,
                                                      pseudonym: string, k: string)
    requires || k in {"Connection", "Keep-Alive", "Proxy-Connection", Canonical("TE"), "Trailer", "Upgrade"}
             || k == "Proxy-Authorization" || (k in ConnectionNames(h) && k != "Via")
    ensures k !in Forwarded(method', chunked, h, proto, pseudonym)
  {
    assert Canonical("TE") == "Te";
    LoweredKeepsConnection(method', h);
  }

  lemma {:induction false} LoweredKeepsConnection(method': string, h: Header)
    ensures ConnectionNames(Lowered(method', h)) == ConnectionNames(h)
  {}

  /** Every other field arrives exactly as the client sent it. A Content-Length does not leave beside a
      chunked body. */
  lemma {:induction false} EndToEndFieldsAreUnchanged(method': string, chunked: bool, h: Header, proto: string,
                                                      pseudonym: string, k: string)
    requires k !in {"Connection", "Keep-Alive", "Proxy-Connection", "Te", "Trailer", "Upgrade", "Proxy-Authorization"}
    requires k !in ConnectionNames(h) && k != "Via" && k != "Max-Forwards"
    ensures var f := Forwarded(method', chunked, h, proto, pseudonym);
            if k == "Content-Length" && chunked then Get(f, k) == ""
            else (k in f <==> k in h) && (k in h ==> f[k] == h[k])
  {
    LoweredKeepsConnection(method', h);
    assert Get(Lowered(method', h), CONTENT_LENGTH) == Get(h, CONTENT_LENGTH);
  }

  /** A positive Max-Forwards on TRACE or OPTIONS leaves one lower, never negative; any other
      value leaves as it came; one that a Connection line names does not leave at all. */
  lemma {:induction false} MaxForwardsIsLoweredOnce(method': string, chunked: bool, h: Header, proto: string,
                                                    pseudonym: string)
    requires !EndsHere(method', h)
    ensures var f := Forwarded(method', chunked, h, proto, pseudonym);
            var n := Atoi(Get(h, MAX_FORWARDS));
            if MAX_FORWARDS in ConnectionNames(h) then MAX_FORWARDS !in f
            else if CountsHops(method') && n.Some?
            then Atoi(Get(f, MAX_FORWARDS)) == Some(n.value - 1) && 0 <= n.value - 1
            else Get(f, MAX_FORWARDS) == Get(h, MAX_FORWARDS)
  {
    LoweredKeepsConnection(method', h);
    var n := Atoi(Get(h, MAX_FORWARDS));
    if CountsHops(method') && n.Some? { AtoiItoa(n.value - 1); }
    assert MAX_FORWARDS !in HOP_BY_HOP;
  }

  /** The pseudonyms the proxy generates hold no separator of the Via list. */
  predicate ProperPseudonym(p: string) {
    p != "" && ',' !in p && ' ' !in p
  }

  /** A request that passed loop detection leaves with a single Via line in which the proxy's
      pseudonym occurs exactly once, at the end, whatever Via lines it came with. */
  lemma {:induction false} OwnViaAppearsOnce(method': string, chunked: bool, h: Header, proto: string,
                                             pseudonym: string, i: int)
    requires ProperPseudonym(pseudonym) && !Contains(proto, pseudonym)
    requires !Contains(Get(h, VIA), pseudonym)
    ensures var f := Forwarded(method', chunked, h, proto, pseudonym);
            && VIA in f && |f[VIA]| == 1
            && (OccursAt(f[VIA][0], pseudonym, i) <==> i == |f[VIA][0]| - |pseudonym|)
  {
    hide OccursAt, Contains, Sanitized, Lowered;
    var prior := Get(Sanitized(Lowered(method', h), chunked), VIA);
    ViaIsKeptOrGone(method', chunked, h);
    var line := if prior != "" then prior + ", " + (proto + " " + pseudonym) else proto + " " + pseudonym;
    if OccursAt(line, pseudonym, i) {
      if prior != "" { OnlyAtEndAfter(prior, proto, pseudonym, i); } else { OnlyAtEnd(proto, pseudonym, i); }
    }
    var head := if prior != "" then prior + ", " + proto + " " else proto + " ";
    assert line == head + pseudonym;
    OccursAtEnd(head, pseudonym);
  }

  lemma {:induction false} ViaIsKeptOrGone(method': string, chunked: bool, h: Header)
    ensures var prior := Get(Sanitized(Lowered(method', h), chunked), VIA); prior == Get(h, VIA) || prior == ""
  {}

  lemma {:induction false} OccursAtEnd(head: string, p: string)
    ensures OccursAt(head + p, p, |head|)
  {}

  lemma {:induction false} InsideOccurrence(s: string, p: string, i: int, j: int)
    requires OccursAt(s, p, i) && i <= j < i + |p|
    ensures s[j] in p
  {
    assert p[j - i] == s[i..i + |p|][j - i] == s[j];
  }

  /** A word without the separator lies wholly on one side of it. */
  lemma {:induction false} OccursBesideSeparator(a: string, c: char, b: string, p: string, i: int)
    requires c !in p && p != "" && OccursAt(a + [c] + b, p, i)
    ensures OccursAt(a, p, i) || OccursAt(b, p, i - |a| - 1)
  {
    var s := a + [c] + b;
    if i <= |a| < i + |p| { InsideOccurrence(s, p, i, |a|); }
    if i + |p| <= |a| {
      assert a[i..i + |p|] == s[i..i + |p|];
    } else {
      assert b[i - |a| - 1..i - |a| - 1 + |p|] == s[i..i + |p|];
    }
  }

  lemma {:induction false} OnlyAtEnd(proto: string, p: string, i: int)
    requires ProperPseudonym(p) && !Contains(proto, p)
    requires OccursAt(proto + " " + p, p, i)
    ensures i == |proto| + 1
  {
    OccursBesideSeparator(proto, ' ', p, p, i);
  }

  lemma {:induction false} OnlyAtEndAfter(prior: string, proto: string, p: string, i: int)
    requires ProperPseudonym(p) && !Contains(proto, p) && !Contains(prior, p)
    requires OccursAt(prior + ", " + (proto + " " + p), p, i)
    ensures i == |prior| + |proto| + 3
  {
    var tail := proto + " " + p;
    assert prior + ", " + tail == prior + [','] + ([] + [' '] + tail);
    OccursBesideSeparator(prior, ',', [] + [' '] + tail, p, i);
    OccursBesideSeparator([], ' ', tail, p, i - |prior| - 1);
    OnlyAtEnd(proto, p, i - |prior| - 2);
  }

  // -------------------------------------------------------------- several Via lines

  function ViaLines(h: Header): seq<string> {
    if VIA in h then h[VIA] else []
  }

  /** One line with the meaning of several (section 5.3 of RFC 9110). */
  function Combined(lines: seq<string>): string {
    if lines == [] then ""
    else
      var rest := Combined(lines[1..]);
      if lines[0] == "" then rest else if rest == "" then lines[0] else lines[0] + ", " + rest
  }

  /** The room the given lines take in front of another one. */
  function Weight(lines: seq<string>): nat {
    if lines == [] then 0 else (if lines[0] == "" then 0 else |lines[0]| + 2) + Weight(lines[1..])
  }

  lemma {:induction false} WeightZero(lines: seq<string>)
    ensures Weight(lines) == 0 <==> forall i :: 0 <= i < |lines| ==> lines[i] == ""
  {
    if lines != [] {
      WeightZero(lines[1..]);
      assert forall i :: 0 <= i < |lines| ==> i == 0 || lines[i] == lines[1..][i - 1];
    }
  }

  lemma {:induction false} CombinedBefore(lines: seq<string>, own: string)
    requires own != ""
    ensures |Combined(lines + [own])| == Weight(lines) + |own|
    ensures Weight(lines) == 0 ==> Combined(lines + [own]) == own
  {
    if lines != [] {
      assert (lines + [own])[1..] == lines[1..] + [own];
      CombinedBefore(lines[1..], own);
    }
  }

  /** `appendHeaderValue` keeps what the client's Via lines said if and only if all but the first
      are empty and no Connection line takes the first away. */
  lemma {:induction false} ViaLinesReachTheWire(method': string, chunked: bool, h: Header, proto: string,
                                                pseudonym: string)
    ensures Forwarded(method', chunked, h, proto, pseudonym)[VIA] == [Combined(ViaLines(h) + [proto + " " + pseudonym])]
            <==> forall i :: 0 <= i < |ViaLines(h)| && ViaLines(h)[i] != "" ==> i == 0 && VIA !in ConnectionNames(h)
  {
    var lines, own := ViaLines(h), proto + " " + pseudonym;
    LoweredKeepsConnection(method', h);
    assert VIA !in HOP_BY_HOP && VIA != MAX_FORWARDS && VIA != CONTENT_LENGTH;
    CombinedBefore(lines, own);
    WeightZero(lines);
    if lines != [] {
      WeightZero(lines[1..]);
      CombinedBefore(lines[1..], own);
      assert (lines + [own])[1..] == lines[1..] + [own];
      assert forall i :: 1 <= i < |lines| ==> lines[i] == lines[1..][i - 1];
    }
    var kept := lines != [] && lines[0] != "" && VIA !in ConnectionNames(h);
    var line := if kept then lines[0] + ", " + own else own;
    assert Forwarded(method', chunked, h, proto, pseudonym)[VIA] == [line];
  }
}
