/** Host canonicalisation: what makes a direct connection's host binding sound. */
module HostNames {
  import opened Strings

  /** The `net.SplitHostPort` result; the error's text is not modelled. */
  datatype HostPort = HostPort(host: string, port: string)

  predicate Bracketed(s: string) {
    HasPrefix(s, "[") && HasSuffix(s, "]")
  }

  /** `net.SplitHostPort`. */
  function SplitHostPort(s: string): Option<HostPort> {
    var i := LastIndexByte(s, ':');
    if i < 0 then None
    else if s[0] == '[' then
      var end := IndexByte(s, ']');
      if end < 0 || end + 1 != i then None
      else if '[' in s[1..] || ']' in (s[end + 1..]) then None
      else Some(HostPort(s[1..end], s[i + 1..]))
    else if ':' in s[..i] || '[' in s || ']' in s then None
    else Some(HostPort(s[..i], s[i + 1..]))
  }

  function PlainForm(host: string, port: string): string {
    host + ":" + port
  }

  function BracketForm(host: string, port: string): string {
    "[" + host + "]:" + port
  }

  /** `net.JoinHostPort`. */
  function JoinHostPort(host: string, port: string): string {
    if ':' in host then BracketForm(host, port) else PlainForm(host, port)
  }

  function StripIPv6Brackets(host: string): string {
    if Bracketed(host) && |host| >= 2 then host[1..|host| - 1] else host
  }

  /** The host and port a Host value denotes once a missing port is defaulted. */
  function Denotes(h: string, defaultPort: string): HostPort {
    match SplitHostPort(h)
    case Some(hp) => hp
    case None => HostPort(StripIPv6Brackets(h), defaultPort)
  }

  /** The `canon` closure of `sameHost`. */
  function Canon(h: string, defaultPort: string): string {
    var d := Denotes(ToLower(TrimSpace(h)), defaultPort);
    JoinHostPort(d.host, d.port)
  }

  predicate SameHost(a: string, b: string, defaultPort: string) {
    Canon(a, defaultPort) == Canon(b, defaultPort)
  }

  /** The target `dialDirect` dials. */
  function DialTarget(host: string, defaultPort: string): string {
    if SplitHostPort(host).None? then JoinHostPort(host, defaultPort) else host
  }

  // ---------------------------------------------------------------- grammar

  predicate Plain(s: string) {
    '[' !in s && ']' !in s
  }

  /** The two written forms `host:port` and `[host]:port`. */
  predicate Spells(s: string, hp: HostPort) {
    && Plain(hp.host) && Plain(hp.port) && ':' !in hp.port
    && ((':' !in hp.host && s == PlainForm(hp.host, hp.port)) || s == BracketForm(hp.host, hp.port))
  }

  lemma {:induction false} LastIndexAt(a: string, b: string)
    requires ':' !in b
    ensures LastIndexByte(a + ":" + b, ':') == |a|
  {
    var s := a + ":" + b;
    assert s[|a|] == ':';
    assert forall k :: |a| < k < |s| ==> s[k] == b[k - |a| - 1] && s[k] in b;
  }

  lemma {:induction false} PlainShape(host: string, port: string)
    ensures var s := PlainForm(host, port); var n := |host|;
            && |s| == n + 1 + |port| && s[n] == ':' && s[..n] == host && s[n + 1..] == port
            && (forall c :: c in s <==> c in host || c == ':' || c in port)
  {}

  lemma {:induction false} BracketShape(host: string, port: string)
    ensures var s := BracketForm(host, port); var n := |host|;
            && |s| == n + 3 + |port| && s[0] == '[' && s[n + 1] == ']' && s[n + 2] == ':'
            && s[1..n + 1] == host && s[n + 3..] == port
            && s[..n + 1] == "[" + host && s[..n + 2] == "[" + host + "]" && s[n + 2..] == ":" + port
  {}

  lemma {:induction false} BracketTail(host: string, port: string, c: char)
    ensures c in BracketForm(host, port)[1..] <==> c in host || c == ']' || c == ':' || c in port
  {
    assert BracketForm(host, port)[1..] == host + "]:" + port;
  }

  lemma {:induction false} FromPlainShape(s: string, n: int)
    requires 0 <= n < |s| && s[n] == ':'
    ensures s == PlainForm(s[..n], s[n + 1..])
  {}

  lemma {:induction false} FromBracketShape(s: string, n: int)
    requires 0 <= n && n + 2 < |s| && s[0] == '[' && s[n + 1] == ']' && s[n + 2] == ':'
    ensures s == BracketForm(s[1..n + 1], s[n + 3..])
  {}

  lemma {:induction false} SplitPlainForm(host: string, port: string)
    requires Plain(host) && Plain(port) && ':' !in host && ':' !in port
    ensures SplitHostPort(PlainForm(host, port)) == Some(HostPort(host, port))
  {
    LastIndexAt(host, port);
    PlainShape(host, port);
    assert host != [] ==> PlainForm(host, port)[0] == host[0];
  }

  lemma {:induction false} SplitBracketForm(host: string, port: string)
    requires Plain(host) && Plain(port) && ':' !in port
    ensures SplitHostPort(BracketForm(host, port)) == Some(HostPort(host, port))
  {
    var s := BracketForm(host, port);
    BracketShape(host, port);
    BracketTail(host, port, '[');
    assert LastIndexByte(s, ':') == |host| + 2 by {
      assert s == "[" + host + "]" + ":" + port;
      LastIndexAt("[" + host + "]", port);
    }
    assert IndexByte(s, ']') == |host| + 1 by {
      assert s == "[" + host + [']'] + (":" + port);
      IndexAt("[" + host, ":" + port, ']');
    }
  }

  lemma {:induction false} SplitSpells(s: string)
    requires SplitHostPort(s).Some?
    ensures Spells(s, SplitHostPort(s).value)
  {
    var hp := SplitHostPort(s).value;
    var i := LastIndexByte(s, ':');
    if s[0] == '[' {
      var end := IndexByte(s, ']');
      FromBracketShape(s, end - 1);
      BracketShape(hp.host, hp.port);
      BracketTail(hp.host, hp.port, '[');
    } else {
      FromPlainShape(s, i);
      PlainShape(hp.host, hp.port);
    }
  }

  /** `SplitHostPort` accepts exactly the two written forms, and recovers their parts. */
  lemma {:induction false} SplitIsGrammar(s: string, hp: HostPort)
    ensures SplitHostPort(s) == Some(hp) <==> Spells(s, hp)
  {
    if SplitHostPort(s) == Some(hp) {
      SplitSpells(s);
    } else if Spells(s, hp) {
      if s == BracketForm(hp.host, hp.port) {
        SplitBracketForm(hp.host, hp.port);
      } else {
        SplitPlainForm(hp.host, hp.port);
      }
    }
  }

  // ------------------------------------------------------- join and lower case

  /** Joining loses nothing as long as the ports hold no colon. */
  lemma {:induction false} JoinInjective(a: HostPort, b: HostPort)
    requires ':' !in a.port && ':' !in b.port
    requires JoinHostPort(a.host, a.port) == JoinHostPort(b.host, b.port)
    ensures a == b
  {
    JoinShape(a);
    JoinShape(b);
  }

  /** What precedes the last colon of a joined value, and what follows it. */
  lemma {:induction false} JoinShape(a: HostPort)
    requires ':' !in a.port
    ensures var s := JoinHostPort(a.host, a.port);
            var i := LastIndexByte(s, ':');
            && 0 <= i && s[i + 1..] == a.port
            && (':' in s[..i] <==> ':' in a.host)
            && (if ':' in a.host then i >= 2 && s[1..i - 1] == a.host else s[..i] == a.host)
  {
    var s := JoinHostPort(a.host, a.port);
    if ':' in a.host {
      BracketShape(a.host, a.port);
      assert s == "[" + a.host + "]" + ":" + a.port;
      LastIndexAt("[" + a.host + "]", a.port);
    } else {
      PlainShape(a.host, a.port);
      LastIndexAt(a.host, a.port);
    }
  }

  /** Splitting what was joined gives the parts back exactly when they are bracket-free. */
  lemma {:induction false} SplitAfterJoin(host: string, port: string)
    requires ':' !in port
    ensures SplitHostPort(JoinHostPort(host, port)) == Some(HostPort(host, port)) <==> Plain(host) && Plain(port)
  {
    SplitIsGrammar(JoinHostPort(host, port), HostPort(host, port));
  }

  /** Lower case neither adds nor removes a bracket or a colon. */
  lemma {:induction false} LowerDelimiters(s: string)
    ensures Plain(ToLower(s)) == Plain(s)
    ensures ':' in ToLower(s) <==> ':' in s
  {
    LowerKeeps(s, '['); LowerKeeps(s, ']'); LowerKeeps(s, ':');
  }

  lemma {:induction false} LowerForms(host: string, port: string)
    ensures ToLower(PlainForm(host, port)) == PlainForm(ToLower(host), ToLower(port))
    ensures ToLower(BracketForm(host, port)) == BracketForm(ToLower(host), ToLower(port))
  {
    LowerConcat(host + ":", port);
    LowerConcat(host, ":");
    LowerConcat("[" + host + "]:", port);
    LowerConcat("[" + host, "]:");
    LowerConcat("[", host);
    assert ToLower(":") == ":" && ToLower("[") == "[" && ToLower("]:") == "]:";
  }

  lemma {:induction false} LowerSpells(s: string, hp: HostPort)
    requires Spells(s, hp)
    ensures Spells(ToLower(s), HostPort(ToLower(hp.host), ToLower(hp.port)))
  {
    LowerDelimiters(hp.host);
    LowerDelimiters(hp.port);
    LowerForms(hp.host, hp.port);
  }

  lemma {:induction false} UnlowerPlainForm(s: string, hp: HostPort)
    requires ToLower(s) == PlainForm(hp.host, hp.port)
    ensures |s| > |hp.host|
    ensures var h, p := s[..|hp.host|], s[|hp.host| + 1..];
            s == PlainForm(h, p) && ToLower(h) == hp.host && ToLower(p) == hp.port
  {
    PlainShape(hp.host, hp.port);
    FromPlainShape(s, |hp.host|);
  }

  lemma {:induction false} UnlowerBracketForm(s: string, hp: HostPort)
    requires ToLower(s) == BracketForm(hp.host, hp.port)
    ensures |s| > |hp.host| + 2
    ensures var h, p := s[1..|hp.host| + 1], s[|hp.host| + 3..];
            s == BracketForm(h, p) && ToLower(h) == hp.host && ToLower(p) == hp.port
  {
    var n := |hp.host|;
    BracketShape(hp.host, hp.port);
    FromBracketShape(s, n);
    LowerSlice(s, 1, n + 1);
    LowerSlice(s, n + 3, |s|);
  }

  /** Whatever the lower-cased text spells, the original spelled in its own case. */
  lemma {:induction false} UnlowerSpells(s: string, hp: HostPort) returns (orig: HostPort)
    requires Spells(ToLower(s), hp)
    ensures Spells(s, orig)
  {
    var n := |hp.host|;
    if ':' !in hp.host && ToLower(s) == PlainForm(hp.host, hp.port) {
      UnlowerPlainForm(s, hp);
      orig := HostPort(s[..n], s[n + 1..]);
    } else {
      UnlowerBracketForm(s, hp);
      orig := HostPort(s[1..n + 1], s[n + 3..]);
    }
    LowerDelimiters(orig.host);
    LowerDelimiters(orig.port);
  }

  /** Case folding commutes with splitting and bracket stripping. */
  lemma {:induction false} DenotesLower(h: string, defaultPort: string)
    requires ToLower(defaultPort) == defaultPort
    ensures Denotes(ToLower(h), defaultPort)
         == HostPort(ToLower(Denotes(h, defaultPort).host), ToLower(Denotes(h, defaultPort).port))
  {
    match SplitHostPort(h)
    case Some(hp) =>
      SplitIsGrammar(h, hp);
      LowerSpells(h, hp);
      SplitIsGrammar(ToLower(h), HostPort(ToLower(hp.host), ToLower(hp.port)));
    case None =>
      if SplitHostPort(ToLower(h)).Some? {
        var hp := SplitHostPort(ToLower(h)).value;
        SplitIsGrammar(ToLower(h), hp);
        var orig := UnlowerSpells(h, hp);
        SplitIsGrammar(h, orig);
        assert false;
      }
      if |h| > 0 {
        assert ToLower(h)[0] == LowerChar(h[0]) && ToLower(h)[|h| - 1] == LowerChar(h[|h| - 1]);
      }
      assert Bracketed(ToLower(h)) == Bracketed(h) by { BracketedLower(h); }
      if Bracketed(h) && |h| >= 2 { LowerSlice(h, 1, |h| - 1); }
  }

  lemma {:induction false} BracketedLower(h: string)
    ensures Bracketed(ToLower(h)) == Bracketed(h)
  {
    if |h| > 0 {
      assert ToLower(h)[..1] == [LowerChar(h[0])] && h[..1] == [h[0]];
      assert ToLower(h)[|h| - 1..] == [LowerChar(h[|h| - 1])] && h[|h| - 1..] == [h[|h| - 1]];
    }
  }

  lemma {:induction false} PortHasNoColon(h: string, defaultPort: string)
    requires ':' !in defaultPort
    ensures ':' !in Denotes(h, defaultPort).port
  {
    if SplitHostPort(h).Some? { SplitSpells(h); }
  }

  // ------------------------------------------------------------------ meaning

  /** The host and port that a Host value denotes, by the way it is written: `host:port` and
      `[host]:port` say both, `[host]` and anything else only the host. */
  ghost predicate Written(h: string, hp: HostPort, defaultPort: string) {
    || Spells(h, hp)
    || ((forall x :: !Spells(h, x)) && hp.port == defaultPort
        && if |h| >= 2 && h[0] == '[' && h[|h| - 1] == ']' then h == "[" + hp.host + "]" else h == hp.host)
  }

  lemma {:induction false} DenotesAsWritten(h: string, hp: HostPort, defaultPort: string)
    ensures Denotes(h, defaultPort) == hp <==> Written(h, hp, defaultPort)
  {
    hide SplitHostPort, StripIPv6Brackets, Spells, Written;
    if SplitHostPort(h).Some? {
      WrittenWithPort(h, hp, defaultPort);
    } else {
      WrittenWithoutPort(h, hp, defaultPort);
    }
  }

  lemma {:induction false} WrittenWithPort(h: string, hp: HostPort, defaultPort: string)
    requires SplitHostPort(h).Some?
    ensures SplitHostPort(h).value == hp <==> Written(h, hp, defaultPort)
  {
    hide SplitHostPort, Spells;
    SplitIsGrammar(h, hp);
    SplitSpells(h);
  }

  lemma {:induction false} WrittenWithoutPort(h: string, hp: HostPort, defaultPort: string)
    requires SplitHostPort(h).None?
    ensures HostPort(StripIPv6Brackets(h), defaultPort) == hp <==> Written(h, hp, defaultPort)
  {
    hide SplitHostPort, Spells, StripIPv6Brackets;
    forall x ensures !Spells(h, x) { SplitIsGrammar(h, x); }
    Stripped(h, hp.host);
  }

  lemma {:induction false} Stripped(h: string, x: string)
    ensures StripIPv6Brackets(h) == x <==>
            if |h| >= 2 && h[0] == '[' && h[|h| - 1] == ']' then h == "[" + x + "]" else h == x
  {
    BracketedEnds(h);
    if |h| >= 2 && Bracketed(h) {
      assert h == "[" + h[1..|h| - 1] + "]";
      assert ("[" + x + "]")[1..|x| + 1] == x;
    }
  }

  lemma {:induction false} BracketedEnds(h: string)
    ensures Bracketed(h) <==> h != "" && h[0] == '[' && h[|h| - 1] == ']'
  {
    if h != "" {
      assert h[..1] == [h[0]] && h[|h| - 1..] == [h[|h| - 1]];
    }
  }

  // ------------------------------------------------------------------ identity

  /** `sameHost` holds exactly when both values denote the same host and port, case aside. */
  lemma {:induction false} SameHostMeansSameTarget(a: string, b: string, defaultPort: string)
    requires ':' !in defaultPort && ToLower(defaultPort) == defaultPort
    ensures SameHost(a, b, defaultPort) <==>
            var x := Denotes(TrimSpace(a), defaultPort);
            var y := Denotes(TrimSpace(b), defaultPort);
            ToLower(x.host) == ToLower(y.host) && ToLower(x.port) == ToLower(y.port)
  {
    var x := Denotes(ToLower(TrimSpace(a)), defaultPort);
    var y := Denotes(ToLower(TrimSpace(b)), defaultPort);
    DenotesLower(TrimSpace(a), defaultPort);
    DenotesLower(TrimSpace(b), defaultPort);
    PortHasNoColon(ToLower(TrimSpace(a)), defaultPort);
    PortHasNoColon(ToLower(TrimSpace(b)), defaultPort);
    if SameHost(a, b, defaultPort) { JoinInjective(x, y); }
  }

  /** The name inside a `[name]:port` value has a colon, as an IPv6 literal does. */
  predicate DialsAsWritten(h: string) {
    match SplitHostPort(h)
    case Some(hp) => h[0] == '[' ==> ':' in hp.host
    case None => !(Bracketed(h) && |h| >= 2)
  }

  /** `dialDirect` dials the canonical form of the host exactly when no bracket is redundant
      or would be added twice: `[::1]` is dialled as `[[::1]]:80`. */
  lemma {:induction false} DialTargetIsCanonical(h: string, defaultPort: string)
    requires Trimmed(h)
    requires ':' !in defaultPort && ToLower(defaultPort) == defaultPort
    ensures ToLower(DialTarget(h, defaultPort)) == Canon(h, defaultPort) <==> DialsAsWritten(h)
  {
    var d := Denotes(h, defaultPort);
    DenotesLower(h, defaultPort);
    LowerJoin(d.host, d.port);
    assert Canon(h, defaultPort) == ToLower(JoinHostPort(d.host, d.port));
    if SplitHostPort(h).Some? {
      DialWithPort(h);
    } else {
      DialWithoutPort(h, defaultPort);
    }
  }

  lemma {:induction false} DialWithPort(h: string)
    requires SplitHostPort(h).Some?
    ensures var hp := SplitHostPort(h).value;
            ToLower(h) == ToLower(JoinHostPort(hp.host, hp.port)) <==> DialsAsWritten(h)
  {
    var hp := SplitHostPort(h).value;
    SplitSpells(h);
    BracketShape(hp.host, hp.port);
    PlainShape(hp.host, hp.port);
    assert h == PlainForm(hp.host, hp.port) && hp.host != [] ==> h[0] == hp.host[0];
  }

  lemma {:induction false} DialWithoutPort(h: string, defaultPort: string)
    requires SplitHostPort(h).None?
    ensures ToLower(JoinHostPort(h, defaultPort)) == ToLower(JoinHostPort(StripIPv6Brackets(h), defaultPort))
            <==> DialsAsWritten(h)
  {
    var d := StripIPv6Brackets(h);
    if Bracketed(h) && |h| >= 2 {
      assert h == "[" + d + "]";
      assert |JoinHostPort(h, defaultPort)| > |JoinHostPort(d, defaultPort)|;
    }
  }

  lemma {:induction false} LowerJoin(host: string, port: string)
    ensures ToLower(JoinHostPort(host, port)) == JoinHostPort(ToLower(host), ToLower(port))
  {
    LowerDelimiters(host);
    LowerForms(host, port);
  }

  /** The failing family is not empty: a portless bracketed IPv6 literal is dialled with a second
      pair of brackets. */
  lemma {:induction false} PortlessIPv6IsBracketedTwice(name: string)
    requires ':' in name && Plain(name)
    ensures DialTarget("[" + name + "]", "80") == "[[" + name + "]]:80"
    ensures !DialsAsWritten("[" + name + "]")
  {
    var h := "[" + name + "]";
    assert h[|h| - 1] == ']';
    NoPortAfterBracket(h);
    assert ':' in h;
    assert BracketForm(h, "80") == "[[" + name + "]]:80";
    assert h[..1] == "[" && h[|h| - 1..] == "]";
  }

  lemma {:induction false} NoPortAfterBracket(s: string)
    requires |s| > 0 && s[|s| - 1] == ']'
    ensures SplitHostPort(s).None?
  {
    if SplitHostPort(s).Some? {
      var hp := SplitHostPort(s).value;
      SplitSpells(s);
      PlainShape(hp.host, hp.port);
      BracketShape(hp.host, hp.port);
    }
  }
}
